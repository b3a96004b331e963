/** String operations used by the rules: splitting on a single space (as
    `String.prototype.split(" ")` does), prefix tests, ASCII lower-casing and
    substring search. */
module Text {
  import opened Basics

  // ---------------------------------------------------------------- split

  /** The fields of `s` between single spaces: two adjacent spaces give an empty
      field, and a string without spaces is its own single field. */
  function Split(s: string): (r: seq<string>)
    ensures |r| >= 1
    decreases |s|
  {
    if |s| == 0 then [""]
    else
      var rest := Split(s[1..]);
      if s[0] == ' ' then [""] + rest
      else [[s[0]] + rest[0]] + rest[1..]
  }

  /** The inverse of `Split`: the fields glued back with single spaces. */
  function Join(fields: seq<string>): string
    requires |fields| >= 1
  {
    if |fields| == 1 then fields[0] else fields[0] + " " + Join(fields[1..])
  }

  predicate SpaceFree(s: string) {
    forall i :: 0 <= i < |s| ==> s[i] != ' '
  }

  /** No field produced by `Split` contains a space. */
  lemma {:induction false} SplitFieldsSpaceFree(s: string)
    ensures forall k :: 0 <= k < |Split(s)| ==> SpaceFree(Split(s)[k])
    decreases |s|
  {
    if |s| > 0 {
      SplitFieldsSpaceFree(s[1..]);
      var rest := Split(s[1..]);
      if s[0] != ' ' {
        var f := [s[0]] + rest[0];
        assert SpaceFree(rest[0]);
        assert forall i :: 0 < i < |f| ==> f[i] == rest[0][i - 1];
      }
    }
  }

  /** Splitting then joining gives back the original string. */
  lemma {:induction false} JoinSplit(s: string)
    ensures Join(Split(s)) == s
    decreases |s|
  {
    if |s| > 0 {
      JoinSplit(s[1..]);
      var rest := Split(s[1..]);
      if s[0] == ' ' {
        assert Join([""] + rest) == "" + " " + Join(rest);
        assert s == [' '] + s[1..];
      } else {
        var r := [[s[0]] + rest[0]] + rest[1..];
        if |rest| == 1 {
          assert Join(r) == [s[0]] + rest[0];
          assert s == [s[0]] + s[1..];
        } else {
          assert Join(r) == [s[0]] + rest[0] + " " + Join(rest[1..]);
          assert Join(rest) == rest[0] + " " + Join(rest[1..]);
          assert s == [s[0]] + s[1..];
        }
      }
    }
  }

  /** A word without spaces, one space, then the rest: the word is the first field. */
  lemma {:induction false} SplitAfterWord(w: string, t: string)
    requires SpaceFree(w)
    ensures Split(w + " " + t) == [w] + Split(t)
    decreases |w|
  {
    if |w| == 0 {
      assert w + " " + t == [' '] + t;
      assert (w + " " + t)[1..] == t;
    } else {
      SplitAfterWord(w[1..], t);
      assert (w + " " + t)[1..] == w[1..] + " " + t;
      assert w == [w[0]] + w[1..];
    }
  }

  /** A string without spaces splits into itself alone. */
  lemma {:induction false} SplitSpaceFree(t: string)
    requires SpaceFree(t)
    ensures Split(t) == [t]
    decreases |t|
  {
    if |t| > 0 {
      SplitSpaceFree(t[1..]);
      assert t == [t[0]] + t[1..];
    }
  }

  // ---------------------------------------------------------------- prefixes

  /** `s.startsWith(p)`. */
  predicate StartsWith(s: string, p: string) {
    |p| <= |s| && s[..|p|] == p
  }

  // ---------------------------------------------------------------- case

  /** Lower-cases one ASCII letter; every other character is kept. */
  function LowerChar(c: char): (r: char)
    ensures IsUpper(c) ==> r as int == c as int + 32
    ensures !IsUpper(c) ==> r == c
    ensures !IsUpper(r)
  {
    if IsUpper(c) then (c as int + 32) as char else c
  }

  /** `s.toLowerCase()` restricted to ASCII letters. */
  function Lower(s: string): (r: string)
    ensures |r| == |s|
    ensures forall i :: 0 <= i < |s| ==> r[i] == LowerChar(s[i])
  {
    seq(|s|, i requires 0 <= i < |s| => LowerChar(s[i]))
  }

  /** Lower-casing twice changes nothing more. */
  lemma LowerIdempotent(s: string)
    ensures Lower(Lower(s)) == Lower(s)
  {
  }

  // ---------------------------------------------------------------- search

  /** `q` occurs in `t` at position `i`. */
  predicate OccursAt(t: string, q: string, i: int) {
    0 <= i && i + |q| <= |t| && t[i..i + |q|] == q
  }

  /** `t.includes(q)`, by a left-to-right scan. */
  function Includes(t: string, q: string): (b: bool)
    ensures b <==> exists i :: OccursAt(t, q, i)
    decreases |t|
  {
    if StartsWith(t, q) then
      assert OccursAt(t, q, 0);
      true
    else if |t| == 0 then
      assert !OccursAt(t, q, 0);
      false
    else
      var b := Includes(t[1..], q);
      if b then
        var j :| OccursAt(t[1..], q, j);
        OccursAfterHead(t, q, j + 1);
        true
      else
        assert forall i :: !OccursAt(t, q, i) by {
          forall i | 0 < i
            ensures !OccursAt(t, q, i)
          {
            OccursAfterHead(t, q, i);
          }
        }
        false
  }

  /** An occurrence past the first character is an occurrence in the tail. */
  lemma OccursAfterHead(t: string, q: string, i: int)
    requires |t| > 0 && i > 0
    ensures OccursAt(t, q, i) <==> OccursAt(t[1..], q, i - 1)
  {
    if i + |q| <= |t| {
      assert t[1..][i - 1..i - 1 + |q|] == t[i..i + |q|];
    }
  }

  /** Every string contains the empty string. */
  lemma IncludesEmpty(t: string)
    ensures Includes(t, "")
  {
    assert OccursAt(t, "", 0);
  }
}
