/** The "top songs" table of the admin overview: the fetched songs sorted by
    play count, highest first, with `Array.prototype.sort`, which is stable and
    sorts the array in place, then the first five. */
module Ranking {
  import opened Basics

  /** A song as the dashboard receives it from `GET /api/songs`. */
  datatype Listed = Listed(id: int, title: string, artist: string, playCount: Option<int>)

  /** `song.play_count || 0`. */
  function Count(s: Listed): int {
    s.playCount.GetOr(0)
  }

  ghost predicate NonIncreasing(s: seq<Listed>) {
    forall i, j :: 0 <= i < j < |s| ==> Count(s[i]) >= Count(s[j])
  }

  /** The songs with play count `k`, in their order in `s`. */
  function WithCount(s: seq<Listed>, k: int): seq<Listed>
    decreases |s|
  {
    if |s| == 0 then []
    else if Count(s[0]) == k then [s[0]] + WithCount(s[1..], k)
    else WithCount(s[1..], k)
  }

  /** Places `x` before the first song whose count does not exceed its own, so
      that `x` precedes every song of equal count. */
  function Insert(x: Listed, t: seq<Listed>): (r: seq<Listed>)
    ensures |r| == |t| + 1
    ensures forall y :: y in r ==> y == x || y in t
    decreases |t|
  {
    if |t| == 0 then [x]
    else if Count(t[0]) <= Count(x) then [x] + t
    else [t[0]] + Insert(x, t[1..])
  }

  lemma {:induction false} InsertKeepsOrder(x: Listed, t: seq<Listed>)
    requires NonIncreasing(t)
    ensures NonIncreasing(Insert(x, t))
    decreases |t|
  {
    if |t| > 0 && Count(t[0]) > Count(x) {
      InsertKeepsOrder(x, t[1..]);
      var rest := Insert(x, t[1..]);
      var r := [t[0]] + rest;
      forall i, j | 0 <= i < j < |r|
        ensures Count(r[i]) >= Count(r[j])
      {
        if i == 0 {
          assert r[j] in rest;
          if r[j] != x {
            assert r[j] in t[1..];
            var m :| 0 <= m < |t[1..]| && t[1..][m] == r[j];
            assert t[m + 1] == r[j];
          }
        } else {
          assert r[i] == rest[i - 1] && r[j] == rest[j - 1];
        }
      }
    }
  }

  lemma {:induction false} InsertPermutes(x: Listed, t: seq<Listed>)
    ensures multiset(Insert(x, t)) == multiset(t) + multiset{x}
    decreases |t|
  {
    if |t| > 0 && Count(t[0]) > Count(x) {
      InsertPermutes(x, t[1..]);
      assert t == [t[0]] + t[1..];
    }
  }

  /** The comparator `(b.play_count || 0) - (a.play_count || 0)` under a stable
      sort: highest count first, the fetched order kept among equal counts. */
  function SortByPlays(s: seq<Listed>): (r: seq<Listed>)
    ensures NonIncreasing(r)
    ensures multiset(r) == multiset(s)
    ensures |r| == |s|
    decreases |s|
  {
    if |s| == 0 then []
    else
      var rest := SortByPlays(s[1..]);
      InsertSorted(s, rest);
      Insert(s[0], rest)
  }

  /** One step of the sort: inserting the head into the sorted tail. */
  lemma InsertSorted(s: seq<Listed>, rest: seq<Listed>)
    requires |s| > 0 && NonIncreasing(rest) && multiset(rest) == multiset(s[1..])
    ensures NonIncreasing(Insert(s[0], rest))
    ensures multiset(Insert(s[0], rest)) == multiset(s)
  {
    InsertKeepsOrder(s[0], rest);
    InsertPermutes(s[0], rest);
    assert s == [s[0]] + s[1..];
  }

  lemma {:induction false} InsertWithCount(x: Listed, t: seq<Listed>, k: int)
    ensures WithCount(Insert(x, t), k) ==
      if Count(x) == k then [x] + WithCount(t, k) else WithCount(t, k)
    decreases |t|
  {
    if |t| == 0 {
    } else if Count(t[0]) <= Count(x) {
      assert ([x] + t)[1..] == t;
    } else {
      InsertWithCount(x, t[1..], k);
      var r := [t[0]] + Insert(x, t[1..]);
      assert r[1..] == Insert(x, t[1..]);
      if Count(t[0]) == k {
        assert Count(x) != k;
      }
    }
  }

  /** Stability: among songs with the same play count, the sorted list keeps
      the fetched order. */
  lemma {:induction false} SortIsStable(s: seq<Listed>, k: int)
    ensures WithCount(SortByPlays(s), k) == WithCount(s, k)
    decreases |s|
  {
    if |s| > 0 {
      SortIsStable(s[1..], k);
      InsertWithCount(s[0], SortByPlays(s[1..]), k);
    }
  }

  function Min(a: int, b: int): int {
    if a <= b then a else b
  }

  /** What the overview shows, and what the fetched array holds afterwards. */
  datatype Overview = Overview(top: seq<Listed>, recent: seq<Listed>, songsAfter: seq<Listed>)

  /** `loadOverview` as written: the sort reorders `songs` itself, so the
      "recent activity" slice taken from `songs` afterwards is the top five again. */
  function LoadOverview(songs: seq<Listed>): (o: Overview)
    ensures |o.top| == Min(5, |songs|)
    ensures NonIncreasing(o.top)
    ensures multiset(o.songsAfter) == multiset(songs)
    ensures o.top == o.songsAfter[..|o.top|]
    ensures o.recent == o.top
  {
    var sorted := SortByPlays(songs);
    var top := sorted[..Min(5, |songs|)];
    Overview(top, sorted[..Min(5, |songs|)], sorted)
  }

  /** The top list takes the highest counts: every song left out has a count no
      higher than any song shown. */
  lemma TopIsHighest(songs: seq<Listed>, i: int, j: int)
    requires 0 <= i < |LoadOverview(songs).top| <= j < |songs|
    ensures Count(LoadOverview(songs).top[i]) >= Count(LoadOverview(songs).songsAfter[j])
  {
  }

  /** Concrete inputs on which the as-written recent list differs from the
      upload order: an unplayed newest song and a played older one. */
  lemma RecentActivityShowsRanking()
    ensures
      var a := Listed(2, "New", "X", None);
      var b := Listed(1, "Old", "Y", Some(3));
      LoadOverview([a, b]).recent == [b, a] && [a, b][..2] == [a, b]
  {
  }

  /** The evident intent: the top five by plays, and the five newest songs as
      fetched (the server lists newest first), the latter taken from a copy
      that the sort does not touch. */
  function LoadOverviewIntended(songs: seq<Listed>): (o: Overview)
    ensures |o.top| == Min(5, |songs|)
    ensures NonIncreasing(o.top)
    ensures o.recent == songs[..Min(5, |songs|)]
    ensures o.songsAfter == songs
    ensures o.top == LoadOverview(songs).top
  {
    var sorted := SortByPlays(songs);
    Overview(sorted[..Min(5, |songs|)], songs[..Min(5, |songs|)], songs)
  }
}
