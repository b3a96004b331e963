/** The playback controller of the player page: which song is loaded, where the
    player stands in the song list, play/pause, shuffle, repeat, the end-of-track
    rule and the volume controls. Songs are an opaque type `S`; the audio element
    is reduced to what the rules read and write: its elapsed time and volume. */
module Player {
  import opened Basics
  import opened Volume

  /** `repeatMode`: 0 off, 1 repeat the whole list, 2 repeat the current song. */
  datatype Repeat = Off | All | One

  /** The number the page stores for each mode. */
  function Code(m: Repeat): (c: nat)
    ensures c < 3
  {
    match m
    case Off => 0
    case All => 1
    case One => 2
  }

  /** Seconds of playback; the audio element's `currentTime`. */
  type Seconds = t: real | t >= 0.0

  /** A draw of `Math.random()`: a real in [0, 1). */
  type Draw = u: real | 0.0 <= u < 1.0

  /** The page's global player variables.
      `index` is whatever index the last `playSong` call received: it may point
      into a search result or the recently-played grid rather than into
      `playlist`, and reloading the song list keeps it, so nothing ties it to
      `playlist`. */
  datatype State<S> = State(
    current: Option<S>,
    index: nat,
    playlist: seq<S>,
    playing: bool,
    shuffle: bool,
    repeat: Repeat,
    mixer: Mixer,
    elapsed: Seconds)

  /** The state when the page has loaded: nothing selected, empty list, 70 percent. */
  function Initial<S>(): (st: State<S>)
    ensures st.current.None? && !st.playing && st.playlist == []
    ensures st.mixer.level == 70 && st.repeat == Off && !st.shuffle
  {
    State(None, 0, [], false, false, Off, InitialMixer(), 0.0)
  }

  /** The index names a song of the list and that song is the loaded one. */
  ghost predicate Synced<S>(st: State<S>) {
    st.index < |st.playlist| && st.current == Some(st.playlist[st.index])
  }

  /** Everything except the loaded song, its index, the play flag and the
      elapsed time agree. */
  ghost predicate SameSettings<S>(a: State<S>, b: State<S>) {
    a.playlist == b.playlist && a.shuffle == b.shuffle && a.repeat == b.repeat && a.mixer == b.mixer
  }

  /** `playSong(song, index)`: load the song from the start and play it. The
      play count report to the server does not affect the player. */
  function PlaySong<S>(st: State<S>, song: S, index: nat): (r: State<S>)
    ensures r.current == Some(song) && r.index == index
    ensures r.playing && r.elapsed == 0.0
    ensures SameSettings(r, st)
  {
    st.(current := Some(song), index := index, playing := true, elapsed := 0.0)
  }

  /** `loadSongs`: the fetched list replaces `playlist`; the index is kept. */
  function LoadSongs<S>(st: State<S>, songs: seq<S>): (r: State<S>)
    ensures r.playlist == songs && r.index == st.index && r.current == st.current
    ensures r.(playlist := st.playlist) == st
  {
    st.(playlist := songs)
  }

  /** The play button: nothing happens without a loaded song; otherwise only
      the play flag flips. */
  function TogglePlay<S>(st: State<S>): (r: State<S>)
    ensures st.current.None? ==> r == st
    ensures st.current.Some? ==> r.playing != st.playing && r.(playing := st.playing) == st
  {
    if st.current.None? then st else st.(playing := !st.playing)
  }

  lemma TogglePlayTwice<S>(st: State<S>)
    ensures TogglePlay(TogglePlay(st)) == st
  {
  }

  /** `Math.floor(u * n)`: a uniform draw scaled to an index below `n`. */
  function Scale(u: Draw, n: nat): (k: nat)
    requires n > 0
    ensures k < n
  {
    ScaleBelow(u, n as real);
    (u * n as real).Floor
  }

  /** A draw below 1 scales `n` to something below `n`. */
  lemma ScaleBelow(u: real, n: real)
    requires 0.0 <= u < 1.0 && n > 0.0
    ensures u * n < n
  {
    assert n - u * n == (1.0 - u) * n;
    MulPositive(1.0 - u, n);
  }

  lemma MulPositive(a: real, b: real)
    requires a > 0.0 && b > 0.0
    ensures a * b > 0.0
  {
  }

  /** No index is out of the shuffle's reach: index `k` is drawn by `u = k/n`. */
  lemma ScaleReachesEvery(n: nat, k: nat)
    requires k < n
    ensures exists u: Draw :: Scale(u, n) == k
  {
    var u: Draw := k as real / n as real;
    assert u * n as real == k as real;
    assert Scale(u, n) == k;
  }

  /** Euclidean division is unique: `k*n + r` with `0 <= r < n` leaves remainder `r`. */
  lemma ModUnique(x: int, n: int, k: int, r: int)
    requires n > 0 && 0 <= r < n && x == k * n + r
    ensures x % n == r
  {
    var d := x / n;
    var m := x % n;
    assert (d - k) * n == d * n - k * n;
    MulSign(d - k, n);
  }

  lemma MulSign(t: int, n: int)
    requires n > 0
    ensures t >= 1 ==> t * n >= n
    ensures t <= -1 ==> t * n <= -n
  {
  }

  /** Stepping back one index undoes stepping forward one, modulo the list length. */
  lemma {:induction false} StepBackAfterForward(i: nat, n: nat)
    requires n > 0
    ensures ((i + 1) % n - 1 + n) % n == i % n
  {
    var q := i % n;
    var d := i / n;
    assert i == d * n + q;
    if q == n - 1 {
      ModUnique(i + 1, n, d + 1, 0);
      ModUnique(n - 1, n, 0, n - 1);
    } else {
      ModUnique(i + 1, n, d, q + 1);
      ModUnique(q + n, n, 1, q);
    }
  }

  /** Stepping forward one index undoes stepping back one, modulo the list length. */
  lemma {:induction false} StepForwardAfterBack(i: nat, n: nat)
    requires n > 0
    ensures ((i - 1 + n) % n + 1) % n == i % n
  {
    var q := i % n;
    var d := i / n;
    assert i == d * n + q;
    if q == 0 {
      ModUnique(i - 1 + n, n, d, n - 1);
      ModUnique(n, n, 1, 0);
    } else {
      ModUnique(i - 1 + n, n, d + 1, q - 1);
      ModUnique(q, n, 0, q);
    }
  }

  /** The next button: nothing on an empty list; otherwise a random index when
      shuffling, else the following index wrapping to 0, and that song plays. */
  function PlayNext<S>(st: State<S>, u: Draw): (r: State<S>)
    ensures |st.playlist| == 0 ==> r == st
    ensures |st.playlist| > 0 ==> Synced(r) && r.playing && r.elapsed == 0.0 && SameSettings(r, st)
    ensures |st.playlist| > 0 && !st.shuffle ==> r.index == (st.index + 1) % |st.playlist|
    ensures |st.playlist| > 0 && st.shuffle ==> r.index == Scale(u, |st.playlist|)
  {
    var n := |st.playlist|;
    if n == 0 then st
    else
      var i := if st.shuffle then Scale(u, n) else (st.index + 1) % n;
      PlaySong(st, st.playlist[i], i)
  }

  /** The previous button: nothing on an empty list; past three seconds it only
      rewinds the current song; otherwise it steps back one index, wrapping to
      the end, and that song plays. Shuffle plays no part. */
  function PlayPrevious<S>(st: State<S>): (r: State<S>)
    ensures |st.playlist| == 0 ==> r == st
    ensures |st.playlist| > 0 && st.elapsed > 3.0 ==> r == st.(elapsed := 0.0)
    ensures |st.playlist| > 0 && st.elapsed <= 3.0 ==>
      Synced(r) && r.playing && r.elapsed == 0.0 && SameSettings(r, st) &&
      (r.index + 1) % |st.playlist| == st.index % |st.playlist|
  {
    var n := |st.playlist|;
    if n == 0 then st
    else if st.elapsed > 3.0 then st.(elapsed := 0.0)
    else
      var i := (st.index - 1 + n) % n;
      StepForwardAfterBack(st.index, n);
      PlaySong(st, st.playlist[i], i)
  }

  /** With shuffle off and at most three seconds played, next then previous
      comes back to the index the player had (reduced into the list). */
  lemma {:induction false} NextThenPrevious<S>(st: State<S>, u: Draw)
    requires |st.playlist| > 0 && !st.shuffle
    ensures PlayPrevious(PlayNext(st, u)).index == st.index % |st.playlist|
    ensures st.index < |st.playlist| ==>
      PlayPrevious(PlayNext(st, u)).index == st.index &&
      PlayPrevious(PlayNext(st, u)).current == Some(st.playlist[st.index])
  {
    var n := |st.playlist|;
    StepBackAfterForward(st.index, n);
    if st.index < n {
      ModUnique(st.index, n, 0, st.index);
    }
  }

  /** Previous then next, from within the first three seconds and with shuffle
      off, comes back to the index the player had (reduced into the list). */
  lemma {:induction false} PreviousThenNext<S>(st: State<S>, u: Draw)
    requires |st.playlist| > 0 && !st.shuffle && st.elapsed <= 3.0
    ensures PlayNext(PlayPrevious(st), u).index == st.index % |st.playlist|
  {
    StepForwardAfterBack(st.index, |st.playlist|);
  }

  /** The shuffle button. */
  function ToggleShuffle<S>(st: State<S>): (r: State<S>)
    ensures r.shuffle != st.shuffle && r.(shuffle := st.shuffle) == st
  {
    st.(shuffle := !st.shuffle)
  }

  lemma ShuffleTwice<S>(st: State<S>)
    ensures ToggleShuffle(ToggleShuffle(st)) == st
  {
  }

  /** `(repeatMode + 1) % 3`. */
  function NextRepeat(m: Repeat): (r: Repeat)
    ensures Code(r) == (Code(m) + 1) % 3
  {
    match m
    case Off => All
    case All => One
    case One => Off
  }

  /** The repeat button. */
  function ToggleRepeat<S>(st: State<S>): (r: State<S>)
    ensures r.repeat != st.repeat && r.(repeat := st.repeat) == st
    ensures Code(r.repeat) == (Code(st.repeat) + 1) % 3
  {
    st.(repeat := NextRepeat(st.repeat))
  }

  /** Three presses bring the mode back. */
  lemma RepeatCycle<S>(st: State<S>)
    ensures ToggleRepeat(ToggleRepeat(ToggleRepeat(st))) == st
  {
  }

  /** The audio element's `ended` event. Repeat-one rewinds and plays the same
      song again; repeat-all, or any song but the last of the list, goes to the
      next song exactly like the next button; otherwise playback stops where it is. */
  function Ended<S>(st: State<S>, u: Draw): (r: State<S>)
    ensures st.repeat == One ==> r == st.(elapsed := 0.0)
    ensures st.repeat != One && (st.repeat == All || st.index < |st.playlist| - 1) ==> r == PlayNext(st, u)
    ensures st.repeat == Off && st.index >= |st.playlist| - 1 ==> r == st.(playing := false)
  {
    if st.repeat == One then st.(elapsed := 0.0)
    else if st.repeat == All || st.index < |st.playlist| - 1 then PlayNext(st, u)
    else st.(playing := false)
  }

  /** End of a song that is not the last, repeat off, shuffle off: the next
      index plays. */
  lemma EndedMidList<S>(st: State<S>, u: Draw)
    requires st.repeat == Off && !st.shuffle && st.index < |st.playlist| - 1
    ensures Ended(st, u).index == st.index + 1 && Ended(st, u).playing
    ensures Ended(st, u).current == Some(st.playlist[st.index + 1])
  {
  }

  /** The volume slider. */
  function SlideVolume<S>(st: State<S>, v: Percent): (r: State<S>)
    ensures r.mixer.level == v && r.mixer.saved == st.mixer.saved
    ensures r.(mixer := st.mixer) == st
  {
    st.(mixer := Slide(st.mixer, v))
  }

  /** The mute button. */
  function MuteButton<S>(st: State<S>): (r: State<S>)
    ensures r.mixer == MuteClick(st.mixer) && r.(mixer := st.mixer) == st
    ensures (r.mixer.level == 0) <==> (st.mixer.level > 0)
  {
    st.(mixer := MuteClick(st.mixer))
  }

  /** The inputs the controller reacts to, in the order they arrive. */
  datatype Event<S> =
    | Select(song: S, at: nat)
    | Load(songs: seq<S>)
    | PlayButton
    | NextButton(draw: Draw)
    | PreviousButton
    | ShuffleButton
    | RepeatButton
    | TrackEnded(draw: Draw)
    | VolumeSlider(level: Percent)
    | VolumeButton
    | TimeUpdate(time: Seconds)

  /** One event handled by the controller. Only loading changes the list, only
      the volume controls change the mixer (and nothing else), only the shuffle
      button changes shuffling, and the audio clock moves only the time. */
  function Step<S>(st: State<S>, e: Event<S>): (r: State<S>)
    ensures !e.Load? ==> r.playlist == st.playlist
    ensures e.VolumeSlider? || e.VolumeButton? ==> r == st.(mixer := r.mixer)
    ensures !(e.VolumeSlider? || e.VolumeButton?) ==> r.mixer == st.mixer
    ensures r.shuffle == (st.shuffle != e.ShuffleButton?)
    ensures e.TimeUpdate? ==> r == st.(elapsed := e.time)
  {
    match e
    case Select(song, i) => PlaySong(st, song, i)
    case Load(songs) => LoadSongs(st, songs)
    case PlayButton => TogglePlay(st)
    case NextButton(u) => PlayNext(st, u)
    case PreviousButton => PlayPrevious(st)
    case ShuffleButton => ToggleShuffle(st)
    case RepeatButton => ToggleRepeat(st)
    case TrackEnded(u) => Ended(st, u)
    case VolumeSlider(v) => SlideVolume(st, v)
    case VolumeButton => MuteButton(st)
    case TimeUpdate(t) => st.(elapsed := t)
  }

  /** A sequence of events handled in order. The list survives a run with no
      load, the mixer one with no volume event, and shuffling ends on when the
      shuffle button was pressed an odd number of times from off. */
  function Run<S>(st: State<S>, events: seq<Event<S>>): (r: State<S>)
    ensures (forall i :: 0 <= i < |events| ==> !events[i].Load?) ==> r.playlist == st.playlist
    ensures (forall i :: 0 <= i < |events| ==> !events[i].VolumeSlider? && !events[i].VolumeButton?) ==>
      r.mixer == st.mixer
    ensures r.shuffle == (st.shuffle != Odd(Presses(events)))
    decreases |events|
  {
    if |events| == 0 then st else Run(Step(st, events[0]), events[1..])
  }

  /** How many times the shuffle button occurs in `events`. */
  function Presses<S>(events: seq<Event<S>>): nat
    decreases |events|
  {
    if |events| == 0 then 0
    else (if events[0].ShuffleButton? then 1 else 0) + Presses(events[1..])
  }

  predicate Odd(n: nat) {
    n % 2 == 1
  }

  /** Nothing is ever playing while no song is loaded. */
  ghost predicate Consistent<S>(st: State<S>) {
    st.current.None? ==> !st.playing
  }

  /** Once a song is loaded one stays loaded, and a saved volume is never lost. */
  ghost predicate Settled<S>(before: State<S>, after: State<S>) {
    && (before.current.Some? ==> after.current.Some?)
    && (before.mixer.saved.Some? ==> after.mixer.saved.Some?)
  }

  lemma StepKeepsConsistent<S>(st: State<S>, e: Event<S>)
    requires Consistent(st)
    ensures Consistent(Step(st, e)) && Settled(st, Step(st, e))
  {
  }

  /** Every run of events from the initial state keeps the controller
      consistent, and the settled facts accumulate. */
  lemma {:induction false} RunKeepsConsistent<S>(st: State<S>, events: seq<Event<S>>)
    requires Consistent(st)
    ensures Consistent(Run(st, events)) && Settled(st, Run(st, events))
    decreases |events|
  {
    if |events| > 0 {
      StepKeepsConsistent(st, events[0]);
      RunKeepsConsistent(Step(st, events[0]), events[1..]);
    }
  }
}
