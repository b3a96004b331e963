/** The volume slider, the volume icon and the mute button of the player page.
    The audio element's volume (0.0 .. 1.0) is kept as a whole percentage, the
    unit of the slider. */
module Volume {
  import opened Basics

  /** A slider position: 0 .. 100 percent. */
  type Percent = v: int | 0 <= v <= 100

  /** A volume that can be heard; the only kind the mute button ever saves. */
  type Audible = v: int | 1 <= v <= 100 witness 70

  /** The volume the page starts with, and the one the mute button restores when
      nothing was saved. */
  const Default: Audible := 70

  /** The icon tiers, from `updateVolumeIcon`. */
  const DownBelow: Percent := 50

  datatype Icon = Mute | Down | Up

  /** The icon for a volume: mute at exactly zero, "down" below half, "up" from
      half upwards. */
  function IconFor(v: Percent): (i: Icon)
    ensures i == Mute <==> v == 0
    ensures i == Down <==> 0 < v < 50
    ensures i == Up <==> 50 <= v
  {
    if v == 0 then Mute else if v < DownBelow then Down else Up
  }

  /** The audio element's volume plus the pre-mute volume the mute button stores
      on the element (`dataset.prevVolume`, never cleared once written). */
  datatype Mixer = Mixer(level: Percent, saved: Option<Audible>)

  /** The page's mixer after set-up: 70 percent, nothing saved. */
  function InitialMixer(): (m: Mixer)
    ensures IconFor(m.level) == Up && m.saved.None?
  {
    Mixer(Default, None)
  }

  /** Moving the slider sets the level; the saved volume is left alone. */
  function Slide(m: Mixer, v: Percent): (r: Mixer)
    ensures r.level == v && r.saved == m.saved
  {
    m.(level := v)
  }

  /** The mute button: an audible level is saved and silenced; a silent level is
      replaced by the saved one, or by 70 percent if none was ever saved. */
  function MuteClick(m: Mixer): (r: Mixer)
    ensures m.level > 0 ==> r == Mixer(0, Some(m.level))
    ensures m.level == 0 ==> r.level > 0 && r.saved == m.saved
    ensures m.level == 0 && m.saved.Some? ==> r.level == m.saved.value
    ensures m.level == 0 && m.saved.None? ==> r.level == Default
  {
    if m.level > 0 then Mixer(0, Some(m.level))
    else Mixer(m.saved.GetOr(Default), m.saved)
  }

  /** One click always flips between muted and audible, and the icon follows. */
  lemma MuteClickToggles(m: Mixer)
    ensures (MuteClick(m).level == 0) <==> (m.level > 0)
    ensures (IconFor(MuteClick(m).level) == Mute) <==> (IconFor(m.level) != Mute)
  {
  }

  /** Two clicks from an audible level give back exactly that level, and the
      saved volume then records it. */
  lemma MuteTwiceRestores(m: Mixer)
    requires m.level > 0
    ensures MuteClick(MuteClick(m)) == Mixer(m.level, Some(m.level))
  {
  }

  /** Two clicks from silence: the restored level is saved, muted, and restored
      again, so the second pair of clicks reproduces the first. */
  lemma MuteFromSilence(m: Mixer)
    requires m.level == 0
    ensures MuteClick(MuteClick(MuteClick(m))) == MuteClick(m).(saved := Some(MuteClick(m).level))
  {
  }
}
