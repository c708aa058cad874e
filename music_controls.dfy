/** The volume control: slider values are rounded to the nearest ten
    percent, and the mute button jumps between 0 % and 30 %. */
module MusicControls {

  /** Volume when the page mounts. */
  const InitialVolume: int := 70

  /** Volume the mute button restores. */
  const UnmuteVolume: int := 30

  /** `Math.round(v / 10) * 10`: JavaScript rounds halves up, which for a
      positive divisor is floor((v + 5) / 10), Dafny's `/` on `int`. The
      result is the multiple of ten nearest to v, a tie going to the one
      above. */
  function Stepped(v: int): (s: int)
    ensures s % 10 == 0
    ensures v - 5 < s <= v + 5
  {
    ((v + 5) / 10) * 10
  }

  /** The nearest multiple of ten is unique. */
  lemma SteppedUnique(v: int, m: int)
    requires m % 10 == 0 && v - 5 < m <= v + 5
    ensures m == Stepped(v)
  {
    var s := Stepped(v);
    assert (m - s) % 10 == 0 by {
      assert m == (m / 10) * 10;
      assert s == (s / 10) * 10;
      assert m - s == (m / 10 - s / 10) * 10;
    }
  }

  /** Every value the slider offers (0 to 100 in steps of 10) is kept as it is,
      and stepping twice is stepping once. */
  lemma SliderValuesUnchanged(v: int)
    requires 0 <= v <= 100 && v % 10 == 0
    ensures Stepped(v) == v
  {
    SteppedUnique(v, v);
  }

  lemma SteppedIdempotent(v: int)
    ensures Stepped(Stepped(v)) == Stepped(v)
  {
    SteppedUnique(Stepped(v), Stepped(v));
  }

  class Controls {
    var volume: int
    var isMuted: bool

    /** The shown volume is a multiple of ten and muted means it is 0. */
    ghost predicate Valid()
      reads this
    {
      volume % 10 == 0 && (isMuted <==> volume == 0)
    }

    constructor ()
      ensures Valid() && volume == InitialVolume && !isMuted
    {
      volume := InitialVolume;
      isMuted := false;
    }

    /** `handleVolumeChange`. */
    method HandleVolumeChange(newVolume: int)
      modifies this
      ensures Valid()
      ensures volume == Stepped(newVolume) && (isMuted <==> Stepped(newVolume) == 0)
    {
      var steppedVolume := Stepped(newVolume);
      volume := steppedVolume;
      isMuted := steppedVolume == 0;
    }

    /** `toggleMute`: muted goes to 30 % and unmuted; unmuted goes to 0 % and
        muted. */
    method ToggleMute()
      modifies this
      ensures Valid()
      ensures old(isMuted) ==> volume == UnmuteVolume && !isMuted
      ensures !old(isMuted) ==> volume == 0 && isMuted
    {
      if isMuted {
        SliderValuesUnchanged(UnmuteVolume);
        HandleVolumeChange(UnmuteVolume);
      } else {
        SliderValuesUnchanged(0);
        HandleVolumeChange(0);
      }
    }
  }
}
