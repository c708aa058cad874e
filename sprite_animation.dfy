/** The sprite sheet player: an interval steps the shown frame while the
    animation plays, wrapping around when it loops and stopping on the last
    frame (and reporting completion) when it does not. */
module SpriteAnimation {
  import Lines

  /** What one interval step leaves behind: the frame, whether the
      animation still plays, and whether `onAnimationComplete` fired. */
  datatype Step = Step(frame: nat, playing: bool, completed: bool)

  /** The frame updater of one interval step from frame `prev`. The frame
      is not clamped: after the props changed to a shorter sheet `prev` may
      already lie past its end. */
  function NextFrame(prev: nat, frameCount: nat, loop: bool): (s: Step)
    ensures s.completed <==> !s.playing
    ensures s.completed <==> prev + 1 >= frameCount && !loop
    ensures prev + 1 < frameCount ==> s == Step(prev + 1, true, false)
    ensures prev + 1 >= frameCount && loop ==> s == Step(0, true, false)
    ensures !s.playing ==> s.frame == prev
    ensures prev < frameCount ==> s.frame < frameCount
  {
    var nextFrame := prev + 1;
    if nextFrame >= frameCount then
      if loop then Step(0, true, false) else Step(prev, false, true)
    else
      Step(nextFrame, true, false)
  }

  /** A frame that has run off the end of a one-shot sheet stays there:
      the step stops playing on that frame, so no later interval moves it. */
  lemma OffSheetOneShotFreezes(prev: nat, frameCount: nat)
    requires prev >= frameCount
    ensures NextFrame(prev, frameCount, false) == Step(prev, false, true)
    ensures !FrameOnSheet(NextFrame(prev, frameCount, false).frame, frameCount)
  {
  }

  /** Frame and playing flag after `k` interval steps from frame 0, playing;
      a step after the animation stopped leaves it as it is (no interval
      runs then). */
  function Run(frameCount: nat, loop: bool, k: nat): (r: (nat, bool))
    requires frameCount > 0
    ensures r.0 < frameCount
  {
    if k == 0 then (0, true)
    else
      var prev := Run(frameCount, loop, k - 1);
      if !prev.1 then prev
      else
        var s := NextFrame(prev.0, frameCount, loop);
        (s.frame, s.playing)
  }

  /** A looping animation never stops and shows frame k mod frameCount after
      k steps. */
  lemma {:induction false} LoopingCycles(frameCount: nat, k: nat)
    requires frameCount > 0
    ensures Run(frameCount, true, k) == (k % frameCount, true)
  {
    if k > 0 {
      LoopingCycles(frameCount, k - 1);
      var f := (k - 1) % frameCount;
      LoopStep(f, frameCount);
      assert (f + 1) % frameCount == k % frameCount by {
        ModSucc(k - 1, frameCount);
      }
    }
  }

  /** On its own sheet a looping step moves to the next frame mod frameCount. */
  lemma LoopStep(f: nat, frameCount: nat)
    requires f < frameCount
    ensures NextFrame(f, frameCount, true) == Step((f + 1) % frameCount, true, false)
  {
    if f + 1 < frameCount {
      Lines.DivModOf(f + 1, frameCount, 0, f + 1);
    } else {
      Lines.DivModOf(f + 1, frameCount, 1, 0);
    }
  }

  lemma ModSucc(a: nat, m: nat)
    requires m > 0
    ensures (a % m + 1) % m == (a + 1) % m
  {
    var q, r := a / m, a % m;
    assert a == q * m + r;
    if r + 1 == m {
      assert a + 1 == (q + 1) * m + 0;
      Lines.DivModOf(a + 1, m, q + 1, 0);
      Lines.DivModOf(r + 1, m, 1, 0);
    } else {
      Lines.DivModOf(a + 1, m, q, r + 1);
      Lines.DivModOf(r + 1, m, 0, r + 1);
    }
  }

  /** An animation played once climbs one frame per step, holds the last
      frame, and plays exactly during the first frameCount - 1 steps. */
  lemma {:induction false} PlayedOnce(frameCount: nat, k: nat)
    requires frameCount > 0
    ensures Run(frameCount, false, k) == (if k < frameCount then k else frameCount - 1, k < frameCount)
  {
    if k > 0 {
      PlayedOnce(frameCount, k - 1);
    }
  }

  /** Completion is reported on exactly one step of a non-looping run: the
      frameCount-th. */
  lemma CompletesOnce(frameCount: nat, k: nat)
    requires frameCount > 0 && k > 0
    ensures var prev := Run(frameCount, false, k - 1);
            (prev.1 && NextFrame(prev.0, frameCount, false).completed) <==> k == frameCount
  {
    PlayedOnce(frameCount, k - 1);
  }

  /** The early return of the render: nothing is drawn without a sheet or
      without frames. */
  function Renders(spriteSheet: string, frameCount: nat): (r: bool)
    ensures r ==> frameCount > 0
  {
    spriteSheet != "" && frameCount != 0
  }

  /** Width in pixels of one frame of the sheet. */
  const FrameWidth: nat := 100

  /** The drawn 100-pixel window, at offset `frame * 100` of a sheet
      `frameCount * 100` wide, lies on the sheet. */
  predicate FrameOnSheet(frame: nat, frameCount: nat) {
    frame * FrameWidth + FrameWidth <= frameCount * FrameWidth
  }

  /** The window is on the sheet exactly for the sheet's own frames. */
  lemma FrameOnSheetIff(frame: nat, frameCount: nat)
    ensures FrameOnSheet(frame, frameCount) <==> frame < frameCount
  {
    assert frame * FrameWidth + FrameWidth == (frame + 1) * FrameWidth;
    if frame < frameCount {
      Lines.MulMonotone(frame + 1, frameCount, FrameWidth);
    } else {
      Lines.MulMonotone(frameCount, frame, FrameWidth);
    }
  }

  /** With the props left alone, whatever a rendered sprite shows after any
      number of steps from mount is a window on its sheet. */
  lemma RenderedRunStaysOnSheet(spriteSheet: string, frameCount: nat, loop: bool, k: nat)
    requires Renders(spriteSheet, frameCount)
    ensures FrameOnSheet(Run(frameCount, loop, k).0, frameCount)
  {
    FrameOnSheetIff(Run(frameCount, loop, k).0, frameCount);
  }

  /** The orc passes its sprite no `key`, so a switch from the looping 8-frame
      walk sheet to the one-shot 6-frame idle sheet keeps the frame. From walk
      frame 6 or 7 the next step stops on a frame past the idle sheet's end,
      which draws an empty window, and reports completion. */
  lemma WalkToIdleFreezesOffSheet(frame: nat)
    requires 6 <= frame < 8
    ensures FrameOnSheet(frame, 8)
    ensures NextFrame(frame, 6, false) == Step(frame, false, true)
    ensures !FrameOnSheet(frame, 6)
  {
    FrameOnSheetIff(frame, 8);
    FrameOnSheetIff(frame, 6);
  }

  class Sprite {
    var spriteSheet: string
    var frameCount: nat
    var loop: bool
    var autoplay: bool
    var currentFrame: nat
    var isPlaying: bool

    /** The shown frame is one of the current sheet's frames. */
    predicate OnSheet()
      reads this
    {
      currentFrame < frameCount
    }

    constructor (spriteSheet: string, frameCount: nat, loop: bool, autoplay: bool)
      ensures this.spriteSheet == spriteSheet && this.frameCount == frameCount
      ensures this.loop == loop && this.autoplay == autoplay
      ensures currentFrame == 0 && isPlaying == autoplay
      ensures frameCount > 0 ==> OnSheet()
    {
      this.spriteSheet := spriteSheet;
      this.frameCount := frameCount;
      this.loop := loop;
      this.autoplay := autoplay;
      currentFrame := 0;
      isPlaying := autoplay;
    }

    /** A re-render with new props: `useState` ignores its initial values
        then, so the frame and the playing flag are kept as they are. */
    method SetProps(spriteSheet: string, frameCount: nat, loop: bool, autoplay: bool)
      modifies this
      ensures this.spriteSheet == spriteSheet && this.frameCount == frameCount
      ensures this.loop == loop && this.autoplay == autoplay
      ensures currentFrame == old(currentFrame) && isPlaying == old(isPlaying)
    {
      this.spriteSheet := spriteSheet;
      this.frameCount := frameCount;
      this.loop := loop;
      this.autoplay := autoplay;
    }

    /** One interval step. No interval runs while paused or with no frames.
        Between prop changes a frame on the sheet stays on it. */
    method Tick() returns (completed: bool)
      modifies this
      ensures spriteSheet == old(spriteSheet) && frameCount == old(frameCount)
      ensures loop == old(loop) && autoplay == old(autoplay)
      ensures !old(isPlaying) || frameCount == 0 ==>
                !completed && currentFrame == old(currentFrame) && isPlaying == old(isPlaying)
      ensures old(isPlaying) && frameCount > 0 ==>
                var s := NextFrame(old(currentFrame), frameCount, loop);
                currentFrame == s.frame && isPlaying == s.playing && completed == s.completed
      ensures old(OnSheet()) ==> OnSheet()
    {
      if !isPlaying || frameCount == 0 {
        return false;
      }
      var s := NextFrame(currentFrame, frameCount, loop);
      currentFrame := s.frame;
      isPlaying := s.playing;
      completed := s.completed;
    }

    /** `play`. */
    method Play()
      modifies this
      ensures isPlaying
      ensures currentFrame == old(currentFrame) && spriteSheet == old(spriteSheet) && frameCount == old(frameCount)
      ensures loop == old(loop) && autoplay == old(autoplay)
    {
      isPlaying := true;
    }

    /** `pause`. */
    method Pause()
      modifies this
      ensures !isPlaying
      ensures currentFrame == old(currentFrame) && spriteSheet == old(spriteSheet) && frameCount == old(frameCount)
      ensures loop == old(loop) && autoplay == old(autoplay)
    {
      isPlaying := false;
    }

    /** `reset`: back to the first frame, playing as at mount. */
    method Reset()
      modifies this
      ensures currentFrame == 0 && isPlaying == autoplay
      ensures spriteSheet == old(spriteSheet) && frameCount == old(frameCount)
      ensures loop == old(loop) && autoplay == old(autoplay)
      ensures frameCount > 0 ==> OnSheet()
    {
      currentFrame := 0;
      isPlaying := autoplay;
    }
  }
}
