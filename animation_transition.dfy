/**
  VFXAnimationTransition: the cross-fade state machine that drives a vertex-animation effect.
  It holds the current, next and previous animation, a one-shot flag, a timer for each of the
  two clips and the lerp value of the cross-fade; each animation's texture, texture dimensions
  and frame count are looked up by its ordinal in three parallel inspector arrays.

  The tween that ChangeAnimation starts (linear, from 0 to 1 over lerpTime) is not a clock
  here: its callbacks StartTransition, UpdateTransition and ChangeCurrentVAT, and its setter
  of transitionLerpValue, are methods the caller invokes in the order the tween would.
*/
module AnimationTransition {
  import opened Engine

  datatype AnimationName = Idle | Shoot | Walk | Run | Jump | Fall | Land

  /** `(int) name`: the enum's declaration order. */
  function Ordinal(a: AnimationName): (n: nat)
    ensures n < 7
  {
    match a
    case Idle => 0
    case Shoot => 1
    case Walk => 2
    case Run => 3
    case Jump => 4
    case Fall => 5
    case Land => 6
  }

  /** The three inspector arrays, indexed by ordinal. */
  datatype VatTable = VatTable(vatArray: seq<TextureRef>, textureDimensionArray: seq<Vec2>, frameCountArray: seq<nat>)

  /** Every array has an entry for the animation, so looking it up does not throw. */
  predicate Covers(table: VatTable, a: AnimationName)
  {
    && Ordinal(a) < |table.vatArray|
    && Ordinal(a) < |table.textureDimensionArray|
    && Ordinal(a) < |table.frameCountArray|
  }

  /** What SetCurrentVAT or SetNextVAT copies out of the arrays. */
  datatype VatSlot = VatSlot(texture: TextureRef, dims: Vec2, frameCount: nat)

  function Lookup(table: VatTable, a: AnimationName): (r: VatSlot)
    requires Covers(table, a)
  {
    var i := Ordinal(a);
    VatSlot(table.vatArray[i], table.textureDimensionArray[i], table.frameCountArray[i])
  }

  /** The arrays as a new component declares them: five null entries each. */
  function DefaultTable(): VatTable
  {
    VatTable(seq(5, _ => NullTexture), seq(5, _ => Vec2(0.0, 0.0)), seq(5, _ => 0))
  }

  /** With the declared length of 5 the arrays cover every animation except Fall and Land. */
  lemma DefaultTableLacksFallAndLand(a: AnimationName)
    ensures Covers(DefaultTable(), a) <==> a != Fall && a != Land
  {
  }

  /** The two slots of the effect: the clip playing and the clip being faded in. */
  datatype Clip = CurrentClip | NextClip

  /** The setter calls of SetCurrentVAT or SetNextVAT. */
  function SlotCalls(clip: Clip, slot: VatSlot): seq<EffectCall>
  {
    match clip
    case CurrentClip =>
      [SetTexture("Current VAT", slot.texture), SetVector2("Current Texture Dims", slot.dims),
       SetUInt("Current Frame Count", slot.frameCount)]
    case NextClip =>
      [SetTexture("Next VAT", slot.texture), SetVector2("Next Texture Dims", slot.dims),
       SetUInt("Next Frame Count", slot.frameCount)]
  }

  /** The animation fields of the component. */
  datatype AnimState = AnimState(
    current: AnimationName, next: AnimationName, previous: AnimationName,
    isOneShot: bool, currentTimer: real, nextTimer: real, lerp: real)

  /** ChangeAnimation's effect on the animation fields. */
  function Changed(s: AnimState, name: AnimationName, oneShot: bool): AnimState
  {
    s.(next := name, isOneShot := oneShot, lerp := 0.0,
       previous := if oneShot && s.current != name then s.current else s.previous)
  }

  /** StartTransition: the next clip starts from its beginning. */
  function Started(s: AnimState): AnimState
  {
    s.(nextTimer := 0.0)
  }

  /** UpdateTransition: the next clip's timer advances by one frame's time. */
  function Advanced(s: AnimState, deltaTime: real): AnimState
  {
    s.(nextTimer := s.nextTimer + deltaTime)
  }

  /** One UpdateTransition per frame time, in order. */
  function AdvancedAll(s: AnimState, deltaTimes: seq<real>): AnimState
    decreases |deltaTimes|
  {
    if deltaTimes == [] then s else AdvancedAll(Advanced(s, deltaTimes[0]), deltaTimes[1..])
  }

  function Sum(xs: seq<real>): real
  {
    if xs == [] then 0.0 else xs[0] + Sum(xs[1..])
  }

  /** ChangeCurrentVAT: the next clip becomes current and keeps its timer; the fade is over. */
  function Completed(s: AnimState): AnimState
  {
    s.(current := s.next, currentTimer := s.nextTimer, nextTimer := 0.0, lerp := 0.0)
  }

  /**
    `timer >= frameCount / fps` in floats. With fps == 0 the quotient is infinite or NaN and
    the comparison is false.
  */
  predicate ClipFinished(timer: real, frameCount: nat, fps: real)
  {
    fps != 0.0 && timer >= frameCount as real / fps
  }

  /** The condition under which Update reverts a finished one-shot clip to the previous animation. */
  predicate RevertDue(s: AnimState, frameCount: nat, fps: real)
  {
    s.isOneShot && ClipFinished(s.currentTimer, frameCount, fps) && s.nextTimer == 0.0 && s.previous != s.current
  }

  /**
    The animation part of Update: the current timer advances, then a finished one-shot clip
    requests its previous animation as a looping change. `frameCount` is the current clip's.
  */
  function Ticked(s: AnimState, frameCount: nat, fps: real, deltaTime: real): AnimState
  {
    var t := s.(currentTimer := s.currentTimer + deltaTime);
    if RevertDue(t, frameCount, fps) then Changed(t, t.previous, false) else t
  }

  /** A change remembers where to return: the old current animation exactly when it is a one-shot to another clip. */
  lemma ChangeKeepsReturnPoint(s: AnimState, name: AnimationName, oneShot: bool)
    ensures var r := Changed(s, name, oneShot);
      && r.next == name && r.isOneShot == oneShot && r.lerp == 0.0
      && (r.previous != s.previous ==> oneShot && s.current != name && r.previous == s.current)
      && (oneShot && s.current != name ==> r.previous == s.current)
      && r.current == s.current && r.currentTimer == s.currentTimer && r.nextTimer == s.nextTimer
  {
  }

  /** The updates of a transition add their frame times to the next clip's timer and touch nothing else. */
  lemma {:induction false} AdvancedAllAdds(s: AnimState, deltaTimes: seq<real>)
    ensures AdvancedAll(s, deltaTimes) == s.(nextTimer := s.nextTimer + Sum(deltaTimes))
    decreases |deltaTimes|
  {
    if deltaTimes != [] {
      AdvancedAllAdds(Advanced(s, deltaTimes[0]), deltaTimes[1..]);
    }
  }

  /** With non-negative frame times the next clip's timer never decreases during a transition. */
  lemma {:induction false} NextTimerNeverDecreases(s: AnimState, deltaTimes: seq<real>)
    requires forall i :: 0 <= i < |deltaTimes| ==> deltaTimes[i] >= 0.0
    ensures AdvancedAll(s, deltaTimes).nextTimer >= s.nextTimer
    decreases |deltaTimes|
  {
    if deltaTimes != [] {
      NextTimerNeverDecreases(Advanced(s, deltaTimes[0]), deltaTimes[1..]);
    }
  }

  /**
    A whole cross-fade (start, one update per frame, completion) makes the requested clip
    current, carries over exactly the time it played during the fade, and leaves no fade
    running; the return point and the one-shot flag are untouched.
  */
  lemma CrossFadeCarriesTimer(s: AnimState, deltaTimes: seq<real>)
    ensures var r := Completed(AdvancedAll(Started(s), deltaTimes));
      && r.current == s.next && r.next == s.next
      && r.currentTimer == Sum(deltaTimes) && r.nextTimer == 0.0 && r.lerp == 0.0
      && r.previous == s.previous && r.isOneShot == s.isOneShot
  {
    AdvancedAllAdds(Started(s), deltaTimes);
  }

  /** A looping clip is never reverted: Update only advances its timer. */
  lemma LoopingClipIsNeverReverted(s: AnimState, frameCount: nat, fps: real, deltaTime: real)
    requires !s.isOneShot
    ensures Ticked(s, frameCount, fps, deltaTime) == s.(currentTimer := s.currentTimer + deltaTime)
  {
  }

  /** The revert itself is a looping change, so it cannot fire again on the next frame. */
  lemma RevertFiresOnce(s: AnimState, frameCount: nat, fps: real, deltaTime: real, frameCount': nat, deltaTime': real)
    requires RevertDue(s.(currentTimer := s.currentTimer + deltaTime), frameCount, fps)
    ensures var r := Ticked(s, frameCount, fps, deltaTime);
      && r.next == s.previous && !r.isOneShot && r.lerp == 0.0
      && !RevertDue(r.(currentTimer := r.currentTimer + deltaTime'), frameCount', fps)
  {
  }

  /**
    The one-shot round trip: from a settled clip `a`, a one-shot change to another clip `b`,
    its cross-fade, and then an Update late enough for `b` to have played out, request `a`
    again as a looping change; once that fade completes `a` is current again.
  */
  lemma {:induction false} OneShotReturnsToPrevious(
    s: AnimState, b: AnimationName, fadeIn: seq<real>, frameCountB: nat, fps: real, deltaTime: real, fadeBack: seq<real>)
    requires s.current != b
    requires fps != 0.0 && Sum(fadeIn) + deltaTime >= frameCountB as real / fps
    ensures var playing := Completed(AdvancedAll(Started(Changed(s, b, true)), fadeIn));
      && playing.current == b && playing.previous == s.current && playing.isOneShot
      && var reverting := Ticked(playing, frameCountB, fps, deltaTime);
      && reverting.next == s.current && !reverting.isOneShot
      && Completed(AdvancedAll(Started(reverting), fadeBack)).current == s.current
  {
    var changed := Changed(s, b, true);
    CrossFadeCarriesTimer(changed, fadeIn);
    var playing := Completed(AdvancedAll(Started(changed), fadeIn));
    assert RevertDue(playing.(currentTimer := playing.currentTimer + deltaTime), frameCountB, fps);
    var reverting := Ticked(playing, frameCountB, fps, deltaTime);
    CrossFadeCarriesTimer(reverting, fadeBack);
  }

  /** Frames during a fade: Update's tick, then the tween's UpdateTransition, once per frame time. */
  function FadeFrames(s: AnimState, frameCount: nat, fps: real, deltaTimes: seq<real>): AnimState
    decreases |deltaTimes|
  {
    if deltaTimes == [] then s
    else FadeFrames(Advanced(Ticked(s, frameCount, fps, deltaTimes[0]), deltaTimes[0]), frameCount, fps, deltaTimes[1..])
  }

  /**
    Once a fade has advanced the next clip's timer, the per-frame Update never reverts,
    however long the current clip has played: both timers just grow by the elapsed time.
  */
  lemma {:induction false} FadeIsNeverReverted(s: AnimState, frameCount: nat, fps: real, deltaTimes: seq<real>)
    requires s.nextTimer > 0.0
    requires forall i :: 0 <= i < |deltaTimes| ==> deltaTimes[i] >= 0.0
    ensures FadeFrames(s, frameCount, fps, deltaTimes)
            == s.(currentTimer := s.currentTimer + Sum(deltaTimes), nextTimer := s.nextTimer + Sum(deltaTimes))
    decreases |deltaTimes|
  {
    if deltaTimes != [] {
      var next := Advanced(Ticked(s, frameCount, fps, deltaTimes[0]), deltaTimes[0]);
      assert next == s.(currentTimer := s.currentTimer + deltaTimes[0], nextTimer := s.nextTimer + deltaTimes[0]);
      FadeIsNeverReverted(next, frameCount, fps, deltaTimes[1..]);
    }
  }

  class VFXAnimationTransition {
    /** vatArray, textureDimensionArray and frameCountArray. */
    const table: VatTable
    /** The serialized fps field. */
    const fps: real

    var currentAnimation: AnimationName
    var nextAnimation: AnimationName
    var previousAnimation: AnimationName
    var oldFps: real
    var currentVAT: TextureRef
    var nextVAT: TextureRef
    var transitionLerpValue: real
    var currentAnimationTimer: real
    var nextAnimationTimer: real
    var currentTextureDims: Vec2
    var nextTextureDims: Vec2
    var currentFrameCount: nat
    var nextFrameCount: nat
    var isOneShot: bool

    /** Setter calls made on the effect, oldest first. */
    ghost var effectLog: seq<EffectCall>
    /** The duration of the tween the last ChangeAnimation started. */
    ghost var requestedLerpTime: real

    ghost function State(): AnimState
      reads this
    {
      AnimState(currentAnimation, nextAnimation, previousAnimation, isOneShot,
                currentAnimationTimer, nextAnimationTimer, transitionLerpValue)
    }

    /**
      Every animation the component can switch to has entries in the arrays, the current slot
      mirrors the current animation, and the timers are not negative.
    */
    ghost predicate Valid()
      reads this
    {
      && Covers(table, currentAnimation) && Covers(table, nextAnimation) && Covers(table, previousAnimation)
      && VatSlot(currentVAT, currentTextureDims, currentFrameCount) == Lookup(table, currentAnimation)
      && currentAnimationTimer >= 0.0 && nextAnimationTimer >= 0.0
    }

    /**
      Everything ChangeAnimation(name, lerpTime, oneShot) leaves behind, against the state
      before it: the change step, the next slot loaded and pushed, the current slot and the
      last pushed fps kept, and a tween of lerpTime requested.
    */
    twostate predicate ChangedBy(name: AnimationName, oneShot: bool, lerpTime: real)
      requires Covers(table, name)
      reads this
    {
      && State() == Changed(old(State()), name, oneShot)
      && VatSlot(nextVAT, nextTextureDims, nextFrameCount) == Lookup(table, name)
      && currentVAT == old(currentVAT) && currentTextureDims == old(currentTextureDims)
      && currentFrameCount == old(currentFrameCount) && oldFps == old(oldFps)
      && effectLog == old(effectLog) + SlotCalls(NextClip, Lookup(table, name))
      && requestedLerpTime == lerpTime
    }

    /** The field initialisers and Start: Idle is current, its slot is pushed, its timer is 0. */
    constructor (table: VatTable, fps: real)
      requires Covers(table, Idle) && Covers(table, Shoot)
      ensures Valid() && this.table == table && this.fps == fps
      ensures State() == AnimState(Idle, Shoot, Idle, false, 0.0, 0.0, 0.0)
      ensures oldFps == 30.0
      ensures effectLog == SlotCalls(CurrentClip, Lookup(table, Idle)) + [SetFloat("Current Animation Timer", 0.0)]
    {
      this.table := table;
      this.fps := fps;
      currentAnimation, nextAnimation, previousAnimation := Idle, Shoot, Idle;
      oldFps := 30.0;
      isOneShot := false;
      transitionLerpValue, currentAnimationTimer, nextAnimationTimer := 0.0, 0.0, 0.0;
      nextVAT, nextTextureDims, nextFrameCount := NullTexture, Vec2(0.0, 0.0), 0;
      var slot := Lookup(table, Idle);
      currentVAT, currentTextureDims, currentFrameCount := slot.texture, slot.dims, slot.frameCount;
      effectLog := SlotCalls(CurrentClip, slot);
      requestedLerpTime := 0.0;
      new;
      currentAnimationTimer := 0.0;
      effectLog := effectLog + [SetFloat("Current Animation Timer", currentAnimationTimer)];
    }

    /** SetCurrentVAT: copy the current animation's entries and push them. */
    method SetCurrentVAT()
      requires Covers(table, currentAnimation)
      modifies this`currentVAT, this`currentTextureDims, this`currentFrameCount, this`effectLog
      ensures VatSlot(currentVAT, currentTextureDims, currentFrameCount) == Lookup(table, currentAnimation)
      ensures effectLog == old(effectLog) + SlotCalls(CurrentClip, Lookup(table, currentAnimation))
    {
      var index := Ordinal(currentAnimation);
      currentVAT := table.vatArray[index];
      currentTextureDims := table.textureDimensionArray[index];
      currentFrameCount := table.frameCountArray[index];
      effectLog := effectLog + [SetTexture("Current VAT", currentVAT)];
      effectLog := effectLog + [SetVector2("Current Texture Dims", currentTextureDims)];
      effectLog := effectLog + [SetUInt("Current Frame Count", currentFrameCount)];
    }

    /** SetNextVAT: copy the next animation's entries and push them. */
    method SetNextVAT()
      requires Covers(table, nextAnimation)
      modifies this`nextVAT, this`nextTextureDims, this`nextFrameCount, this`effectLog
      ensures VatSlot(nextVAT, nextTextureDims, nextFrameCount) == Lookup(table, nextAnimation)
      ensures effectLog == old(effectLog) + SlotCalls(NextClip, Lookup(table, nextAnimation))
    {
      var index := Ordinal(nextAnimation);
      nextVAT := table.vatArray[index];
      nextTextureDims := table.textureDimensionArray[index];
      nextFrameCount := table.frameCountArray[index];
      effectLog := effectLog + [SetTexture("Next VAT", nextVAT)];
      effectLog := effectLog + [SetVector2("Next Texture Dims", nextTextureDims)];
      effectLog := effectLog + [SetUInt("Next Frame Count", nextFrameCount)];
    }

    /**
      ChangeAnimation: request `nextAnimationName`, push its slot, restart the fade value and,
      for a one-shot to another clip, remember the current clip to return to. The tween of
      length `lerpTime` then drives the remaining steps.
    */
    method ChangeAnimation(nextAnimationName: AnimationName, lerpTime: real, isOneShot: bool)
      requires Valid() && Covers(table, nextAnimationName)
      modifies this
      ensures Valid()
      ensures State() == Changed(old(State()), nextAnimationName, isOneShot)
      ensures VatSlot(nextVAT, nextTextureDims, nextFrameCount) == Lookup(table, nextAnimationName)
      ensures currentVAT == old(currentVAT) && currentTextureDims == old(currentTextureDims)
      ensures currentFrameCount == old(currentFrameCount) && oldFps == old(oldFps)
      ensures effectLog == old(effectLog) + SlotCalls(NextClip, Lookup(table, nextAnimationName))
      ensures requestedLerpTime == lerpTime
    {
      this.isOneShot := isOneShot;
      nextAnimation := nextAnimationName;
      SetNextVAT();
      transitionLerpValue := 0.0;
      if isOneShot && currentAnimation != nextAnimation {
        previousAnimation := currentAnimation;
      }
      requestedLerpTime := lerpTime;
    }

    /** The tween's setter: transitionLerpValue takes the eased value of this frame. */
    method TweenSetLerp(x: real)
      modifies this`transitionLerpValue
      ensures transitionLerpValue == x
    {
      transitionLerpValue := x;
    }

    /** StartTransition: the next clip starts from its beginning. */
    method StartTransition()
      requires Valid()
      modifies this`nextAnimationTimer, this`effectLog
      ensures Valid()
      ensures State() == Started(old(State()))
      ensures effectLog == old(effectLog) + [SetFloat("Next Animation Timer", 0.0)]
    {
      nextAnimationTimer := 0.0;
      effectLog := effectLog + [SetFloat("Next Animation Timer", nextAnimationTimer)];
    }

    /** UpdateTransition: the next clip's timer advances by the frame time; timer and fade value are pushed. */
    method UpdateTransition(deltaTime: real)
      requires Valid() && deltaTime >= 0.0
      modifies this`nextAnimationTimer, this`effectLog
      ensures Valid()
      ensures State() == Advanced(old(State()), deltaTime)
      ensures nextAnimationTimer >= old(nextAnimationTimer)
      ensures effectLog == old(effectLog) + [SetFloat("Next Animation Timer", nextAnimationTimer),
                                             SetFloat("Transition Lerp Value", transitionLerpValue)]
    {
      nextAnimationTimer := nextAnimationTimer + deltaTime;
      effectLog := effectLog + [SetFloat("Next Animation Timer", nextAnimationTimer)];
      effectLog := effectLog + [SetFloat("Transition Lerp Value", transitionLerpValue)];
    }

    /** ChangeCurrentVAT: complete the fade; the next clip becomes current with its timer. */
    method ChangeCurrentVAT()
      requires Valid()
      modifies this
      ensures Valid()
      ensures State() == Completed(old(State()))
      ensures nextVAT == old(nextVAT) && nextTextureDims == old(nextTextureDims) && nextFrameCount == old(nextFrameCount)
      ensures oldFps == old(oldFps) && requestedLerpTime == old(requestedLerpTime)
      ensures effectLog == old(effectLog)
                + [SetFloat("Transition Lerp Value", 0.0),
                   SetFloat("Current Animation Timer", old(nextAnimationTimer)),
                   SetFloat("Next Animation Timer", 0.0)]
                + SlotCalls(CurrentClip, Lookup(table, old(nextAnimation)))
    {
      currentAnimationTimer := nextAnimationTimer;
      nextAnimationTimer := 0.0;
      transitionLerpValue := 0.0;
      UpdateVFXParameters();
      currentAnimation := nextAnimation;
      SetCurrentVAT();
    }

    /** UpdateVFXParameters: push the fade value and both timers. */
    method UpdateVFXParameters()
      modifies this`effectLog
      ensures effectLog == old(effectLog)
                + [SetFloat("Transition Lerp Value", transitionLerpValue),
                   SetFloat("Current Animation Timer", currentAnimationTimer),
                   SetFloat("Next Animation Timer", nextAnimationTimer)]
    {
      effectLog := effectLog + [SetFloat("Transition Lerp Value", transitionLerpValue)];
      effectLog := effectLog + [SetFloat("Current Animation Timer", currentAnimationTimer)];
      effectLog := effectLog + [SetFloat("Next Animation Timer", nextAnimationTimer)];
    }

    /**
      Update without the test toggles: push fps when it changed, advance the current clip's
      timer, and revert a finished one-shot clip to the previous animation with a 0.1 fade.
    */
    method Update(deltaTime: real) returns (reverted: bool)
      requires Valid() && deltaTime >= 0.0
      modifies this
      ensures Valid()
      ensures oldFps == fps
      ensures reverted <==> RevertDue(old(State()).(currentTimer := old(currentAnimationTimer) + deltaTime), old(currentFrameCount), fps)
      ensures State() == Ticked(old(State()), old(currentFrameCount), fps, deltaTime)
      ensures currentVAT == old(currentVAT) && currentTextureDims == old(currentTextureDims) && currentFrameCount == old(currentFrameCount)
      ensures reverted ==> requestedLerpTime == 0.1
      ensures reverted ==> VatSlot(nextVAT, nextTextureDims, nextFrameCount) == Lookup(table, old(previousAnimation))
      ensures !reverted ==> nextVAT == old(nextVAT) && nextTextureDims == old(nextTextureDims) && nextFrameCount == old(nextFrameCount)
      ensures !reverted ==> requestedLerpTime == old(requestedLerpTime)
      ensures var pushed := (if old(oldFps) != fps then [SetFloat("FPS", fps)] else [])
                            + [SetFloat("Current Animation Timer", old(currentAnimationTimer) + deltaTime)];
              effectLog == old(effectLog) + pushed + (if reverted then SlotCalls(NextClip, Lookup(table, previousAnimation)) else [])
    {
      if oldFps != fps {
        effectLog := effectLog + [SetFloat("FPS", fps)];
        oldFps := fps;
      }
      currentAnimationTimer := currentAnimationTimer + deltaTime;
      effectLog := effectLog + [SetFloat("Current Animation Timer", currentAnimationTimer)];
      reverted := isOneShot && ClipFinished(currentAnimationTimer, currentFrameCount, fps)
                  && nextAnimationTimer == 0.0 && previousAnimation != currentAnimation;
      if reverted {
        ChangeAnimation(previousAnimation, 0.1, false);
      }
    }
  }
}
