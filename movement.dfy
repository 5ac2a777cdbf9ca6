/**
  Movement: the player character's rules for firing (a cool-down timer), jumping (grounded,
  jumping and landing flags), and the requests it makes to the animation cross-fade.

  The physics is input here: the downward raycast's hit, the rigid body's vertical velocity
  and the frame time are parameters. Animator parameters are a ghost map of its bools, and
  jump impulses and Move calls are counted.
*/
module CharacterMovement {
  import opened AnimationTransition

  /** The flags and timer the rules act on. */
  datatype MoveState = MoveState(canFire: bool, fireDelayTimer: real, isGrounded: bool, isJump: bool, isLanding: bool)

  /** FireDelay: while firing is blocked, time accumulates until it reaches fireDelay. */
  function FireDelayStep(s: MoveState, fireDelay: real, deltaTime: real): MoveState
  {
    if s.canFire then s
    else
      var timer := s.fireDelayTimer + deltaTime;
      if timer >= fireDelay then s.(canFire := true, fireDelayTimer := 0.0)
      else s.(fireDelayTimer := timer)
  }

  /** Fire: a shot blocks firing; a blocked Fire is ignored. */
  function FireStep(s: MoveState): MoveState
  {
    if !s.canFire then s else s.(canFire := false)
  }

  /** Jump: only on the ground, and the jump flag is raised only when there is an animator. */
  function JumpStep(s: MoveState, hasAnimator: bool): MoveState
  {
    if s.isGrounded && hasAnimator then s.(isJump := true) else s
  }

  /** CheckForIsGrounded: never grounded while jumping, else what the raycast found. */
  function GroundedStep(s: MoveState, rayHit: bool): MoveState
  {
    s.(isGrounded := !s.isJump && rayHit)
  }

  /** CheckIsJump: a jump lasts while the body is not falling faster than 0.01. */
  function JumpCheckStep(s: MoveState, verticalVelocity: real): MoveState
  {
    if !s.isJump then s else s.(isJump := verticalVelocity > -0.01)
  }

  /** The rule part of Update, in the order Update runs it. */
  function Updated(s: MoveState, fireDelay: real, rayHit: bool, deltaTime: real, verticalVelocity: real): MoveState
  {
    JumpCheckStep(FireDelayStep(GroundedStep(s, rayHit), fireDelay, deltaTime), verticalVelocity)
  }

  /** FireDelay once per frame time, in order. */
  function FireDelayAll(s: MoveState, fireDelay: real, deltaTimes: seq<real>): MoveState
    decreases |deltaTimes|
  {
    if deltaTimes == [] then s else FireDelayAll(FireDelayStep(s, fireDelay, deltaTimes[0]), fireDelay, deltaTimes[1..])
  }

  /** The cool-down invariant: the timer runs only while firing is blocked, and stays below fireDelay. */
  predicate CoolingDown(s: MoveState, fireDelay: real)
  {
    && s.fireDelayTimer >= 0.0
    && (s.canFire ==> s.fireDelayTimer == 0.0)
    && (!s.canFire ==> s.fireDelayTimer < fireDelay)
  }

  predicate NonNegative(deltaTimes: seq<real>)
  {
    forall i :: 0 <= i < |deltaTimes| ==> deltaTimes[i] >= 0.0
  }

  /** FireDelay leaves firing blocked only with the timer below fireDelay, and a shot is never released early. */
  lemma FireDelayReleasesAtThreshold(s: MoveState, fireDelay: real, deltaTime: real)
    ensures var r := FireDelayStep(s, fireDelay, deltaTime);
      && (!r.canFire ==> r.fireDelayTimer < fireDelay && r.fireDelayTimer == s.fireDelayTimer + deltaTime)
      && (r.canFire && !s.canFire ==> s.fireDelayTimer + deltaTime >= fireDelay && r.fireDelayTimer == 0.0)
      && (s.canFire ==> r == s)
  {
  }

  /** Fire and FireDelay keep the cool-down invariant for a positive fireDelay and non-negative frame times. */
  lemma CoolDownIsInvariant(s: MoveState, fireDelay: real, deltaTime: real)
    requires CoolingDown(s, fireDelay) && fireDelay > 0.0 && deltaTime >= 0.0
    ensures CoolingDown(FireStep(s), fireDelay)
    ensures CoolingDown(FireDelayStep(s, fireDelay, deltaTime), fireDelay)
  {
  }

  lemma {:induction false} SumNonNegative(xs: seq<real>)
    requires NonNegative(xs)
    ensures Sum(xs) >= 0.0
    decreases |xs|
  {
    if xs != [] {
      SumNonNegative(xs[1..]);
    }
  }

  /**
    After a shot, firing is possible again exactly when the frame times since then add up to
    fireDelay: a blocked state with timer t is released by frames ds if and only if
    t + Sum(ds) >= fireDelay, and a released state has its timer back at 0.
  */
  lemma {:induction false} CoolDownLastsFireDelay(s: MoveState, fireDelay: real, deltaTimes: seq<real>)
    requires !s.canFire && s.fireDelayTimer < fireDelay && NonNegative(deltaTimes)
    ensures var r := FireDelayAll(s, fireDelay, deltaTimes);
      && (r.canFire <==> s.fireDelayTimer + Sum(deltaTimes) >= fireDelay)
      && (r.canFire ==> r.fireDelayTimer == 0.0)
      && (!r.canFire ==> r.fireDelayTimer == s.fireDelayTimer + Sum(deltaTimes))
    decreases |deltaTimes|
  {
    if deltaTimes != [] {
      var next := FireDelayStep(s, fireDelay, deltaTimes[0]);
      assert NonNegative(deltaTimes[1..]);
      assert Sum(deltaTimes) == deltaTimes[0] + Sum(deltaTimes[1..]);
      if next.canFire {
        StaysReleased(next, fireDelay, deltaTimes[1..]);
        SumNonNegative(deltaTimes[1..]);
      } else {
        CoolDownLastsFireDelay(next, fireDelay, deltaTimes[1..]);
      }
    }
  }

  /** Once firing is possible, FireDelay changes nothing. */
  lemma {:induction false} StaysReleased(s: MoveState, fireDelay: real, deltaTimes: seq<real>)
    requires s.canFire
    ensures FireDelayAll(s, fireDelay, deltaTimes) == s
    decreases |deltaTimes|
  {
    if deltaTimes != [] {
      StaysReleased(s, fireDelay, deltaTimes[1..]);
    }
  }

  /**
    No second jump in the air: after a frame in which the character was jumping it is not
    grounded, so a Jump arriving before the next frame is ignored.
  */
  lemma NoJumpWhileAirborne(s: MoveState, fireDelay: real, rayHit: bool, deltaTime: real, verticalVelocity: real, hasAnimator: bool)
    requires s.isJump
    ensures var r := Updated(s, fireDelay, rayHit, deltaTime, verticalVelocity);
      !r.isGrounded && JumpStep(r, hasAnimator) == r
  {
  }

  /** A jump ends only by the body starting to fall; while it lasts the character is not grounded. */
  lemma JumpEndsWhenFalling(s: MoveState, fireDelay: real, rayHit: bool, deltaTime: real, verticalVelocity: real)
    requires s.isJump
    ensures var r := Updated(s, fireDelay, rayHit, deltaTime, verticalVelocity);
      (r.isJump <==> verticalVelocity > -0.01) && r.isGrounded == false && r.isLanding == s.isLanding
  {
  }

  /**
    The request a VFX* helper makes: a change to `target` unless it is already the current
    clip. On the cross-fade's fields, a second request right after the first leaves them as
    the first did; each such request still starts a tween of its own, which is not modelled.
  */
  function Requested(s: AnimState, target: AnimationName, oneShot: bool): AnimState
  {
    if s.current != target then Changed(s, target, oneShot) else s
  }

  lemma RequestIsIdempotent(s: AnimState, target: AnimationName, oneShot: bool)
    ensures Requested(Requested(s, target, oneShot), target, oneShot) == Requested(s, target, oneShot)
    ensures Requested(s, target, oneShot).current == s.current
  {
  }

  class Movement {
    /** The serialized fireDelay field. */
    const fireDelay: real
    /** An Animator is assigned. */
    const hasAnimator: bool
    /** The Animator sits on another game object, so Jump applies the force itself. */
    const animatorOnOtherObject: bool
    /** The player input has a "Move" action. */
    const hasMoveAction: bool

    var canFire: bool
    var fireDelayTimer: real
    var isGrounded: bool
    var isJump: bool
    var isLanding: bool
    var vfxAnimationTransition: VFXAnimationTransition?

    /** The Animator's bool parameters as last set. */
    ghost var animatorBools: map<string, bool>
    /** ApplyJumpForce calls made. */
    ghost var jumpImpulses: nat
    /** Move calls made. */
    ghost var moves: nat

    ghost function State(): MoveState
      reads this
    {
      MoveState(canFire, fireDelayTimer, isGrounded, isJump, isLanding)
    }

    /** The cross-fade component, when present, is in a usable state. */
    ghost predicate Valid()
      reads this, vfxAnimationTransition
    {
      vfxAnimationTransition != null ==> vfxAnimationTransition.Valid()
    }

    /** The cross-fade component, when present, has an entry for `a`; a request for a clip without one throws. */
    ghost predicate CanRequest(a: AnimationName)
      reads this, vfxAnimationTransition
    {
      vfxAnimationTransition != null ==> Covers(vfxAnimationTransition.table, a)
    }

    /** The field initialisers, without the Awake request to the cross-fade (see Awake). */
    constructor (fireDelay: real, hasAnimator: bool, animatorOnOtherObject: bool, hasMoveAction: bool,
                 vfxAnimationTransition: VFXAnimationTransition?)
      ensures this.fireDelay == fireDelay && this.hasAnimator == hasAnimator
      ensures this.animatorOnOtherObject == animatorOnOtherObject && this.hasMoveAction == hasMoveAction
      ensures this.vfxAnimationTransition == vfxAnimationTransition
      ensures State() == MoveState(true, 0.0, false, false, false)
      ensures animatorBools == map[] && jumpImpulses == 0 && moves == 0
    {
      this.fireDelay := fireDelay;
      this.hasAnimator := hasAnimator;
      this.animatorOnOtherObject := animatorOnOtherObject;
      this.hasMoveAction := hasMoveAction;
      this.vfxAnimationTransition := vfxAnimationTransition;
      canFire := true;
      fireDelayTimer := 0.0;
      isGrounded := false;
      isJump := false;
      isLanding := false;
      animatorBools := map[];
      jumpImpulses := 0;
      moves := 0;
    }

    /** Awake: not grounded, and a present cross-fade is asked for Idle immediately. */
    method Awake()
      requires Valid() && CanRequest(Idle)
      modifies this`isGrounded, vfxAnimationTransition
      ensures Valid() && !isGrounded
      ensures vfxAnimationTransition != null ==> vfxAnimationTransition.ChangedBy(Idle, false, 0.0)
    {
      isGrounded := false;
      if vfxAnimationTransition != null {
        vfxAnimationTransition.ChangeAnimation(Idle, 0.0, false);
      }
    }

    /**
      Update: Move runs only when there is a Move action and the character is not landing;
      then grounding, the fire cool-down and the jump check, with their animator bools.
    */
    method Update(rayHit: bool, deltaTime: real, verticalVelocity: real) returns (moved: bool)
      modifies this`canFire, this`fireDelayTimer, this`isGrounded, this`isJump, this`animatorBools, this`moves
      ensures moved <==> hasMoveAction && !isLanding
      ensures moves == old(moves) + (if moved then 1 else 0)
      ensures State() == Updated(old(State()), fireDelay, rayHit, deltaTime, verticalVelocity)
      ensures hasAnimator ==>
                var shooting := if old(canFire) then old(animatorBools) else old(animatorBools)["IsShooting" := !canFire];
                var grounded := shooting["IsGrounded" := isGrounded];
                animatorBools == if old(isJump) then grounded["IsJump" := isJump] else grounded
      ensures !hasAnimator ==> animatorBools == old(animatorBools)
    {
      moved := hasMoveAction && !isLanding;
      if moved {
        moves := moves + 1;
      }
      CheckForIsGrounded(rayHit);
      FireDelay(deltaTime);
      SetAnimatorGrounding();
      CheckIsJump(verticalVelocity);
    }

    /** CheckForIsGrounded: forced false while jumping, else the raycast's result. */
    method CheckForIsGrounded(rayHit: bool)
      modifies this`isGrounded
      ensures State() == GroundedStep(old(State()), rayHit)
    {
      if isJump {
        isGrounded := false;
        return;
      }
      isGrounded := rayHit;
    }

    /** CheckIsJump: a raised jump flag stays raised only while the vertical velocity is above -0.01. */
    method CheckIsJump(verticalVelocity: real)
      modifies this`isJump, this`animatorBools
      ensures State() == JumpCheckStep(old(State()), verticalVelocity)
      ensures !old(isJump) ==> animatorBools == old(animatorBools)
      ensures old(isJump) && hasAnimator ==> animatorBools == old(animatorBools)["IsJump" := isJump]
      ensures !hasAnimator ==> animatorBools == old(animatorBools)
    {
      if !isJump {
        return;
      }
      isJump := verticalVelocity > -0.01;
      if hasAnimator {
        animatorBools := animatorBools["IsJump" := isJump];
      }
    }

    method SetAnimatorGrounding()
      modifies this`animatorBools
      ensures hasAnimator ==> animatorBools == old(animatorBools)["IsGrounded" := isGrounded]
      ensures !hasAnimator ==> animatorBools == old(animatorBools)
    {
      if !hasAnimator {
        return;
      }
      animatorBools := animatorBools["IsGrounded" := isGrounded];
    }

    /** FireDelay: see FireDelayStep; the animator shows whether firing is still blocked. */
    method FireDelay(deltaTime: real)
      modifies this`canFire, this`fireDelayTimer, this`animatorBools
      ensures State() == FireDelayStep(old(State()), fireDelay, deltaTime)
      ensures !canFire ==> fireDelayTimer < fireDelay
      ensures old(canFire) || !hasAnimator ==> animatorBools == old(animatorBools)
      ensures !old(canFire) && hasAnimator ==> animatorBools == old(animatorBools)["IsShooting" := !canFire]
    {
      if canFire {
        return;
      }
      fireDelayTimer := fireDelayTimer + deltaTime;
      if fireDelayTimer >= fireDelay {
        canFire := true;
        fireDelayTimer := 0.0;
      }
      if hasAnimator {
        animatorBools := animatorBools["IsShooting" := !canFire];
      }
    }

    /** Jump: ignored off the ground; with an animator the jump flag is raised and, if it is elsewhere, the force applied. */
    method Jump()
      modifies this`isJump, this`animatorBools, this`jumpImpulses
      ensures State() == JumpStep(old(State()), hasAnimator)
      ensures jumpImpulses == old(jumpImpulses) + (if isGrounded && animatorOnOtherObject then 1 else 0)
      ensures isGrounded && hasAnimator ==> animatorBools == old(animatorBools)["IsJump" := true]
      ensures !(isGrounded && hasAnimator) ==> animatorBools == old(animatorBools)
    {
      if !isGrounded {
        return;
      }
      if hasAnimator {
        isJump := true;
        animatorBools := animatorBools["IsJump" := isJump];
      }
      if animatorOnOtherObject {
        jumpImpulses := jumpImpulses + 1;
      }
    }

    /** Fire: when allowed, request the one-shot Shoot clip and block firing. */
    method Fire() returns (fired: bool)
      requires Valid() && CanRequest(Shoot)
      modifies this`canFire, this`animatorBools, vfxAnimationTransition
      ensures Valid()
      ensures fired <==> old(canFire)
      ensures State() == FireStep(old(State()))
      ensures fired && vfxAnimationTransition != null ==> vfxAnimationTransition.ChangedBy(Shoot, true, 0.1)
      ensures !fired ==> animatorBools == old(animatorBools)
      ensures fired && hasAnimator ==> animatorBools == old(animatorBools)["IsShooting" := true]
      ensures !hasAnimator ==> animatorBools == old(animatorBools)
      ensures !fired && vfxAnimationTransition != null ==> unchanged(vfxAnimationTransition)
    {
      fired := canFire;
      if !canFire {
        return;
      }
      if vfxAnimationTransition != null {
        vfxAnimationTransition.ChangeAnimation(Shoot, 0.1, true);
      }
      canFire := false;
      if hasAnimator {
        animatorBools := animatorBools["IsShooting" := !canFire];
      }
    }

    /**
      The VFX* helpers: request `target` only when it is not the current clip. Only Jump is
      requested as a one-shot.
    */
    method RequestClip(target: AnimationName, lerpTime: real) returns (changed: bool)
      requires Valid() && CanRequest(target) && vfxAnimationTransition != null
      modifies vfxAnimationTransition
      ensures Valid()
      ensures changed <==> old(vfxAnimationTransition.currentAnimation) != target
      ensures vfxAnimationTransition.State() == Requested(old(vfxAnimationTransition.State()), target, target == AnimationName.Jump)
      ensures changed ==> vfxAnimationTransition.ChangedBy(target, target == AnimationName.Jump, lerpTime)
      ensures !changed ==> unchanged(vfxAnimationTransition)
    {
      changed := vfxAnimationTransition.currentAnimation != target;
      if changed {
        vfxAnimationTransition.ChangeAnimation(target, lerpTime, target == AnimationName.Jump);
      }
    }

    method VFXRun(lerpTime: real) returns (changed: bool)
      requires Valid() && CanRequest(Run) && vfxAnimationTransition != null
      modifies vfxAnimationTransition
      ensures Valid()
      ensures changed <==> old(vfxAnimationTransition.currentAnimation) != Run
      ensures vfxAnimationTransition.State() == Requested(old(vfxAnimationTransition.State()), Run, false)
      ensures changed ==> vfxAnimationTransition.ChangedBy(Run, false, lerpTime)
      ensures !changed ==> unchanged(vfxAnimationTransition)
    {
      changed := RequestClip(Run, lerpTime);
    }

    method VFXIdle(lerpTime: real) returns (changed: bool)
      requires Valid() && CanRequest(Idle) && vfxAnimationTransition != null
      modifies vfxAnimationTransition
      ensures Valid()
      ensures changed <==> old(vfxAnimationTransition.currentAnimation) != Idle
      ensures vfxAnimationTransition.State() == Requested(old(vfxAnimationTransition.State()), Idle, false)
      ensures changed ==> vfxAnimationTransition.ChangedBy(Idle, false, lerpTime)
      ensures !changed ==> unchanged(vfxAnimationTransition)
    {
      changed := RequestClip(Idle, lerpTime);
    }

    method VFXJump(lerpTime: real) returns (changed: bool)
      requires Valid() && CanRequest(AnimationName.Jump) && vfxAnimationTransition != null
      modifies vfxAnimationTransition
      ensures Valid()
      ensures changed <==> old(vfxAnimationTransition.currentAnimation) != AnimationName.Jump
      ensures vfxAnimationTransition.State() == Requested(old(vfxAnimationTransition.State()), AnimationName.Jump, true)
      ensures changed ==> vfxAnimationTransition.ChangedBy(AnimationName.Jump, true, lerpTime)
      ensures !changed ==> unchanged(vfxAnimationTransition)
    {
      changed := RequestClip(AnimationName.Jump, lerpTime);
    }

    method VFXFall(lerpTime: real) returns (changed: bool)
      requires Valid() && CanRequest(Fall) && vfxAnimationTransition != null
      modifies vfxAnimationTransition
      ensures Valid()
      ensures changed <==> old(vfxAnimationTransition.currentAnimation) != Fall
      ensures vfxAnimationTransition.State() == Requested(old(vfxAnimationTransition.State()), Fall, false)
      ensures changed ==> vfxAnimationTransition.ChangedBy(Fall, false, lerpTime)
      ensures !changed ==> unchanged(vfxAnimationTransition)
    {
      changed := RequestClip(Fall, lerpTime);
    }

    /** VFXLanding: like the others, and the landing flag is raised only when Land is actually requested. */
    method VFXLanding(lerpTime: real) returns (changed: bool)
      requires Valid() && CanRequest(Land) && vfxAnimationTransition != null
      modifies this`isLanding, vfxAnimationTransition
      ensures Valid()
      ensures changed <==> old(vfxAnimationTransition.currentAnimation) != Land
      ensures isLanding == (changed || old(isLanding))
      ensures vfxAnimationTransition.State() == Requested(old(vfxAnimationTransition.State()), Land, false)
      ensures changed ==> vfxAnimationTransition.ChangedBy(Land, false, lerpTime)
      ensures !changed ==> unchanged(vfxAnimationTransition)
    {
      if vfxAnimationTransition.currentAnimation != Land {
        isLanding := true;
      }
      changed := RequestClip(Land, lerpTime);
    }

    /** IsNotLanding: the landing is over; Idle is requested whatever is playing. */
    method IsNotLanding()
      requires Valid() && CanRequest(Idle) && vfxAnimationTransition != null
      modifies this`isLanding, vfxAnimationTransition
      ensures Valid() && !isLanding
      ensures vfxAnimationTransition.ChangedBy(Idle, false, 0.1)
    {
      isLanding := false;
      vfxAnimationTransition.ChangeAnimation(Idle, 0.1, false);
    }
  }
}
