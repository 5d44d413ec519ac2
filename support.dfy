/** The support behaviour of src/support.go: a healer that follows a
    party member and heals, buffs and resurrects it. Each `Run` reads the
    time once: `now` is a parameter, and every `time.Now` of one run is
    that instant. The movement coordinator is the trace of calls it is
    asked to make, its sleeps included. */
module Support {
  import opened Wrappers
  import Farming

  /** `SupportState` is a Go `int`; these are its eight named values. */
  const NoTarget: int := 0
  const TargetSelected: int := 1
  const Following: int := 2
  const TooFar: int := 3
  const Healing: int := 4
  const Buffing: int := 5
  const SelfBuffing: int := 6
  const Resurrecting: int := 7

  predicate Named(s: int)
  {
    NoTarget <= s <= Resurrecting
  }

  /** `SupportState.String`. */
  function StateName(s: int): string
  {
    if s == NoTarget then "NoTarget"
    else if s == TargetSelected then "TargetSelected"
    else if s == Following then "Following"
    else if s == TooFar then "TooFar"
    else if s == Healing then "Healing"
    else if s == Buffing then "Buffing"
    else if s == SelfBuffing then "SelfBuffing"
    else if s == Resurrecting then "Resurrecting"
    else "Unknown"
  }

  /** Each named state has its own name and every other value is
      "Unknown". */
  lemma StateNameSpec(s: int, t: int)
    ensures StateName(s) == "Unknown" <==> !Named(s)
    ensures Named(s) && Named(t) && s != t ==> StateName(s) != StateName(t)
  {
  }

  /** A call made on a movement coordinator. */
  datatype Call =
    | Press(key: string)
    | Hold(keys: seq<string>)
    | Release(key: string)
    | ReleaseAll(keys: seq<string>)
    | Pause(ms: int)
    | PauseRandom(minMs: int, maxMs: int)
    | Sleep(ms: int)
    | Click(x: int, y: int)
    | Skill(slots: seq<int>)
    | Slot(slot: int)
    | RotateRight(ms: int)

  /** The fields of `Config` the behaviour reads. */
  datatype SupportConfig = SupportConfig(
    inParty: bool,
    healThreshold: int,
    mpThreshold: int,
    fpThreshold: int,
    followDistance: int,
    healSlots: seq<int>,
    aoeHealSlots: seq<int>,
    buffSlots: seq<int>,
    rezSlots: seq<int>,
    partySkillSlots: seq<int>,
    mpRestoreSlots: seq<int>,
    fpRestoreSlots: seq<int>)

  /** What one run reads from the screen: the player's state, the
      target's presence, life and HP bar, the analyser's HP and distance
      estimates for the target, and the player's own HP, MP and FP. */
  datatype Readings = Readings(
    alive: bool,
    targetOnScreen: bool,
    targetAlive: bool,
    targetHP: int,
    detectedTargetHP: int,
    distance: int,
    hp: int,
    mp: int,
    fp: int)

  // ---------------------------------------------------------------------
  // The circle move and its coordinator

  /** `moveCirclePattern`'s calls: run and jump sideways, let go of the
      side key, then of the others, and re-follow. */
  function CircleCalls(dir: string): seq<Call>
  {
    [Hold(["W", "Space", dir]), Pause(100), Release(dir), Pause(500), ReleaseAll(["Space", "W"]), Press("Z")]
  }

  /** The side key alternates between "D" and "A"; anything else becomes
      "D". */
  function Toggle(dir: string): (r: string)
  {
    if dir == "D" then "A" else "D"
  }

  lemma ToggleSpec(dir: string)
    ensures Toggle(dir) == "A" || Toggle(dir) == "D"
    ensures Toggle(dir) != dir
    ensures dir == "A" || dir == "D" ==> Toggle(Toggle(dir)) == dir
  {
  }

  /** A coordinator, which sends keys through its `Action`. */
  datatype Coordinator = Coordinator(hasAction: bool)

  predicate SendsInput(c: Call)
  {
    !(c.Pause? || c.PauseRandom? || c.Sleep?)
  }

  /** What a coordinator does with a list of calls: a coordinator without
      an `Action` dereferences nil at the first call that sends input. */
  function Deliver(co: Coordinator, calls: seq<Call>): Result<seq<Call>>
  {
    if !co.hasAction && exists i :: 0 <= i < |calls| && SendsInput(calls[i]) then Err("nil pointer dereference")
    else Ok(calls)
  }

  /** The coordinator `moveCirclePattern` builds for itself: it copies only
      the screen information, so it has no `Action`. */
  function CircleCoordinatorAsWritten(): Coordinator
  {
    Coordinator(false)
  }

  /** As written, every circle move fails at its first key; through the
      behaviour's own coordinator it is delivered in full. */
  lemma CirclePanicsAsWritten(dir: string)
    ensures Deliver(CircleCoordinatorAsWritten(), CircleCalls(dir)).Err?
    ensures Deliver(Coordinator(true), CircleCalls(dir)) == Ok(CircleCalls(dir))
  {
    assert SendsInput(CircleCalls(dir)[0]);
  }

  // ---------------------------------------------------------------------
  // Range, following and the handlers' decisions

  datatype RangeCheck = RangeCheck(inRange: bool, circle: bool, lastFar: Option<int>, lastDistance: int)

  /** `isTargetInRange`: 9999 means no distance could be measured. */
  function CheckRange(distance: int, maxDistance: int, lastFar: Option<int>, lastDistance: int, now: int): RangeCheck
  {
    if distance == 9999 then RangeCheck(false, true, lastFar, lastDistance)
    else if distance > maxDistance then
      if distance > maxDistance * 2 then RangeCheck(false, true, lastFar, distance)
      else if lastFar.Some? then
        if now - lastFar.value > 3000 && lastDistance < distance then RangeCheck(false, true, Some(now), distance)
        else RangeCheck(false, false, lastFar, distance)
      else RangeCheck(false, false, Some(now), distance)
    else RangeCheck(true, false, None, lastDistance)
  }

  /** In range exactly when a distance was measured and it is at most the
      follow distance, which also forgets when the target was last far.
      Out of range, the time the target was first seen far is kept, and
      the circle move is made when nothing was measured, when the target
      is more than twice the distance away, or when it has drawn away
      after being far for over 3 s. */
  lemma CheckRangeSpec(distance: int, maxDistance: int, lastFar: Option<int>, lastDistance: int, now: int)
    ensures var r := CheckRange(distance, maxDistance, lastFar, lastDistance, now);
      (r.inRange <==> distance != 9999 && distance <= maxDistance) &&
      (r.inRange ==> r.lastFar == None && !r.circle && r.lastDistance == lastDistance) &&
      (!r.inRange && distance != 9999 ==> r.lastDistance == distance) &&
      (distance != 9999 && maxDistance < distance <= maxDistance * 2 ==> r.lastFar.Some?) &&
      (distance == 9999 ==> r.circle && r.lastFar == lastFar && r.lastDistance == lastDistance)
    ensures var r := CheckRange(distance, maxDistance, lastFar, lastDistance, now);
      distance != 9999 && maxDistance < distance <= maxDistance * 2 ==>
        (r.circle <==> lastFar.Some? && now - lastFar.value > 3000 && lastDistance < distance)
    ensures var r := CheckRange(distance, maxDistance, lastFar, lastDistance, now);
      distance != 9999 && distance > maxDistance && distance > maxDistance * 2 ==> r.circle
  {
  }

  /** `onFollowing`'s decision, given the outcome of the range check
      (made only for a live target on screen) and whether the buffs are
      due. */
  function FollowNext(hasTarget: bool, r: Readings, inRange: bool, buffDue: bool, selfBuffDue: bool, cfg: SupportConfig): int
  {
    if !hasTarget then NoTarget
    else if !r.targetAlive then Resurrecting
    else if r.targetOnScreen && !inRange then TooFar
    else if 0 < r.detectedTargetHP < cfg.healThreshold then Healing
    else if buffDue && |cfg.buffSlots| > 0 then Buffing
    else if cfg.inParty && selfBuffDue && |cfg.buffSlots| > 0 then SelfBuffing
    else Following
  }

  /** The checks come in the order target, life, range, HP, buff,
      self-buff: the behaviour keeps following only when all of them
      pass; it heals only a live target in range; it buffs only with buff
      slots. */
  lemma FollowNextSpec(hasTarget: bool, r: Readings, inRange: bool, buffDue: bool, selfBuffDue: bool, cfg: SupportConfig)
    ensures var next := FollowNext(hasTarget, r, inRange, buffDue, selfBuffDue, cfg);
      next == Following <==>
        hasTarget && r.targetAlive && (!r.targetOnScreen || inRange) &&
        !(0 < r.detectedTargetHP < cfg.healThreshold) &&
        (|cfg.buffSlots| == 0 || (!buffDue && !(cfg.inParty && selfBuffDue)))
    ensures var next := FollowNext(hasTarget, r, inRange, buffDue, selfBuffDue, cfg);
      next == Healing ==> hasTarget && r.targetAlive && (!r.targetOnScreen || inRange) && 0 < r.detectedTargetHP < cfg.healThreshold
    ensures var next := FollowNext(hasTarget, r, inRange, buffDue, selfBuffDue, cfg);
      (next == Buffing || next == SelfBuffing) ==> |cfg.buffSlots| > 0 && !(0 < r.detectedTargetHP < cfg.healThreshold)
    ensures var next := FollowNext(hasTarget, r, inRange, buffDue, selfBuffDue, cfg);
      next == SelfBuffing ==> cfg.inParty && selfBuffDue && !buffDue
    ensures var next := FollowNext(hasTarget, r, inRange, buffDue, selfBuffDue, cfg);
      Named(next) && next != TargetSelected
  {
  }

  /** One buffing call: the flag, the counter, and whether buffing is
      over. A call that finds the flag down starts over from 0. */
  function BuffStep(active: bool, counter: int, n: int): (bool, int, bool)
  {
    var c := if active then counter else 0;
    if n > 0 then (if c + 1 >= n then (false, c + 1, true) else (true, c + 1, false))
    else (false, c, true)
  }

  /** The state after `k` buffing calls, starting with the flag down. */
  function BuffRun(counter: int, n: int, k: nat): (bool, int, bool)
  {
    if k == 0 then (false, counter, false)
    else
      var before := BuffRun(counter, n, k - 1);
      BuffStep(before.0, before.1, n)
  }

  /** With `n` buff slots, a buffing round takes exactly `n` calls, one
      per slot: after `k` of them the counter is `k` and the round is over
      exactly when `k == n`. Without slots the first call ends it. */
  lemma {:induction false} BuffRunSpec(counter: int, n: int, k: nat)
    requires 1 <= k <= n
    ensures BuffRun(counter, n, k) == (k < n, k, k == n)
  {
    if k > 1 {
      BuffRunSpec(counter, n, k - 1);
    }
  }

  lemma BuffStepEmpty(active: bool, counter: int)
    ensures BuffStep(active, counter, 0).2 && !BuffStep(active, counter, 0).0
  {
  }

  /** `onResurrecting`'s decision: the next state and whether a revive is
      awaited afterwards. */
  function ResurrectNext(hasTarget: bool, targetAlive: bool, waiting: bool, targetHP: int): (int, bool)
  {
    if hasTarget && !targetAlive then
      if waiting then (if targetHP > 0 then (Following, false) else (Resurrecting, true))
      else (Resurrecting, true)
    else (Following, false)
  }

  /** The behaviour follows again exactly when there is no dead target or
      the awaited target shows HP; it leaves no revive awaited when it
      does, and it awaits one whenever it stays. */
  lemma ResurrectNextSpec(hasTarget: bool, targetAlive: bool, waiting: bool, targetHP: int)
    ensures var (next, w) := ResurrectNext(hasTarget, targetAlive, waiting, targetHP);
      (next == Following <==> !(hasTarget && !targetAlive) || (waiting && targetHP > 0)) &&
      (next == Following ==> !w) && (next == Resurrecting ==> w) &&
      (next == Following || next == Resurrecting)
  {
  }

  // ---------------------------------------------------------------------
  // Coordinator call lists

  /** `selectPartyLeader`: open the party window, click the leader, follow,
      close it. */
  function LeaderCalls(): seq<Call>
  {
    [Press("P"), Sleep(150), Click(213, 440), Press("Z"), Pause(10), Press("P"), Sleep(500)]
  }

  /** `loseTarget` with a target. */
  function LoseTargetCalls(): seq<Call>
  {
    [Press("Escape"), PauseRandom(200, 250)]
  }

  /** Three area heals 100 ms apart. */
  function AoeCalls(slots: seq<int>): seq<Call>
  {
    [Skill(slots), Sleep(100), Skill(slots), Sleep(100), Skill(slots)]
  }

  /** `usePartySkills`: one slot call per party skill. */
  function PartyCalls(slots: seq<int>): (r: seq<Call>)
    ensures |r| == |slots|
    ensures forall i :: 0 <= i < |slots| ==> r[i] == Slot(slots[i])
  {
    if |slots| == 0 then [] else PartyCalls(slots[..|slots| - 1]) + [Slot(slots[|slots| - 1])]
  }

  /** The HP part of `checkSelfRestorations`. */
  function SelfHealCalls(r: Readings, cfg: SupportConfig, hasTarget: bool): seq<Call>
  {
    if r.hp < cfg.healThreshold && |cfg.healSlots| > 0 then
      if cfg.inParty && hasTarget then LoseTargetCalls() + [Skill(cfg.healSlots)]
      else [Skill(cfg.healSlots), Sleep(500)]
    else if r.hp < cfg.healThreshold && |cfg.aoeHealSlots| > 0 then AoeCalls(cfg.aoeHealSlots)
    else []
  }

  /** The MP and FP part of `checkSelfRestorations`. */
  function SelfRestoreCalls(r: Readings, cfg: SupportConfig): seq<Call>
  {
    (if r.mp < cfg.mpThreshold && |cfg.mpRestoreSlots| > 0 then [Skill(cfg.mpRestoreSlots), Sleep(300)] else [])
    + (if r.fp < cfg.fpThreshold && |cfg.fpRestoreSlots| > 0 then [Skill(cfg.fpRestoreSlots), Sleep(300)] else [])
  }

  /** The behaviour heals itself with its heal slots before trying area
      heals, uses area heals only when it has no heal slots, and leaves
      its target to self-heal only in a party. */
  lemma SelfHealSpec(r: Readings, cfg: SupportConfig, hasTarget: bool)
    ensures r.hp >= cfg.healThreshold ==> SelfHealCalls(r, cfg, hasTarget) == []
    ensures r.hp < cfg.healThreshold && |cfg.healSlots| > 0 ==> Skill(cfg.healSlots) in SelfHealCalls(r, cfg, hasTarget)
    ensures Skill(cfg.aoeHealSlots) in SelfHealCalls(r, cfg, hasTarget) && cfg.aoeHealSlots != cfg.healSlots ==>
      |cfg.healSlots| == 0
    ensures Press("Escape") in SelfHealCalls(r, cfg, hasTarget) ==> cfg.inParty && hasTarget
  {
  }

  /** The fields of a `SupportBehavior` as a value: what a handler does
      is stated between the fields before (`b`) and after (`a`). */
  datatype Memory = Memory(state: int, hasTarget: bool, lastTargetDistance: int, lastJumpTime: int,
                           lastFarFromTarget: Option<int>, lastBuffTime: int, lastSelfBuffTime: int,
                           waitDuration: Option<int>, waitStart: int, selfBuffing: bool, targetBuffing: bool,
                           buffCounter: int, isWaitingForRevive: bool, avoidObstacleDirection: string, calls: seq<Call>)

  /** `b` with a wait of `duration` ms added at `now`. */
  function WaitAdded(b: Memory, duration: int, now: int): (a: Memory)
    ensures a.waitDuration.Some? && a.calls == b.calls && a.state == b.state && a.hasTarget == b.hasTarget
  {
    var (d, start) := Farming.Waited(b.waitDuration, b.waitStart, duration, now);
    b.(waitDuration := d, waitStart := start)
  }

  /** Two waits added at the same time are one wait of their sum. */
  lemma WaitsAdd(b: Memory, x: int, y: int, now: int)
    ensures WaitAdded(WaitAdded(b, x, now), y, now) == WaitAdded(b, x + y, now)
  {
  }

  /** `onNoTarget`: in a party, select the leader and wait 500 ms. */
  predicate NoTargetStep(b: Memory, a: Memory, next: int, cfg: SupportConfig, now: int)
  {
    next == (if cfg.inParty then TargetSelected else NoTarget) &&
    a == if cfg.inParty then WaitAdded(b, 500, now).(calls := b.calls + LeaderCalls()) else b
  }

  /** `onFollowing`: the range is checked (with its circle move) only for
      a live target on screen, then the next state is `FollowNext`, and
      the target is followed when the state stays Following. */
  predicate FollowingStep(b: Memory, a: Memory, next: int, r: Readings, cfg: SupportConfig, now: int)
  {
    var checked := b.hasTarget && r.targetAlive && r.targetOnScreen;
    var rc := CheckRange(r.distance, cfg.followDistance, b.lastFarFromTarget, b.lastTargetDistance, now);
    var circle := checked && rc.circle;
    next == FollowNext(b.hasTarget, r, checked ==> rc.inRange, now - b.lastBuffTime > 30000,
                       now - b.lastSelfBuffTime > 60000, cfg) &&
    a == b.(lastFarFromTarget := if checked then rc.lastFar else b.lastFarFromTarget,
            lastTargetDistance := if checked then rc.lastDistance else b.lastTargetDistance,
            avoidObstacleDirection := if circle then Toggle(b.avoidObstacleDirection) else b.avoidObstacleDirection,
            calls := b.calls + (if circle then CircleCalls(b.avoidObstacleDirection) else []) +
              (if next == Following then [Press("Z")] else []))
  }

  /** `onTooFar`: follow, and go back to following once in range. */
  predicate TooFarStep(b: Memory, a: Memory, next: int, r: Readings, cfg: SupportConfig, now: int)
  {
    var rc := CheckRange(r.distance, cfg.followDistance, b.lastFarFromTarget, b.lastTargetDistance, now);
    next == (if rc.inRange then Following else TooFar) &&
    a == b.(lastFarFromTarget := rc.lastFar, lastTargetDistance := rc.lastDistance,
            avoidObstacleDirection := if rc.circle then Toggle(b.avoidObstacleDirection) else b.avoidObstacleDirection,
            calls := b.calls + (if b.hasTarget then [Press("Z")] else []) +
              (if rc.circle then CircleCalls(b.avoidObstacleDirection) else []))
  }

  /** `onHealing`: a heal and a 2 s wait, or the area heals and a 100 ms
      wait; then follow again. */
  predicate HealingStep(b: Memory, a: Memory, next: int, cfg: SupportConfig, now: int)
  {
    next == Following &&
    a == if |cfg.healSlots| > 0 then WaitAdded(b, 2000, now).(calls := b.calls + [Skill(cfg.healSlots)])
      else if |cfg.aoeHealSlots| > 0 then WaitAdded(b, 100, now).(calls := b.calls + AoeCalls(cfg.aoeHealSlots))
      else b
  }

  /** `onBuffing`: one buff per call, 2.5 s apart, until every buff slot
      has had its turn. */
  predicate BuffingStep(b: Memory, a: Memory, next: int, cfg: SupportConfig, now: int)
  {
    var (active, counter, done) := BuffStep(b.targetBuffing, b.buffCounter, |cfg.buffSlots|);
    var cast := if |cfg.buffSlots| > 0 then WaitAdded(b, 2500, now).(calls := b.calls + [Skill(cfg.buffSlots)]) else b;
    next == (if done then Following else Buffing) &&
    a == cast.(targetBuffing := active, buffCounter := counter, lastBuffTime := if done then now else b.lastBuffTime)
  }

  /** `onSelfBuffing`: leave the target, then buff as `onBuffing` does;
      once done, go back to selecting the leader. */
  predicate SelfBuffingStep(b: Memory, a: Memory, next: int, cfg: SupportConfig, now: int)
  {
    var (active, counter, done) := BuffStep(b.selfBuffing, b.buffCounter, |cfg.buffSlots|);
    var waited := (if b.hasTarget then 250 else 0) + (if |cfg.buffSlots| > 0 then 2500 else 0);
    var w := if waited > 0 then WaitAdded(b, waited, now) else b;
    next == (if done then NoTarget else SelfBuffing) &&
    a == w.(selfBuffing := active, buffCounter := counter,
            lastSelfBuffTime := if done then now else b.lastSelfBuffTime,
            calls := b.calls + (if b.hasTarget then LoseTargetCalls() else []) +
              (if |cfg.buffSlots| > 0 then [Skill(cfg.buffSlots)] else []))
  }

  /** `onResurrecting`: cast the resurrection once, then wait until the
      target shows HP. */
  predicate ResurrectingStep(b: Memory, a: Memory, next: int, r: Readings, cfg: SupportConfig, now: int)
  {
    var cast := b.hasTarget && !r.targetAlive && !b.isWaitingForRevive && |cfg.rezSlots| > 0;
    var (n, waiting) := ResurrectNext(b.hasTarget, r.targetAlive, b.isWaitingForRevive, r.targetHP);
    var w := if cast then WaitAdded(b, 3000, now).(calls := b.calls + [Skill(cfg.rezSlots)]) else b;
    next == n && a == w.(isWaitingForRevive := waiting)
  }

  /** `runStateMachine`: the current state's handler gives the next
      state; TargetSelected follows a target if there is one, and an
      unknown state falls back to NoTarget, changing nothing. */
  predicate Handled(b: Memory, a: Memory, next: int, r: Readings, cfg: SupportConfig, now: int)
  {
    if b.state == NoTarget then NoTargetStep(b, a, next, cfg, now)
    else if b.state == TargetSelected then next == (if b.hasTarget then Following else NoTarget) && a == b
    else if b.state == Following then FollowingStep(b, a, next, r, cfg, now)
    else if b.state == TooFar then TooFarStep(b, a, next, r, cfg, now)
    else if b.state == Healing then HealingStep(b, a, next, cfg, now)
    else if b.state == Buffing then BuffingStep(b, a, next, cfg, now)
    else if b.state == SelfBuffing then SelfBuffingStep(b, a, next, cfg, now)
    else if b.state == Resurrecting then ResurrectingStep(b, a, next, r, cfg, now)
    else next == NoTarget && a == b
  }

  /** The state graph of the machine: every step lands on a named state,
      only adds calls, and moves only along the edges the handlers name. */
  lemma HandledStates(b: Memory, a: Memory, next: int, r: Readings, cfg: SupportConfig, now: int)
    requires Handled(b, a, next, r, cfg, now)
    ensures Named(next)
    ensures b.calls <= a.calls && a.hasTarget == b.hasTarget
    ensures b.state == TargetSelected ==> next == (if b.hasTarget then Following else NoTarget)
    ensures b.state == NoTarget ==> next == (if cfg.inParty then TargetSelected else NoTarget)
    ensures b.state == Healing || b.state == TooFar ==> next == Following || next == TooFar
    ensures b.state == Buffing ==> next == Following || next == Buffing
    ensures b.state == SelfBuffing ==> next == NoTarget || next == SelfBuffing
    ensures b.state == Resurrecting ==> next == Following || next == Resurrecting
  {
    if b.state == Following {
      var checked := b.hasTarget && r.targetAlive && r.targetOnScreen;
      var rc := CheckRange(r.distance, cfg.followDistance, b.lastFarFromTarget, b.lastTargetDistance, now);
      FollowNextSpec(b.hasTarget, r, checked ==> rc.inRange, now - b.lastBuffTime > 30000,
                     now - b.lastSelfBuffTime > 60000, cfg);
    } else if b.state == Resurrecting {
      ResurrectNextSpec(b.hasTarget, r.targetAlive, b.isWaitingForRevive, r.targetHP);
    }
  }

  /** The camera turn and then one step of the machine, whose result
      becomes the state. */
  predicate Advanced(b: Memory, a: Memory, r: Readings, cfg: SupportConfig, now: int)
  {
    Handled(Turned(b, now), a.(state := b.state), a.state, r, cfg, now)
  }

  /** `randomCameraMovement`: a quarter turn every ten seconds. */
  function Turned(b: Memory, now: int): (c: Memory)
    ensures c.state == b.state && b.calls <= c.calls
  {
    if now - b.lastJumpTime > 10000 then b.(calls := b.calls + [RotateRight(50), Pause(50)], lastJumpTime := now)
    else b
  }

  /** The part of `Run` before the cooldown check: party skills (100 ms of
      wait each), self-restoration (a 2 s wait when it leaves the target
      to heal), and the target flag. */
  predicate Prepared(b: Memory, a: Memory, r: Readings, cfg: SupportConfig, now: int)
  {
    var n := |cfg.partySkillSlots|;
    var w := if n > 0 then Farming.Waited(b.waitDuration, b.waitStart, 100 * n, now) else (b.waitDuration, b.waitStart);
    var lose := r.hp < cfg.healThreshold && |cfg.healSlots| > 0 && cfg.inParty && b.hasTarget;
    var w' := if lose then Farming.Waited(w.0, w.1, 2000, now) else w;
    a == b.(hasTarget := r.targetOnScreen,
            calls := b.calls + PartyCalls(cfg.partySkillSlots) + SelfHealCalls(r, cfg, b.hasTarget) + SelfRestoreCalls(r, cfg),
            waitDuration := w'.0, waitStart := w'.1)
  }

  /** What one `Run` promises once the player is alive: the target flag
      follows the screen, the party skills are cast first, a fresh party
      cast starts a wait, and a selected target is followed exactly when
      there is one. */
  lemma PreparedAdvanced(b: Memory, p: Memory, a: Memory, r: Readings, cfg: SupportConfig, now: int)
    requires Prepared(b, p, r, cfg, now)
    requires Advanced(p, a, r, cfg, now)
    ensures a.hasTarget == r.targetOnScreen
    ensures b.calls + PartyCalls(cfg.partySkillSlots) <= p.calls <= a.calls
    ensures b.waitDuration == None && |cfg.partySkillSlots| > 0 ==>
      p.waitDuration.Some? && p.waitDuration.value >= 100 * |cfg.partySkillSlots| && p.waitStart == now
    ensures b.state == TargetSelected ==> a.state == (if r.targetOnScreen then Following else NoTarget)
    ensures Named(a.state)
  {
    HandledStates(Turned(p, now), a.(state := p.state), a.state, r, cfg, now);
  }

  class SupportBehavior {
    var state: int
    var hasTarget: bool
    var lastTargetDistance: int
    var lastJumpTime: int
    /** `lastFarFromTarget`, None for nil. */
    var lastFarFromTarget: Option<int>
    var lastBuffTime: int
    var lastSelfBuffTime: int
    /** `waitDuration` (None for nil) and `waitStart`, in ms. */
    var waitDuration: Option<int>
    var waitStart: int
    var selfBuffing: bool
    var targetBuffing: bool
    var buffCounter: int
    var isWaitingForRevive: bool
    var avoidObstacleDirection: string
    /** The calls made on the movement coordinator so far. */
    var calls: seq<Call>

    /** `NewSupportBehavior`: no target, the timers started now, the side
        key "D". */
    constructor (now: int)
      ensures state == NoTarget && !hasTarget && lastTargetDistance == 0
      ensures lastJumpTime == now && lastFarFromTarget == None && lastBuffTime == now && lastSelfBuffTime == now
      ensures waitDuration == None && waitStart == 0 && !selfBuffing && !targetBuffing && buffCounter == 0
      ensures !isWaitingForRevive && avoidObstacleDirection == "D" && calls == []
    {
      state := NoTarget;
      hasTarget := false;
      lastTargetDistance := 0;
      lastJumpTime := now;
      lastFarFromTarget := None;
      lastBuffTime := now;
      lastSelfBuffTime := now;
      waitDuration := None;
      waitStart := 0;
      selfBuffing := false;
      targetBuffing := false;
      buffCounter := 0;
      isWaitingForRevive := false;
      avoidObstacleDirection := "D";
      calls := [];
    }

    function Memo(): Memory
      reads this
    {
      Memory(state, hasTarget, lastTargetDistance, lastJumpTime, lastFarFromTarget, lastBuffTime, lastSelfBuffTime,
             waitDuration, waitStart, selfBuffing, targetBuffing, buffCounter, isWaitingForRevive,
             avoidObstacleDirection, calls)
    }

    /** `GetState`. */
    function GetState(): (name: string)
      reads this
      ensures name == "Unknown" <==> !Named(state)
    {
      StateNameSpec(state, state);
      StateName(state)
    }

    /** `wait`: lengthen a pending wait, or start one now. */
    method Wait(duration: int, now: int)
      modifies this`waitDuration, this`waitStart
      ensures (waitDuration, waitStart) == Farming.Waited(old(waitDuration), old(waitStart), duration, now)
      ensures Memo() == WaitAdded(old(Memo()), duration, now)
    {
      if waitDuration.Some? {
        waitDuration := Some(waitDuration.value + duration);
      } else {
        waitStart := now;
        waitDuration := Some(duration);
      }
    }

    /** `waitCooldown`: true while a pending wait runs; a finished one is
        cleared. */
    method WaitCooldown(now: int) returns (waiting: bool)
      modifies this`waitDuration
      ensures (waiting, waitDuration) == Farming.Cooldown(old(waitDuration), waitStart, now)
    {
      if waitDuration.Some? {
        if now - waitStart < waitDuration.value {
          return true;
        }
        waitDuration := None;
      }
      return false;
    }

    /** `moveCirclePattern`, made through the behaviour's coordinator: the
        circle move, then the other side key next time. */
    method MoveCirclePattern()
      modifies this`calls, this`avoidObstacleDirection
      ensures calls == old(calls) + CircleCalls(old(avoidObstacleDirection))
      ensures avoidObstacleDirection == Toggle(old(avoidObstacleDirection))
    {
      calls := calls + CircleCalls(avoidObstacleDirection);
      if avoidObstacleDirection == "D" {
        avoidObstacleDirection := "A";
      } else {
        avoidObstacleDirection := "D";
      }
    }

    /** `isTargetInRange`. */
    method IsTargetInRange(distance: int, cfg: SupportConfig, now: int) returns (inRange: bool)
      modifies this`calls, this`avoidObstacleDirection, this`lastFarFromTarget, this`lastTargetDistance
      ensures var r := CheckRange(distance, cfg.followDistance, old(lastFarFromTarget), old(lastTargetDistance), now);
        inRange == r.inRange && lastFarFromTarget == r.lastFar && lastTargetDistance == r.lastDistance &&
        calls == old(calls) + (if r.circle then CircleCalls(old(avoidObstacleDirection)) else []) &&
        avoidObstacleDirection == (if r.circle then Toggle(old(avoidObstacleDirection)) else old(avoidObstacleDirection))
    {
      if distance == 9999 {
        MoveCirclePattern();
        return false;
      }
      var maxDistance := cfg.followDistance;
      if distance > maxDistance {
        if distance > maxDistance * 2 {
          MoveCirclePattern();
        } else {
          if lastFarFromTarget.Some? {
            if now - lastFarFromTarget.value > 3000 && lastTargetDistance < distance {
              lastFarFromTarget := Some(now);
              MoveCirclePattern();
            }
          } else {
            lastFarFromTarget := Some(now);
          }
        }
        lastTargetDistance := distance;
        return false;
      }
      lastFarFromTarget := None;
      return true;
    }

    /** `followTarget`. */
    method FollowTarget()
      modifies this`calls
      ensures calls == old(calls) + (if hasTarget then [Press("Z")] else [])
    {
      if hasTarget {
        calls := calls + [Press("Z")];
      }
    }

    /** `onNoTarget`: in a party, select the leader and wait 500 ms. */
    method OnNoTarget(cfg: SupportConfig, now: int) returns (next: int)
      modifies this`calls, this`waitDuration, this`waitStart
      ensures NoTargetStep(old(Memo()), Memo(), next, cfg, now)
    {
      if cfg.inParty {
        calls := calls + LeaderCalls();
        Wait(500, now);
        return TargetSelected;
      }
      return NoTarget;
    }

    /** `onFollowing`. */
    method OnFollowing(r: Readings, cfg: SupportConfig, now: int) returns (next: int)
      modifies this`calls, this`avoidObstacleDirection, this`lastFarFromTarget, this`lastTargetDistance
      ensures FollowingStep(old(Memo()), Memo(), next, r, cfg, now)
    {
      if !hasTarget {
        return NoTarget;
      }
      if !r.targetAlive {
        return Resurrecting;
      }
      if r.targetOnScreen {
        var inRange := IsTargetInRange(r.distance, cfg, now);
        if !inRange {
          return TooFar;
        }
      }
      if 0 < r.detectedTargetHP < cfg.healThreshold {
        return Healing;
      }
      if now - lastBuffTime > 30000 && |cfg.buffSlots| > 0 {
        return Buffing;
      }
      if cfg.inParty && now - lastSelfBuffTime > 60000 && |cfg.buffSlots| > 0 {
        return SelfBuffing;
      }
      FollowTarget();
      return Following;
    }

    /** `onTooFar`: follow, and go back to following once in range. */
    method OnTooFar(r: Readings, cfg: SupportConfig, now: int) returns (next: int)
      modifies this`calls, this`avoidObstacleDirection, this`lastFarFromTarget, this`lastTargetDistance
      ensures TooFarStep(old(Memo()), Memo(), next, r, cfg, now)
    {
      FollowTarget();
      var inRange := IsTargetInRange(r.distance, cfg, now);
      if inRange {
        return Following;
      }
      return TooFar;
    }

    /** `onHealing`: a heal and a 2 s wait, or three area heals and a
        100 ms wait; then follow again. */
    method OnHealing(cfg: SupportConfig, now: int) returns (next: int)
      modifies this`calls, this`waitDuration, this`waitStart
      ensures HealingStep(old(Memo()), Memo(), next, cfg, now)
    {
      if |cfg.healSlots| > 0 {
        calls := calls + [Skill(cfg.healSlots)];
        Wait(2000, now);
      } else if |cfg.aoeHealSlots| > 0 {
        calls := calls + AoeCalls(cfg.aoeHealSlots);
        Wait(100, now);
      }
      return Following;
    }

    /** `onBuffing`: one buff per call, 2.5 s apart, until every buff slot
        has had its turn. */
    method OnBuffing(cfg: SupportConfig, now: int) returns (next: int)
      modifies this`calls, this`waitDuration, this`waitStart, this`targetBuffing, this`buffCounter, this`lastBuffTime
      ensures BuffingStep(old(Memo()), Memo(), next, cfg, now)
    {
      if !targetBuffing {
        targetBuffing := true;
        buffCounter := 0;
      }
      if |cfg.buffSlots| > 0 {
        calls := calls + [Skill(cfg.buffSlots)];
        buffCounter := buffCounter + 1;
        Wait(2500, now);
        if buffCounter >= |cfg.buffSlots| {
          targetBuffing := false;
          lastBuffTime := now;
          return Following;
        }
      } else {
        targetBuffing := false;
        lastBuffTime := now;
        return Following;
      }
      return Buffing;
    }

    /** `onSelfBuffing`: leave the target, then buff as `onBuffing` does;
        once done, go back to selecting the leader. */
    method OnSelfBuffing(cfg: SupportConfig, now: int) returns (next: int)
      modifies this`calls, this`waitDuration, this`waitStart, this`selfBuffing, this`buffCounter, this`lastSelfBuffTime
      ensures SelfBuffingStep(old(Memo()), Memo(), next, cfg, now)
    {
      if !selfBuffing {
        selfBuffing := true;
        buffCounter := 0;
      }
      ghost var m := Memo();
      if hasTarget {
        calls := calls + LoseTargetCalls();
        Wait(250, now);
      }
      if |cfg.buffSlots| > 0 {
        calls := calls + [Skill(cfg.buffSlots)];
        buffCounter := buffCounter + 1;
        Wait(2500, now);
        WaitsAdd(m, 250, 2500, now);
        if buffCounter >= |cfg.buffSlots| {
          selfBuffing := false;
          lastSelfBuffTime := now;
          return NoTarget;
        }
      } else {
        selfBuffing := false;
        lastSelfBuffTime := now;
        return NoTarget;
      }
      return SelfBuffing;
    }

    /** `onResurrecting`: cast the resurrection once, then wait until the
        target shows HP. */
    method OnResurrecting(r: Readings, cfg: SupportConfig, now: int) returns (next: int)
      modifies this`calls, this`waitDuration, this`waitStart, this`isWaitingForRevive
      ensures ResurrectingStep(old(Memo()), Memo(), next, r, cfg, now)
    {
      if hasTarget && !r.targetAlive {
        if isWaitingForRevive {
          if r.targetHP > 0 {
            isWaitingForRevive := false;
            return Following;
          }
          return Resurrecting;
        } else {
          if |cfg.rezSlots| > 0 {
            calls := calls + [Skill(cfg.rezSlots)];
            Wait(3000, now);
            isWaitingForRevive := true;
          } else {
            isWaitingForRevive := true;
          }
          return Resurrecting;
        }
      }
      isWaitingForRevive := false;
      return Following;
    }

    /** `runStateMachine`: the current state's handler; an unknown state
        falls back to NoTarget. */
    method RunStateMachine(r: Readings, cfg: SupportConfig, now: int) returns (next: int)
      modifies this`calls, this`waitDuration, this`waitStart, this`avoidObstacleDirection, this`lastFarFromTarget,
        this`lastTargetDistance, this`targetBuffing, this`selfBuffing, this`buffCounter, this`lastBuffTime,
        this`lastSelfBuffTime, this`isWaitingForRevive
      ensures Handled(old(Memo()), Memo(), next, r, cfg, now)
    {
      if state == NoTarget {
        next := OnNoTarget(cfg, now);
      } else if state == TargetSelected {
        next := if hasTarget then Following else NoTarget;
      } else if state == Following {
        ghost var inRange := hasTarget && r.targetAlive && r.targetOnScreen ==>
          CheckRange(r.distance, cfg.followDistance, lastFarFromTarget, lastTargetDistance, now).inRange;
        FollowNextSpec(hasTarget, r, inRange, now - lastBuffTime > 30000, now - lastSelfBuffTime > 60000, cfg);
        next := OnFollowing(r, cfg, now);
      } else if state == TooFar {
        next := OnTooFar(r, cfg, now);
      } else if state == Healing {
        next := OnHealing(cfg, now);
      } else if state == Buffing {
        next := OnBuffing(cfg, now);
      } else if state == SelfBuffing {
        next := OnSelfBuffing(cfg, now);
      } else if state == Resurrecting {
        next := OnResurrecting(r, cfg, now);
      } else {
        next := NoTarget;
      }
    }

    /** `usePartySkills`: every party skill, each adding 100 ms to the
        wait. */
    method UsePartySkills(cfg: SupportConfig, now: int)
      modifies this`calls, this`waitDuration, this`waitStart
      ensures calls == old(calls) + PartyCalls(cfg.partySkillSlots)
      ensures |cfg.partySkillSlots| == 0 ==> waitDuration == old(waitDuration) && waitStart == old(waitStart)
      ensures |cfg.partySkillSlots| > 0 ==>
        (waitDuration, waitStart) == Farming.Waited(old(waitDuration), old(waitStart), 100 * |cfg.partySkillSlots|, now)
    {
      var slots := cfg.partySkillSlots;
      var i := 0;
      while i < |slots|
        invariant 0 <= i <= |slots|
        invariant calls == old(calls) + PartyCalls(slots[..i])
        invariant i == 0 ==> waitDuration == old(waitDuration) && waitStart == old(waitStart)
        invariant i > 0 ==> (waitDuration, waitStart) == Farming.Waited(old(waitDuration), old(waitStart), 100 * i, now)
      {
        assert slots[..i + 1] == slots[..i] + [slots[i]];
        calls := calls + [Slot(slots[i])];
        Wait(100, now);
        i := i + 1;
      }
      assert slots[..i] == slots;
    }

    /** `checkSelfRestorations`. */
    method CheckSelfRestorations(r: Readings, cfg: SupportConfig, now: int)
      modifies this`calls, this`waitDuration, this`waitStart
      ensures calls == old(calls) + SelfHealCalls(r, cfg, hasTarget) + SelfRestoreCalls(r, cfg)
      ensures var lose := r.hp < cfg.healThreshold && |cfg.healSlots| > 0 && cfg.inParty && hasTarget;
        (lose ==> (waitDuration, waitStart) == Farming.Waited(old(waitDuration), old(waitStart), 2000, now)) &&
        (!lose ==> waitDuration == old(waitDuration) && waitStart == old(waitStart))
    {
      ghost var c0 := calls;
      if r.hp < cfg.healThreshold && |cfg.healSlots| > 0 {
        if cfg.inParty && hasTarget {
          calls := calls + LoseTargetCalls() + [Skill(cfg.healSlots)];
          Wait(2000, now);
        } else {
          calls := calls + [Skill(cfg.healSlots), Sleep(500)];
        }
      } else if r.hp < cfg.healThreshold && |cfg.aoeHealSlots| > 0 {
        calls := calls + AoeCalls(cfg.aoeHealSlots);
      }
      assert calls == c0 + SelfHealCalls(r, cfg, hasTarget);
      ghost var c1 := calls;
      if r.mp < cfg.mpThreshold && |cfg.mpRestoreSlots| > 0 {
        calls := calls + [Skill(cfg.mpRestoreSlots), Sleep(300)];
      }
      if r.fp < cfg.fpThreshold && |cfg.fpRestoreSlots| > 0 {
        calls := calls + [Skill(cfg.fpRestoreSlots), Sleep(300)];
      }
      assert calls == c1 + SelfRestoreCalls(r, cfg);
    }

    /** `randomCameraMovement`: a short turn every ten seconds. */
    method RandomCameraMovement(now: int)
      modifies this`calls, this`lastJumpTime
      ensures now - old(lastJumpTime) > 10000 ==> calls == old(calls) + [RotateRight(50), Pause(50)] && lastJumpTime == now
      ensures now - old(lastJumpTime) <= 10000 ==> calls == old(calls) && lastJumpTime == old(lastJumpTime)
    {
      if now - lastJumpTime > 10000 {
        calls := calls + [RotateRight(50), Pause(50)];
        lastJumpTime := now;
      }
    }

    /** The part of `Run` before the cooldown check: party skills,
        self-restoration, and the target flag. */
    method Prepare(r: Readings, cfg: SupportConfig, now: int)
      modifies this`calls, this`waitDuration, this`waitStart, this`hasTarget
      ensures Prepared(old(Memo()), Memo(), r, cfg, now)
    {
      UsePartySkills(cfg, now);
      CheckSelfRestorations(r, cfg, now);
      hasTarget := r.targetOnScreen;
    }

    /** `Run`: nothing while the player is dead; otherwise party skills,
        self-restoration and the target flag, then, unless a wait is
        running, a camera turn and one step of the state machine.
        `prepared` is the behaviour before the cooldown check and
        `waiting` that check's answer. */
    method Run(r: Readings, cfg: SupportConfig, now: int) returns (ghost prepared: Memory, ghost waiting: bool)
      modifies this
      ensures !r.alive ==> Memo() == old(Memo())
      ensures r.alive ==> Prepared(old(Memo()), prepared, r, cfg, now)
      ensures var (w, pending) := Farming.Cooldown(prepared.waitDuration, prepared.waitStart, now);
        r.alive ==> (waiting == w &&
          (w ==> Memo() == prepared) &&
          (!w ==> Advanced(prepared.(waitDuration := pending), Memo(), r, cfg, now)))
    {
      prepared, waiting := Memo(), false;
      if !r.alive {
        return;
      }
      Prepare(r, cfg, now);
      prepared := Memo();
      var w := WaitCooldown(now);
      waiting := w;
      if w {
        return;
      }
      Advance(r, cfg, now);
    }

    /** The part of `Run` after the cooldown check: the camera turn and
        one step of the state machine. */
    method Advance(r: Readings, cfg: SupportConfig, now: int)
      modifies this`calls, this`waitDuration, this`waitStart, this`avoidObstacleDirection, this`lastFarFromTarget,
        this`lastTargetDistance, this`targetBuffing, this`selfBuffing, this`buffCounter, this`lastBuffTime,
        this`lastSelfBuffTime, this`isWaitingForRevive, this`lastJumpTime, this`state
      ensures Advanced(old(Memo()), Memo(), r, cfg, now)
    {
      RandomCameraMovement(now);
      assert Memo() == Turned(old(Memo()), now);
      var next := RunStateMachine(r, cfg, now);
      ghost var handled := Memo();
      state := next;
      assert handled == Memo().(state := old(state));
    }

    /** `Stop`: no target, no buffing, no wait, back to NoTarget. */
    method Stop()
      modifies this`hasTarget, this`selfBuffing, this`targetBuffing, this`waitDuration, this`state
      ensures !hasTarget && !selfBuffing && !targetBuffing && waitDuration == None && state == NoTarget
    {
      hasTarget := false;
      selfBuffing := false;
      targetBuffing := false;
      waitDuration := None;
      state := NoTarget;
    }
  }
}
