/** The stage machine of src/farming.go, run on a millisecond clock that
    only `time.Sleep` and the main loop move: restoration, the attack with
    its lost-target counter and obstacle handling, the search with its
    rotation sweep, the pickup after a kill, the blocking reconnection and
    initialisation sequences, and one iteration of `Start`. */
module SrcFarming {
  import opened Wrappers
  import opened FarmStages

  /** The random draws one search step may use: `rand.Intn(6)` for the
      rotations, `rand.Intn(21)` for the forward seconds, `rand.Intn(3)`
      for the jump, `rand.Intn(6)` for the strafe, and the two pauses of
      0.5 to 2 s truncated to whole milliseconds. */
  datatype Draws = Draws(rotations: int, forwardSeconds: int, jump: int, jumpMs: int, strafe: int, strafeMs: int)

  predicate DrawsInRange(d: Draws)
  {
    0 <= d.rotations < 6 && 0 <= d.forwardSeconds < 21 && 0 <= d.jump < 3 && 500 <= d.jumpMs < 2000 &&
    0 <= d.strafe < 6 && 500 <= d.strafeMs < 2000
  }

  /** `UseSlot` pauses 100 ms after switching page. */
  function SlotPause(a: SlotAnswer): int
  {
    if a.page != -1 then 100 else 0
  }

  function UsePause(a: SlotAnswer): int
  {
    if Available(a) then SlotPause(a) else 0
  }

  /** The time a restoring `Restore` spends: the page switches of the
      slots it uses and the buff interval after a buff. */
  function RestorePause(v: Vitals, slots: RestoreSlots, buffInterval: int): int
  {
    HPPause(v, slots) + TopUpPause(v, slots, buffInterval)
  }

  function HPPause(v: Vitals, slots: RestoreSlots): int
  {
    if v.hp < 100 then (if Available(slots.food) then SlotPause(slots.food) else UsePause(slots.pill)) else 0
  }

  function TopUpPause(v: Vitals, slots: RestoreSlots, buffInterval: int): int
  {
    (if v.mp < 100 then UsePause(slots.mp) else 0)
    + (if v.fp < 100 then UsePause(slots.fp) else 0)
    + UsePause(slots.buff) + (if Available(slots.buff) then buffInterval else 0)
  }

  /** The pickup takes the pet's page switch, or ten pickups 300 ms apart. */
  function PickupPause(pet: SlotAnswer, pick: SlotAnswer): int
  {
    if Available(pet) then SlotPause(pet)
    else if Available(pick) then 10 * (SlotPause(pick) + 300)
    else 0
  }

  function ForwardPause(d: Draws): int
  {
    (if d.jump == 1 then d.jumpMs else 0) + (if d.strafe == 1 || d.strafe == 2 then d.strafeMs else 0)
  }

  /** A forward walk ends after at least 20 s, so the pauses of its jump
      and strafe cannot outlast it in the step that starts it. */
  lemma ForwardSpec(d: Draws, now: int)
    requires DrawsInRange(d)
    ensures now + ForwardPause(d) < now + (d.forwardSeconds + 20) * 1000
  {
  }

  /** The fields of a `Farming` loop as a value: what a stage handler
      does is stated between the fields before (`b`) and after (`a`). */
  datatype Memory = Memory(stage: Stage, retryTarget: int, sweep: Sweep, careful: bool, forwardUntil: Option<int>,
                           lastHP: int, lastHPUpdate: int, obstacleCount: int, detector: Detector,
                           events: seq<Event>, clock: int, killed: int, lastKilledTime: int, attackTime: int)

  /** `LastHP` follows a lower target reading, restarting the HP timer. */
  function TrackHP(b: Memory): (t: Memory)
    ensures t.lastHP == TrackedHP(b.lastHP, b.detector.target.hp)
    ensures t == b.(lastHP := t.lastHP, lastHPUpdate := t.lastHPUpdate)
  {
    var hp := b.detector.target.hp;
    if hp < b.lastHP then b.(lastHP := hp, lastHPUpdate := b.clock) else b
  }

  /** The end of an attack step once no obstacle stopped it: a timed-out
      attack is given up, a dead target leads to the pickup, and otherwise
      the attack slot is used. */
  predicate Finished(m: Memory, a: Memory, attack: SlotAnswer, s: Settings)
  {
    if Exceeded(m.clock, m.attackTime, s.maxTime) then
      a == m.(stage := Stage.SearchingForEnemy, events := m.events + [Key("Escape", Press)])
    else if m.detector.target.hp == 0 || !m.detector.target.alive then
      a == m.(stage := Stage.AfterEnemyKill, obstacleCount := 0)
    else
      a == m.(events := m.events + Use(attack), clock := m.clock + UsePause(attack))
  }

  /** What an attack step does to a targeted mob that is not an NPC once
      `LastHP` is tracked (`t`): a target stuck past the threshold is
      cancelled (never hit), avoided (attempts left) or given up, and then
      the attack is finished. The avoidance move holds the arrow of draw
      `leftHold` and releases the one of draw `leftRelease`. */
  predicate Obstructed(t: Memory, a: Memory, attack: SlotAnswer, s: Settings, leftHold: bool, leftRelease: bool)
  {
    var outcome := ObstacleCheck(t.clock - t.lastHPUpdate, s.obstacleThresholdTime, t.detector.target.hp,
                                 t.obstacleCount, s.obstacleAvoidCount);
    if outcome == Cancel || outcome == GiveUp then
      a == t.(stage := Stage.SearchingForEnemy, obstacleCount := 0, events := t.events + [Key("Escape", Press)])
    else if outcome == Avoid then
      Finished(t.(events := t.events + AvoidEventsAsWritten(leftHold, leftRelease), obstacleCount := t.obstacleCount + 1,
                  lastHPUpdate := t.clock + 110, clock := t.clock + 110 + s.obstacleCoolDown), a, attack, s)
    else
      Finished(t, a, attack, s)
  }

  /** The attack step on a targeted mob that is not an NPC. */
  predicate Engaged(b: Memory, a: Memory, attack: SlotAnswer, s: Settings, leftHold: bool, leftRelease: bool)
  {
    Obstructed(TrackHP(b), a, attack, s, leftHold, leftRelease)
  }

  /** `Attacking`: a lost target counts a miss (the fifth returns to the
      search); a present target clears the counter, and an NPC is
      cancelled with Escape while any other is engaged. */
  predicate Attacked(b: Memory, a: Memory, attack: SlotAnswer, s: Settings, leftHold: bool, leftRelease: bool)
  {
    var t := b.detector.target;
    if !(t.open && t.alive) then
      a == b.(retryTarget := Missed(b.retryTarget).0,
              stage := if Missed(b.retryTarget).1 then Stage.SearchingForEnemy else b.stage)
    else if t.npc then
      a == b.(retryTarget := 0, stage := Stage.SearchingForEnemy, events := b.events + [Key("Escape", Press)])
    else
      Engaged(b.(retryTarget := 0), a, attack, s, leftHold, leftRelease)
  }

  /** The search when mobs are in view: careful mode the first time more
      than seven are seen, else stop walking and click the centre of the
      first aggressive, else passive, else violet mob. */
  predicate Clicked(b: Memory, a: Memory)
  {
    var m := b.detector.mobs;
    if MobCount(m) > 7 && !b.careful then
      a == b.(careful := true, events := b.events + [Key("ArrowUp", Press)])
    else
      FirstMob(m).Some? &&
      var (x, y) := MobCentre(FirstMob(m).value);
      a == b.(forwardUntil := None,
              events := b.events + (if b.forwardUntil.Some? then [Key("w", Release)] else []) + [Click(x, y)])
  }

  /** The search with nothing in view: one turn of the sweep, then the end
      of a forward walk whose deadline has passed. */
  predicate Swept(b: Memory, a: Memory, s: Settings, d: Draws)
  {
    var turn := TurnOf(b.sweep, s.navigate);
    var fu := if turn == MoveForward then Some(b.clock + (d.forwardSeconds + 20) * 1000) else b.forwardUntil;
    var c := if turn == MoveForward then b.clock + ForwardPause(d) else b.clock;
    var sw := AfterTurn(b.sweep, turn, d.rotations);
    var e := b.events + (if turn == MoveForward then ForwardEvents(d.jump, d.strafe) else TurnEvents(turn));
    var expired := fu.Some? && c > fu.value;
    a == b.(stage := if turn == StartNavigating then Stage.Navigating else b.stage,
            clock := c,
            forwardUntil := if expired then None else fu,
            sweep := if expired then sw.(upAndDown := 1) else sw,
            events := e + (if expired then [Key("w", Release)] else []))
  }

  /** `SearchingForEnemy`: an NPC target is cancelled with Escape; any
      other target starts the attack with its timers reset; otherwise
      mobs in view are clicked, and with none the sweep runs. */
  predicate Searched(b: Memory, a: Memory, s: Settings, d: Draws)
  {
    var t := b.detector.target;
    if t.open && t.alive then
      if t.npc then
        a == b.(events := b.events + [Key("Escape", Press)])
      else
        a == b.(stage := Stage.Attacking, attackTime := b.clock, lastHP := 100, lastHPUpdate := b.clock,
                obstacleCount := 0)
    else if MobCount(b.detector.mobs) > 0 then
      Clicked(b, a)
    else
      Swept(b, a, s, d)
  }

  /** `AfterEnemyKill`: count the kill, wait the defeat interval, pick up,
      search again. */
  predicate KillHandled(b: Memory, a: Memory, pet: SlotAnswer, pick: SlotAnswer, s: Settings)
  {
    a == b.(killed := b.killed + 1, lastKilledTime := b.clock,
            events := b.events + PickupEvents(pet, pick),
            clock := b.clock + s.defeatInterval + PickupPause(pet, pick),
            stage := Stage.SearchingForEnemy)
  }

  /** `Offline`: refresh, wait 5 s, press Enter 30 times and Escape 10
      times a second apart, then initialise. */
  predicate Reconnected(b: Memory, a: Memory)
  {
    a == b.(events := b.events + [Refresh] + Repeat([Key("Enter", Press)], 30) + Repeat([Key("Escape", Press)], 10),
            clock := b.clock + 45000, stage := Stage.Initializing)
  }

  /** `Initializing`: searching at once when the status bar is open;
      otherwise `t` pressed five times two seconds apart and the stage
      kept. */
  predicate Initialized(b: Memory, a: Memory)
  {
    if b.detector.my.open then
      a == b.(stage := Stage.SearchingForEnemy)
    else
      a == b.(events := b.events + Repeat([Key("t", Press)], 5), clock := b.clock + 10000)
  }

  /** The stage handler `Start` runs, by the stage it finds: Escaping and
      Navigating only switch to the search, Dead presses Enter and waits
      the death confirmation, stages without a handler change nothing. */
  predicate Dispatched(b: Memory, a: Memory, attack: SlotAnswer, pet: SlotAnswer, pick: SlotAnswer,
                       s: Settings, d: Draws, leftHold: bool, leftRelease: bool)
  {
    match b.stage
    case Initializing => Initialized(b, a)
    case SearchingForEnemy => Searched(b, a, s, d)
    case Attacking => Attacked(b, a, attack, s, leftHold, leftRelease)
    case AfterEnemyKill => KillHandled(b, a, pet, pick, s)
    case Escaping => a == b.(stage := Stage.SearchingForEnemy)
    case Navigating => a == b.(stage := Stage.SearchingForEnemy)
    case Dead => a == b.(events := b.events + [Key("Enter", Press)], clock := b.clock + s.deathConfirm)
    case Offline => Reconnected(b, a)
    case _ => a == b
  }

  /** The stage graph of the loop: each handler moves only to the stages
      the source names, and only ever appends to the event log. */
  lemma DispatchedStages(b: Memory, a: Memory, attack: SlotAnswer, pet: SlotAnswer, pick: SlotAnswer,
                         s: Settings, d: Draws, leftHold: bool, leftRelease: bool)
    requires Dispatched(b, a, attack, pet, pick, s, d, leftHold, leftRelease)
    ensures b.events <= a.events
    ensures b.stage == Stage.Initializing ==> a.stage in {Stage.Initializing, Stage.SearchingForEnemy}
    ensures b.stage == Stage.SearchingForEnemy ==>
              a.stage in {Stage.SearchingForEnemy, Stage.Attacking, Stage.Navigating}
    ensures b.stage == Stage.Attacking ==>
              a.stage in {Stage.Attacking, Stage.SearchingForEnemy, Stage.AfterEnemyKill}
    ensures b.stage in {Stage.AfterEnemyKill, Stage.Escaping, Stage.Navigating} ==> a.stage == Stage.SearchingForEnemy
    ensures b.stage == Stage.Dead ==> a.stage == Stage.Dead
    ensures b.stage == Stage.Offline ==> a.stage == Stage.Initializing
  {
    match b.stage
    case Attacking =>
      var t := b.detector.target;
      if t.open && t.alive && !t.npc {
        ObstructedStages(TrackHP(b.(retryTarget := 0)), a, attack, s, leftHold, leftRelease);
      }
    case SearchingForEnemy =>
      if !(b.detector.target.open && b.detector.target.alive) && MobCount(b.detector.mobs) > 0 {
        assert Clicked(b, a);
      }
    case _ =>
  }

  /** The attack on a stuck or free target stays in the attack, or moves to
      the search or the pickup, and only appends events. */
  lemma ObstructedStages(t: Memory, a: Memory, attack: SlotAnswer, s: Settings, leftHold: bool, leftRelease: bool)
    requires Obstructed(t, a, attack, s, leftHold, leftRelease)
    ensures t.events <= a.events
    ensures a.stage in {t.stage, Stage.SearchingForEnemy, Stage.AfterEnemyKill}
  {
    var outcome := ObstacleCheck(t.clock - t.lastHPUpdate, s.obstacleThresholdTime, t.detector.target.hp,
                                 t.obstacleCount, s.obstacleAvoidCount);
    if outcome == Avoid {
      var m := t.(events := t.events + AvoidEventsAsWritten(leftHold, leftRelease), obstacleCount := t.obstacleCount + 1,
                  lastHPUpdate := t.clock + 110, clock := t.clock + 110 + s.obstacleCoolDown);
      assert Finished(m, a, attack, s);
      assert t.events <= m.events;
    }
  }

  class Farming {
    var stage: Stage
    /** `Retry.Target`. */
    var retryTarget: int
    /** `SearchingEnemy`: the sweep, careful mode and the forward deadline
        (None for the zero time). */
    var sweep: Sweep
    var careful: bool
    var forwardUntil: Option<int>
    /** `Target`. */
    var lastHP: int
    var lastHPUpdate: int
    /** `Obstacle.Count`. */
    var obstacleCount: int
    /** The latest detector readings. */
    var detector: Detector
    /** The browser events sent so far. */
    var events: seq<Event>
    /** The wall clock, in ms. */
    var clock: int
    /** The configuration status fields these stages read and write:
        `Player.Killed`, `Player.LastKilledTime`, `Attack.AttackTime`. */
    var killed: int
    var lastKilledTime: int
    var attackTime: int

    /** `NewFarming`: everything zero and the stage Initializing. */
    constructor (d: Detector, now: int, killedSoFar: int, lastKill: int)
      ensures stage == Stage.Initializing && retryTarget == 0 && sweep == Sweep(0, false, 0)
      ensures !careful && forwardUntil == None && lastHP == 0 && lastHPUpdate == 0 && obstacleCount == 0
      ensures detector == d && events == [] && clock == now
      ensures killed == killedSoFar && lastKilledTime == lastKill && attackTime == 0
    {
      stage := Stage.Initializing;
      retryTarget := 0;
      sweep := Sweep(0, false, 0);
      careful := false;
      forwardUntil := None;
      lastHP := 0;
      lastHPUpdate := 0;
      obstacleCount := 0;
      detector := d;
      events := [];
      clock := now;
      killed := killedSoFar;
      lastKilledTime := lastKill;
      attackTime := 0;
    }

    function Memo(): Memory
      reads this
    {
      Memory(stage, retryTarget, sweep, careful, forwardUntil, lastHP, lastHPUpdate, obstacleCount, detector,
             events, clock, killed, lastKilledTime, attackTime)
    }

    method UseSlot(a: SlotAnswer)
      modifies this`events, this`clock
      ensures events == old(events) + SlotPresses(a)
      ensures clock == old(clock) + SlotPause(a)
    {
      if a.page != -1 {
        events := events + [PageKey(a.page)];
        clock := clock + 100;
      }
      events := events + [SlotKey(a.slot)];
    }

    /** The HP part of `Restore`: food, else the pill, else escape when
        HP is below the escape threshold. */
    method RestoreHP(slots: RestoreSlots, s: Settings)
      modifies this`stage, this`events, this`clock
      ensures stage == (if MustEscape(detector.my, slots, s.escapeHP) then Stage.Escaping else old(stage))
      ensures events == old(events) + HPEvents(detector.my, slots)
      ensures clock == old(clock) + HPPause(detector.my, slots)
    {
      var v := detector.my;
      if v.hp < 100 {
        if Available(slots.food) {
          UseSlot(slots.food);
        } else if Available(slots.pill) {
          UseSlot(slots.pill);
        } else if v.hp < s.escapeHP {
          stage := Stage.Escaping;
        }
      }
    }

    /** A slot used when `wanted` and available. */
    method UseIf(wanted: bool, a: SlotAnswer)
      modifies this`events, this`clock
      ensures events == old(events) + (if wanted then Use(a) else [])
      ensures clock == old(clock) + (if wanted then UsePause(a) else 0)
    {
      if wanted && Available(a) {
        UseSlot(a);
      }
    }

    /** The MP, FP and buff part of `Restore`. */
    method TopUp(slots: RestoreSlots, s: Settings)
      modifies this`events, this`clock
      ensures events == old(events) + TopUpEvents(detector.my, slots)
      ensures clock == old(clock) + TopUpPause(detector.my, slots, s.buffInterval)
    {
      var v := detector.my;
      ghost var e0 := events;
      ghost var m := if v.mp < 100 then Use(slots.mp) else [];
      ghost var f := if v.fp < 100 then Use(slots.fp) else [];
      UseIf(v.mp < 100, slots.mp);
      UseIf(v.fp < 100, slots.fp);
      AppendAssoc(e0, m, f);
      UseIf(true, slots.buff);
      AppendAssoc(e0, m + f, Use(slots.buff));
      if Available(slots.buff) {
        clock := clock + s.buffInterval;
      }
    }

    /** The restoring part of `Restore`. */
    method Replenish(slots: RestoreSlots, s: Settings)
      modifies this`stage, this`events, this`clock
      ensures stage == (if MustEscape(detector.my, slots, s.escapeHP) then Stage.Escaping else old(stage))
      ensures events == old(events) + Replenishment(detector.my, slots)
      ensures clock == old(clock) + RestorePause(detector.my, slots, s.buffInterval)
    {
      ghost var e0 := events;
      RestoreHP(slots, s);
      TopUp(slots, s);
      AppendAssoc(e0, HPEvents(detector.my, slots), TopUpEvents(detector.my, slots));
    }

    /** `Restore`: the closed bar, death and the watchdog switch stage
        first; the stages that skip restoration stop there. */
    method Restore(slots: RestoreSlots, s: Settings)
      modifies this`stage, this`events, this`clock
      ensures var watchdog := Exceeded(old(clock), lastKilledTime, s.watchDogTime);
        stage == RestoreStage(old(stage), detector.my, watchdog, slots, s.escapeHP) &&
        events == old(events) + RestoreEvents(old(stage), detector.my, watchdog, slots) &&
        clock == old(clock) + (if Restores(old(stage), detector.my, watchdog) then RestorePause(detector.my, slots, s.buffInterval) else 0)
    {
      var v := detector.my;
      if !v.open {
        stage := Stage.Initializing;
        return;
      }
      if !v.alive {
        stage := Stage.Dead;
        return;
      }
      if Exceeded(clock, lastKilledTime, s.watchDogTime) {
        stage := Stage.Offline;
        return;
      }
      if stage == Stage.Dead || stage == Stage.Initializing || stage == Stage.Offline {
        return;
      }
      Replenish(slots, s);
    }

    /** The pickup after a kill: the pet, or ten pickups 300 ms apart. */
    method Pickup(pet: SlotAnswer, pick: SlotAnswer)
      modifies this`events, this`clock
      ensures events == old(events) + PickupEvents(pet, pick)
      ensures clock == old(clock) + PickupPause(pet, pick)
    {
      if Available(pet) {
        UseSlot(pet);
      } else if Available(pick) {
        var i := 0;
        while i < 10
          invariant 0 <= i <= 10
          invariant events == old(events) + Repeat(SlotPresses(pick), i)
          invariant clock == old(clock) + i * (SlotPause(pick) + 300)
        {
          UseSlot(pick);
          clock := clock + 300;
          i := i + 1;
        }
      }
    }

    /** `AfterEnemyKill`: count the kill, wait the defeat interval, pick
        up, search again. */
    method AfterEnemyKill(pet: SlotAnswer, pick: SlotAnswer, s: Settings)
      modifies this`killed, this`lastKilledTime, this`events, this`clock, this`stage
      ensures KillHandled(old(Memo()), Memo(), pet, pick, s)
    {
      killed := killed + 1;
      lastKilledTime := clock;
      clock := clock + s.defeatInterval;
      Pickup(pet, pick);
      stage := Stage.SearchingForEnemy;
    }

    /** The end of an attack step once no obstacle stopped it: give up
        on a timeout, move on after a kill, else strike. */
    method FinishAttack(attack: SlotAnswer, s: Settings)
      modifies this`stage, this`events, this`clock, this`obstacleCount
      ensures Finished(old(Memo()), Memo(), attack, s)
    {
      if Exceeded(clock, attackTime, s.maxTime) {
        events := events + [Key("Escape", Press)];
        stage := Stage.SearchingForEnemy;
        return;
      }
      if detector.target.hp == 0 || !detector.target.alive {
        stage := Stage.AfterEnemyKill;
        obstacleCount := 0;
        return;
      }
      if Available(attack) {
        UseSlot(attack);
      }
    }

    /** The obstacle avoidance move as written: step forward, hold the
        arrow of one draw, jump, release the arrow of a second draw,
        restart the HP timer and wait the cooldown. The keys pressed are
        left with nothing held exactly when the two draws agree. */
    method AvoidObstacle(leftHold: bool, leftRelease: bool, s: Settings)
      modifies this`events, this`clock, this`obstacleCount, this`lastHPUpdate
      ensures events == old(events) + AvoidEventsAsWritten(leftHold, leftRelease)
      ensures Released(events[|old(events)|..]) <==> leftHold == leftRelease
      ensures obstacleCount == old(obstacleCount) + 1
      ensures lastHPUpdate == old(clock) + 110 && clock == old(clock) + 110 + s.obstacleCoolDown
    {
      events := events + [Key("w", Press)];
      clock := clock + 100;
      events := events + [Key(Arrow(leftHold), Hold), Key(" ", Press)];
      clock := clock + 10;
      events := events + [Key(Arrow(leftRelease), Release)];
      assert events[|old(events)|..] == AvoidEventsAsWritten(leftHold, leftRelease);
      AvoidReleasedIff(leftHold, leftRelease);
      obstacleCount := obstacleCount + 1;
      lastHPUpdate := clock;
      clock := clock + s.obstacleCoolDown;
    }

    /** The attack step on a targeted mob that is not an NPC: track the
        HP reading, then handle a stuck target and finish. */
    method Engage(attack: SlotAnswer, s: Settings, leftHold: bool, leftRelease: bool)
      modifies this`stage, this`events, this`clock, this`obstacleCount, this`lastHP, this`lastHPUpdate
      ensures Engaged(old(Memo()), Memo(), attack, s, leftHold, leftRelease)
    {
      var hp := detector.target.hp;
      if hp < lastHP {
        lastHP := hp;
        lastHPUpdate := clock;
      }
      assert Memo() == TrackHP(old(Memo()));
      Unstick(attack, s, leftHold, leftRelease);
    }

    /** A target whose HP has not changed for longer than the threshold is
        cancelled when never hit, avoided while attempts are left, and
        given up otherwise; the attack then finishes. */
    method Unstick(attack: SlotAnswer, s: Settings, leftHold: bool, leftRelease: bool)
      modifies this`stage, this`events, this`clock, this`obstacleCount, this`lastHPUpdate
      ensures Obstructed(old(Memo()), Memo(), attack, s, leftHold, leftRelease)
    {
      var outcome := ObstacleCheck(clock - lastHPUpdate, s.obstacleThresholdTime, detector.target.hp,
                                   obstacleCount, s.obstacleAvoidCount);
      if outcome == Cancel || outcome == GiveUp {
        events := events + [Key("Escape", Press)];
        stage := Stage.SearchingForEnemy;
        obstacleCount := 0;
        return;
      }
      if outcome == Avoid {
        AvoidObstacle(leftHold, leftRelease, s);
      }
      FinishAttack(attack, s);
    }

    /** `Attacking`, with `leftHold` and `leftRelease` the two draws of an
        avoidance move. */
    method Attacking(attack: SlotAnswer, s: Settings, leftHold: bool, leftRelease: bool)
      modifies this`stage, this`events, this`clock, this`obstacleCount, this`retryTarget,
        this`lastHP, this`lastHPUpdate
      ensures Attacked(old(Memo()), Memo(), attack, s, leftHold, leftRelease)
    {
      var t := detector.target;
      if !(t.open && t.alive) {
        retryTarget := retryTarget + 1;
        if retryTarget >= 5 {
          retryTarget := 0;
          stage := Stage.SearchingForEnemy;
        }
        return;
      }
      retryTarget := 0;
      if t.npc {
        events := events + [Key("Escape", Press)];
        stage := Stage.SearchingForEnemy;
        return;
      }
      assert Memo() == old(Memo()).(retryTarget := 0);
      Engage(attack, s, leftHold, leftRelease);
    }

    method ClickMob()
      requires MobCount(detector.mobs) > 0
      modifies this`events, this`careful, this`forwardUntil
      ensures Clicked(old(Memo()), Memo())
    {
      var m := detector.mobs;
      if MobCount(m) > 7 && !careful {
        events := events + [Key("ArrowUp", Press)];
        careful := true;
        return;
      }
      if forwardUntil.Some? {
        events := events + [Key("w", Release)];
        forwardUntil := None;
      }
      var target := FirstMob(m);
      var (x, y) := MobCentre(target.value);
      events := events + [Click(x, y)];
    }

    /** Walking forward for 20 to 40 s, with the optional jump and strafe
        and their pauses; the sweep restarts at step 1 the other way. */
    method WalkForward(d: Draws)
      modifies this`events, this`clock, this`sweep, this`forwardUntil
      ensures events == old(events) + ForwardEvents(d.jump, d.strafe)
      ensures clock == old(clock) + ForwardPause(d)
      ensures forwardUntil == Some(old(clock) + (d.forwardSeconds + 20) * 1000)
      ensures sweep == AfterTurn(old(sweep), MoveForward, d.rotations)
    {
      events := events + [Key("w", Hold)];
      forwardUntil := Some(clock + (d.forwardSeconds + 20) * 1000);
      if d.jump == 1 {
        clock := clock + d.jumpMs;
        events := events + [Key(" ", Press)];
      }
      if d.strafe == 1 {
        events := events + [Key("ArrowLeft", Hold)];
        clock := clock + d.strafeMs;
        events := events + [Key("ArrowLeft", Release)];
      } else if d.strafe == 2 {
        events := events + [Key("ArrowRight", Hold)];
        clock := clock + d.strafeMs;
        events := events + [Key("ArrowRight", Release)];
      }
      sweep := Sweep(1, !sweep.reverse, sweep.count);
    }

    /** One turn of the sweep. */
    method Turn(s: Settings, d: Draws)
      modifies this`events, this`clock, this`sweep, this`forwardUntil, this`stage
      ensures var turn := TurnOf(old(sweep), s.navigate);
        stage == (if turn == StartNavigating then Stage.Navigating else old(stage)) &&
        sweep == AfterTurn(old(sweep), turn, d.rotations) &&
        (turn == MoveForward ==>
           events == old(events) + ForwardEvents(d.jump, d.strafe) && clock == old(clock) + ForwardPause(d) &&
           forwardUntil == Some(old(clock) + (d.forwardSeconds + 20) * 1000)) &&
        (turn != MoveForward ==>
           events == old(events) + TurnEvents(turn) && clock == old(clock) && forwardUntil == old(forwardUntil))
    {
      var turn := TurnOf(sweep, s.navigate);
      if turn == StartNavigating {
        stage := Stage.Navigating;
      } else if turn == MoveForward {
        WalkForward(d);
      } else {
        events := events + TurnEvents(turn);
        sweep := AfterTurn(sweep, turn, d.rotations);
      }
    }

    /** The end of a forward walk whose deadline has passed. */
    method StopExpiredWalk()
      modifies this`events, this`sweep, this`forwardUntil
      ensures var expired := old(forwardUntil).Some? && clock > old(forwardUntil).value;
        forwardUntil == (if expired then None else old(forwardUntil)) &&
        sweep == (if expired then old(sweep).(upAndDown := 1) else old(sweep)) &&
        events == old(events) + (if expired then [Key("w", Release)] else [])
    {
      if forwardUntil.Some? && clock > forwardUntil.value {
        events := events + [Key("w", Release)];
        forwardUntil := None;
        sweep := sweep.(upAndDown := 1);
      }
    }

    method Sweeping(s: Settings, d: Draws)
      modifies this`events, this`clock, this`sweep, this`forwardUntil, this`stage
      ensures Swept(old(Memo()), Memo(), s, d)
    {
      Turn(s, d);
      StopExpiredWalk();
    }

    method SearchingForEnemy(s: Settings, d: Draws)
      modifies this`events, this`clock, this`sweep, this`forwardUntil, this`stage, this`careful,
        this`attackTime, this`lastHP, this`lastHPUpdate, this`obstacleCount
      ensures Searched(old(Memo()), Memo(), s, d)
    {
      var t := detector.target;
      if t.open && t.alive {
        if t.npc {
          events := events + [Key("Escape", Press)];
          return;
        }
        attackTime := clock;
        lastHP := 100;
        lastHPUpdate := clock;
        obstacleCount := 0;
        stage := Stage.Attacking;
        return;
      }
      if MobCount(detector.mobs) > 0 {
        ClickMob();
        return;
      }
      Sweeping(s, d);
    }

    /** `Offline`: refresh, wait 5 s, press Enter 30 times and Escape 10
        times a second apart, then initialise. */
    method Offline()
      modifies this`events, this`clock, this`stage
      ensures Reconnected(old(Memo()), Memo())
    {
      events := events + [Refresh];
      clock := clock + 5000;
      var i := 0;
      while i < 30
        invariant 0 <= i <= 30
        invariant events == old(events) + [Refresh] + Repeat([Key("Enter", Press)], i)
        invariant clock == old(clock) + 5000 + 1000 * i
      {
        events := events + [Key("Enter", Press)];
        clock := clock + 1000;
        i := i + 1;
      }
      var j := 0;
      while j < 10
        invariant 0 <= j <= 10
        invariant events == old(events) + [Refresh] + Repeat([Key("Enter", Press)], 30) + Repeat([Key("Escape", Press)], j)
        invariant clock == old(clock) + 35000 + 1000 * j
      {
        events := events + [Key("Escape", Press)];
        clock := clock + 1000;
        j := j + 1;
      }
      stage := Stage.Initializing;
    }

    /** `Initializing`: with the status bar closed, press `t` up to five
        times two seconds apart, re-reading the detector's flag after
        each; the detector is only refreshed by the main loop, so the
        flag read stays the one it had on entry. */
    method Initializing() returns (ready: bool)
      modifies this`events, this`clock, this`stage
      ensures ready <==> detector.my.open
      ensures Initialized(old(Memo()), Memo())
    {
      var open := detector.my.open;
      if !open {
        var i := 0;
        while i < 5
          invariant 0 <= i <= 5
          invariant !open
          modifies this`events, this`clock
          invariant events == old(events) + Repeat([Key("t", Press)], i)
          invariant clock == old(clock) + 2000 * i
        {
          events := events + [Key("t", Press)];
          clock := clock + 2000;
          if detector.my.open {
            open := true;
            break;
          }
          i := i + 1;
        }
      }
      if open {
        stage := Stage.SearchingForEnemy;
        return true;
      }
      return false;
    }

    /** The stage handler `Start` runs after `Restore`. */
    method Dispatch(attack: SlotAnswer, pet: SlotAnswer, pick: SlotAnswer, s: Settings, d: Draws,
                    leftHold: bool, leftRelease: bool)
      modifies this
      ensures Dispatched(old(Memo()), Memo(), attack, pet, pick, s, d, leftHold, leftRelease)
    {
      match stage {
        case Initializing =>
          var _ := Initializing();
        case SearchingForEnemy =>
          SearchingForEnemy(s, d);
        case Attacking =>
          Attacking(attack, s, leftHold, leftRelease);
        case AfterEnemyKill =>
          AfterEnemyKill(pet, pick, s);
        case Escaping =>
          stage := Stage.SearchingForEnemy;
        case Dead =>
          events := events + [Key("Enter", Press)];
          clock := clock + s.deathConfirm;
        case Offline =>
          Offline();
        case Navigating =>
          stage := Stage.SearchingForEnemy;
        case _ =>
      }
    }

    /** The start of an iteration of `Start` at time `now` with a
        captured frame: new bar readings, new mobs only while searching or
        navigating, then restoration. */
    method Prepare(now: int, my: Vitals, target: TargetView, mobs: Mobs, slots: RestoreSlots, s: Settings)
      modifies this`clock, this`detector, this`stage, this`events
      ensures var watchdog := Exceeded(now, old(lastKilledTime), s.watchDogTime);
        Memo() == old(Memo()).(
          detector := old(detector).(my := my, target := target,
            mobs := if old(stage) == Stage.SearchingForEnemy || old(stage) == Stage.Navigating then mobs else old(detector.mobs)),
          stage := RestoreStage(old(stage), my, watchdog, slots, s.escapeHP),
          events := old(events) + RestoreEvents(old(stage), my, watchdog, slots),
          clock := now + (if Restores(old(stage), my, watchdog) then RestorePause(my, slots, s.buffInterval) else 0))
    {
      clock := now;
      detector := detector.(my := my, target := target);
      if stage == Stage.SearchingForEnemy || stage == Stage.Navigating {
        detector := detector.(mobs := mobs);
      }
      Restore(slots, s);
    }

    /** One iteration of `Start`: `Prepare`, the stage's handler, then the
        loop pause. `restored` is the loop once prepared and `handled`
        once the handler has run. */
    method Step(now: int, my: Vitals, target: TargetView, mobs: Mobs,
                slots: RestoreSlots, attack: SlotAnswer, pet: SlotAnswer, pick: SlotAnswer,
                s: Settings, d: Draws, leftHold: bool, leftRelease: bool)
      returns (ghost restored: Memory, ghost handled: Memory)
      modifies this
      ensures var watchdog := Exceeded(now, old(lastKilledTime), s.watchDogTime);
        restored == old(Memo()).(
          detector := old(detector).(my := my, target := target,
            mobs := if old(stage) == Stage.SearchingForEnemy || old(stage) == Stage.Navigating then mobs else old(detector.mobs)),
          stage := RestoreStage(old(stage), my, watchdog, slots, s.escapeHP),
          events := old(events) + RestoreEvents(old(stage), my, watchdog, slots),
          clock := now + (if Restores(old(stage), my, watchdog) then RestorePause(my, slots, s.buffInterval) else 0))
      ensures Dispatched(restored, handled, attack, pet, pick, s, d, leftHold, leftRelease)
      ensures Memo() == handled.(clock := handled.clock + (if s.statType > 0 then 1000 else 0))
    {
      Prepare(now, my, target, mobs, slots, s);
      restored := Memo();
      Dispatch(attack, pet, pick, s, d, leftHold, leftRelease);
      handled := Memo();
      if s.statType > 0 {
        clock := clock + 1000;
      }
    }
  }
}
