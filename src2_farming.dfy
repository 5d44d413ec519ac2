/** The stage machine of src2/farming.go. Unlike src/farming.go it never
    sleeps: the stages that take time (the pickup after a kill, the
    escape, death, reconnection, initialisation and the obstacle move)
    advance one step per frame through a named wait context, whose reply
    (1, 2, ... for the step that is due, -1 while the wait runs) is an
    input here, and whose `SetupWaitCtx(name, ms)` calls are recorded. */
module Src2Farming {
  import opened Wrappers
  import opened GoInt
  import opened FarmStages

  /** The random draws one frame may use: `rand.Intn(6)` for the
      rotations, `rand.Intn(21)` for the forward seconds, `rand.Intn(3)`
      for the jump and `rand.Intn(6)` for the strafe. */
  datatype Draws = Draws(rotations: int, forwardSeconds: int, jump: int, strafe: int)

  predicate DrawsInRange(d: Draws)
  {
    0 <= d.rotations < 6 && 0 <= d.forwardSeconds < 21 && 0 <= d.jump < 3 && 0 <= d.strafe < 6
  }

  /** What one step of a wait-context stage does: the keys it sends, the
      wait it sets up (None when it sets none) and whether it leaves the
      stage. */
  datatype Reply = Reply(events: seq<Event>, wait: Option<int>, done: bool)

  /** The record of `SetupWaitCtx` calls after a step. */
  function SetWait(waits: map<string, int>, name: string, wait: Option<int>): map<string, int>
  {
    if wait.Some? then waits[name := wait.value] else waits
  }

  // ---------------------------------------------------------------------
  // Offline: refresh, up to 30 Enter presses, Escape up to counter 40

  /** `Retry.OfflineKeyEvent` after one `Offline` step. */
  function OfflineCounter(counter: int, answer: int, open: bool): int
  {
    if answer == 1 then 1
    else if answer == 2 then (if open then 31 else if counter <= 30 then counter + 1 else counter)
    else if answer == 3 then (if counter <= 40 then counter + 1 else counter)
    else if answer == 4 then 0
    else counter
  }

  function OfflineReply(counter: int, answer: int, open: bool): Reply
  {
    if answer == 1 then Reply([Refresh], Some(5000), false)
    else if answer == 2 then
      (if open then Reply([], Some(0), false)
       else if counter <= 30 then Reply([Key("Enter", Press)], Some(1000), false)
       else Reply([], Some(0), false))
    else if answer == 3 then
      (if counter <= 40 then Reply([Key("Escape", Press)], Some(1000), false)
       else Reply([], Some(0), false))
    else if answer == 4 then Reply([], Some(-1), true)
    else Reply([], None, false)
  }

  /** The counter stays within [0, 41]; Enter is pressed only while the bar
      is closed and the counter is at most 30, Escape only at step 3 with
      the counter at most 40; the stage ends exactly at step 4, with the
      counter back at 0. */
  lemma OfflineSpec(counter: int, answer: int, open: bool)
    requires 0 <= counter <= 41
    ensures 0 <= OfflineCounter(counter, answer, open) <= 41
    ensures OfflineReply(counter, answer, open).done <==> answer == 4
    ensures answer == 4 ==> OfflineCounter(counter, answer, open) == 0
    ensures Key("Enter", Press) in OfflineReply(counter, answer, open).events <==> answer == 2 && !open && counter <= 30
    ensures Key("Escape", Press) in OfflineReply(counter, answer, open).events <==> answer == 3 && counter <= 40
    ensures answer == -1 ==> OfflineReply(counter, answer, open) == Reply([], None, false)
    ensures answer == -1 ==> OfflineCounter(counter, answer, open) == counter
  {
  }

  /** `k` replies of 2. */
  function Twos(k: nat): (r: seq<int>)
    ensures |r| == k
    ensures forall i :: 0 <= i < k ==> r[i] == 2
  {
    if k == 0 then [] else Twos(k - 1) + [2]
  }

  /** The counter and the keys after a run of `Offline` steps with the bar
      in the same state throughout. */
  function OfflineRun(counter: int, answers: seq<int>, open: bool): (int, seq<Event>)
    decreases |answers|
  {
    if |answers| == 0 then (counter, [])
    else
      var before := OfflineRun(counter, answers[..|answers| - 1], open);
      var a := answers[|answers| - 1];
      (OfflineCounter(before.0, a, open), before.1 + OfflineReply(before.0, a, open).events)
  }

  lemma OfflineRunSnoc(counter: int, answers: seq<int>, a: int, open: bool)
    ensures var before := OfflineRun(counter, answers, open);
      OfflineRun(counter, answers + [a], open) ==
        (OfflineCounter(before.0, a, open), before.1 + OfflineReply(before.0, a, open).events)
  {
    assert (answers + [a])[..|answers|] == answers;
  }

  /** With the bar closed, the Enter phase starting from counter `c`
      presses Enter once per frame until the counter passes 30, and then
      waits for the Escape phase. */
  lemma EnterPhase(c: int, k: nat)
    requires 1 <= c <= 31
    ensures OfflineRun(c, Twos(k), false) == (Min(c + k, 31), Repeat([Key("Enter", Press)], Min(k, 31 - c)))
  {
    if c + k <= 31 {
      EnterPresses(c, k);
    } else {
      EnterSaturates(c, k);
    }
  }

  /** Before the counter passes 30, every frame presses Enter. */
  lemma {:induction false} EnterPresses(c: int, k: nat)
    requires 1 <= c && c + k <= 31
    ensures OfflineRun(c, Twos(k), false) == (c + k, Repeat([Key("Enter", Press)], k))
  {
    if k > 0 {
      var e := [Key("Enter", Press)];
      EnterPresses(c, k - 1);
      TwosSnoc(c, k);
      EnterStep(c + k - 1, Repeat(e, k - 1));
    }
  }

  /** Once it has, frames change nothing. */
  lemma {:induction false} EnterSaturates(c: int, k: nat)
    requires 1 <= c <= 31 && c + k >= 31
    ensures OfflineRun(c, Twos(k), false) == (31, Repeat([Key("Enter", Press)], 31 - c))
    decreases k
  {
    if c + k == 31 {
      EnterPresses(c, k);
    } else {
      var e := [Key("Enter", Press)];
      EnterSaturates(c, k - 1);
      TwosSnoc(c, k);
      EnterStep(31, Repeat(e, 31 - c));
    }
  }

  /** One more frame with reply 2. */
  lemma TwosSnoc(c: int, k: nat)
    requires k > 0
    ensures var before := OfflineRun(c, Twos(k - 1), false);
      OfflineRun(c, Twos(k), false) ==
        (OfflineCounter(before.0, 2, false), before.1 + OfflineReply(before.0, 2, false).events)
  {
    assert Twos(k) == Twos(k - 1) + [2];
    OfflineRunSnoc(c, Twos(k - 1), 2, false);
  }

  /** One frame with the bar closed: Enter while the counter is at most
      30, nothing once it has reached 31. */
  lemma EnterStep(b: int, presses: seq<Event>)
    requires 1 <= b <= 31
    ensures OfflineCounter(b, 2, false) == (if b <= 30 then b + 1 else 31)
    ensures presses + OfflineReply(b, 2, false).events ==
      (if b <= 30 then presses + [Key("Enter", Press)] else presses)
  {
  }

  /** A reconnection after the refresh with the bar closed throughout
      presses Enter exactly 30 times, whatever the number of frames beyond
      30 it is given. */
  lemma ReconnectPresses(k: nat)
    requires k >= 30
    ensures OfflineRun(OfflineCounter(0, 1, false), Twos(k), false) == (31, Repeat([Key("Enter", Press)], 30))
  {
    EnterPhase(1, k);
  }

  // ---------------------------------------------------------------------
  // Initializing: count frames with the bar closed, press `t` after six

  /** A reply of 2 makes `Initializing` clear its context and ask again;
      the replies of one call therefore reach one other than 2. */
  predicate Settles(answers: seq<int>)
    decreases |answers|
  {
    |answers| > 0 && (answers[0] == 2 ==> Settles(answers[1..]))
  }

  /** The first reply other than 2. */
  function Settle(answers: seq<int>): (a: int)
    requires Settles(answers)
    decreases |answers|
    ensures a != 2 && a in answers
  {
    if answers[0] == 2 then Settle(answers[1..]) else answers[0]
  }

  /** `Retry.State` after one check. */
  function InitRetry(retry: int, answer: int, open: bool): int
  {
    if answer == 1 && !open then (if retry + 1 > 5 then 0 else retry + 1)
    else if answer == 1 then 0
    else retry
  }

  function InitReply(retry: int, answer: int, open: bool): Reply
  {
    if answer == 1 && open then Reply([], Some(-1), true)
    else if answer == 1 then Reply(if retry + 1 > 5 then [Key("t", Press)] else [], Some(5000), false)
    else Reply([], None, false)
  }

  /** The counter stays within [0, 5] (it touches 6 only before the
      reset); `t` is pressed exactly on the sixth closed check in a row;
      the stage is left exactly when a check sees the bar open. */
  lemma InitSpec(retry: int, answer: int, open: bool)
    requires 0 <= retry <= 5
    ensures 0 <= InitRetry(retry, answer, open) <= 5
    ensures InitReply(retry, answer, open).events != [] <==> answer == 1 && !open && retry == 5
    ensures InitReply(retry, answer, open).done <==> answer == 1 && open
    ensures answer != 1 ==> InitRetry(retry, answer, open) == retry && InitReply(retry, answer, open) == Reply([], None, false)
  {
  }

  /** The counter and the number of `t` presses after `k` closed checks. */
  function ClosedRun(retry: int, k: nat): (int, nat)
  {
    if k == 0 then (retry, 0)
    else
      var before := ClosedRun(retry, k - 1);
      (InitRetry(before.0, 1, false), before.1 + |InitReply(before.0, 1, false).events|)
  }

  /** From a fresh counter, `k` closed checks leave `k % 6` and press `t`
      once per six. */
  lemma {:induction false} ClosedRunSpec(k: nat)
    ensures ClosedRun(0, k) == (k % 6, k / 6)
  {
    if k > 0 {
      ClosedRunSpec(k - 1);
    }
  }

  // ---------------------------------------------------------------------
  // Dead, Escaping and the obstacle move

  /** `Dead`: Enter, then after the death-confirm wait either leave (alive)
      or press Enter again. */
  function DeadReply(answer: int, alive: bool, confirm: int): Reply
  {
    if answer == 1 then Reply([Key("Enter", Press)], Some(confirm), false)
    else if answer == 2 && alive then Reply([], Some(-1), true)
    else if answer == 2 then Reply([Key("Enter", Press)], Some(confirm), false)
    else Reply([], None, false)
  }

  /** Death is left only once the bar reads alive, and every due step
      while dead presses Enter and waits again. */
  lemma DeadSpec(answer: int, alive: bool, confirm: int)
    ensures DeadReply(answer, alive, confirm).done <==> answer == 2 && alive
    ensures (answer == 1 || answer == 2) && !DeadReply(answer, alive, confirm).done ==>
      DeadReply(answer, alive, confirm) == Reply([Key("Enter", Press)], Some(confirm), false)
  {
  }

  /** `Escaping`: hold `w` for 10 s, release it and mount the board, wait
      20 s, use the board again and search. */
  function EscapeReply(answer: int, board: SlotAnswer): Reply
  {
    if answer == 1 then Reply([Key("w", Hold)], Some(10000), false)
    else if answer == 2 then Reply([Key("w", Release)] + Use(board), Some(20000), false)
    else if answer == 3 then Reply(Use(board), Some(-1), true)
    else Reply([], None, false)
  }

  /** The escape ends exactly at step 3; its three steps release `w` and
      use the board twice. */
  lemma EscapeSpec(board: SlotAnswer)
    ensures forall a :: EscapeReply(a, board).done <==> a == 3
    ensures EscapeReply(1, board).events + EscapeReply(2, board).events + EscapeReply(3, board).events ==
      [Key("w", Hold), Key("w", Release)] + Use(board) + Use(board)
    ensures Released(EscapeReply(1, board).events + EscapeReply(2, board).events + EscapeReply(3, board).events)
  {
    var es := EscapeReply(1, board).events + EscapeReply(2, board).events + EscapeReply(3, board).events;
    assert es == [Key("w", Hold), Key("w", Release)] + Use(board) + Use(board);
    forall i | 0 <= i < |es| && es[i].Key? && es[i].mode == Hold
      ensures exists j :: i < j < |es| && es[j] == Key(es[i].name, Release)
    {
      assert i == 0 && es[1] == Key("w", Release);
    }
  }

  /** One step of the obstacle move as written: `w`, then an arrow held
      with a jump, then an arrow released and the cooldown, then the end.
      Steps 2 and 3 each draw their arrow with `rand.Intn(2)`; `left` is
      this frame's draw, so step 3 releases an arrow of its own choosing,
      not necessarily the one step 2 held. */
  function AvoidReply(answer: int, left: bool, coolDown: int): Reply
  {
    if answer == 1 then Reply([Key("w", Press)], Some(100), false)
    else if answer == 2 then Reply([Key(Arrow(left), Hold), Key(" ", Press)], Some(10), false)
    else if answer == 3 then Reply([Key(Arrow(left), Release)], Some(coolDown), false)
    else if answer == 4 then Reply([], Some(-1), true)
    else Reply([], None, false)
  }

  /** Steps 1 to 3 with the draws `leftHold` (step 2) and `leftRelease`
      (step 3) send the keys of the blocking move of src/farming.go with
      the same two draws, and leave no arrow held exactly when the draws
      agree. */
  lemma AvoidStepsSpec(leftHold: bool, leftRelease: bool, coolDown: int)
    ensures AvoidReply(1, leftHold, coolDown).events + AvoidReply(2, leftHold, coolDown).events +
      AvoidReply(3, leftRelease, coolDown).events == AvoidEventsAsWritten(leftHold, leftRelease)
    ensures (Released(AvoidReply(1, leftHold, coolDown).events + AvoidReply(2, leftHold, coolDown).events +
               AvoidReply(3, leftRelease, coolDown).events)
             <==> leftHold == leftRelease)
  {
    AvoidReleasedIff(leftHold, leftRelease);
  }

  /** The obstacle step as evidently intended: step 3 releases the arrow
      step 2 held (`heldLeft`) instead of drawing a new one. */
  function AvoidReplyIntended(answer: int, left: bool, heldLeft: bool, coolDown: int): Reply
  {
    if answer == 3 then Reply([Key(Arrow(heldLeft), Release)], Some(coolDown), false)
    else AvoidReply(answer, left, coolDown)
  }

  /** The intended steps 1 to 3 always release what they hold, whatever
      step 3's own draw is. */
  lemma AvoidIntendedReleases(left: bool, laterDraw: bool, coolDown: int)
    ensures AvoidReplyIntended(1, left, left, coolDown).events + AvoidReplyIntended(2, left, left, coolDown).events +
      AvoidReplyIntended(3, laterDraw, left, coolDown).events == AvoidEvents(left)
    ensures Released(AvoidReplyIntended(1, left, left, coolDown).events + AvoidReplyIntended(2, left, left, coolDown).events +
      AvoidReplyIntended(3, laterDraw, left, coolDown).events)
  {
    AvoidReleasedIff(left, left);
  }

  /** The fields of a `Farming` loop as a value: what a stage handler
      does is stated between the fields before (`b`) and after (`a`). */
  datatype Memory = Memory(stage: Stage, retryTarget: int, retryState: int, offlineKey: int,
                           sweep: Sweep, careful: bool, forwardUntil: Option<int>,
                           lastHP: int, lastHPUpdate: int, obstacleCount: int, heldLeft: bool,
                           detector: Detector, events: seq<Event>, clock: int, waits: map<string, int>,
                           killed: int, lastKilledTime: int, statusStage: string, attackTime: int)

  /** `AfterEnemyKill`: step 1 counts the kill, stamps its time and waits
      the defeat interval; step 2 picks up and returns to the search; a
      pending wait changes nothing. */
  predicate KillStep(b: Memory, a: Memory, answer: int, pet: SlotAnswer, pick: SlotAnswer, s: Settings)
  {
    if answer == 1 then
      a == b.(killed := b.killed + 1, lastKilledTime := b.clock, waits := b.waits["AfterEnemyKill" := s.defeatInterval])
    else if answer == 2 then
      a == b.(events := b.events + PickupEvents(pet, pick), waits := b.waits["AfterEnemyKill" := -1],
              stage := Stage.SearchingForEnemy)
    else
      a == b
  }

  /** `LastHP` follows a lower reading of the target's HP, and the HP
      timer restarts with it. */
  function TrackHP(b: Memory): (t: Memory)
    ensures t.lastHP == TrackedHP(b.lastHP, b.detector.target.hp)
    ensures t == b.(lastHP := t.lastHP, lastHPUpdate := t.lastHPUpdate)
  {
    var hp := b.detector.target.hp;
    if hp < b.lastHP then b.(lastHP := hp, lastHPUpdate := b.clock) else b
  }

  /** The end of an attack step once no obstacle stopped it: a timed-out
      attack is given up, a dead target leads to the pickup, and otherwise
      the attack slot is used. */
  predicate Finished(m: Memory, a: Memory, attack: SlotAnswer, s: Settings)
  {
    if Exceeded(m.clock, m.attackTime, s.maxTime) then
      a == m.(stage := Stage.SearchingForEnemy, events := m.events + [Key("Escape", Press)])
    else if m.detector.target.hp == 0 || !m.detector.target.alive then
      a == m.(stage := Stage.AfterEnemyKill, obstacleCount := 0)
    else
      a == m.(events := m.events + Use(attack))
  }

  /** One step of the obstacle move as written (`AvoidReply`): step 2
      records the arrow it holds, step 3 counts the attempt and restarts
      the HP timer. */
  predicate AvoidStep(m: Memory, a: Memory, answer: int, left: bool, s: Settings)
  {
    var r := AvoidReply(answer, left, s.obstacleCoolDown);
    a == m.(events := m.events + r.events, waits := SetWait(m.waits, "ObstacleAvoid", r.wait),
            heldLeft := if answer == 2 then left else m.heldLeft,
            obstacleCount := m.obstacleCount + (if answer == 3 then 1 else 0),
            lastHPUpdate := if answer == 3 then m.clock else m.lastHPUpdate)
  }

  /** What an attack step does to a targeted mob that is not an NPC once
      `LastHP` is tracked (`t`): a target stuck past the threshold is
      cancelled (never hit), avoided one step at a time (attempts left,
      ending the frame) or given up; otherwise the attack is finished. */
  predicate Obstructed(t: Memory, a: Memory, attack: SlotAnswer, s: Settings, answer: int, left: bool)
  {
    var outcome := ObstacleCheck(t.clock - t.lastHPUpdate, s.obstacleThresholdTime, t.detector.target.hp,
                                 t.obstacleCount, s.obstacleAvoidCount);
    if outcome == Cancel || outcome == GiveUp then
      a == t.(stage := Stage.SearchingForEnemy, obstacleCount := 0, events := t.events + [Key("Escape", Press)])
    else if outcome == Avoid then
      AvoidStep(t, a, answer, left, s)
    else
      Finished(t, a, attack, s)
  }

  /** The attack step on a targeted mob that is not an NPC. */
  predicate Engaged(b: Memory, a: Memory, attack: SlotAnswer, s: Settings, answer: int, left: bool)
  {
    Obstructed(TrackHP(b), a, attack, s, answer, left)
  }

  /** `Attacking`: a lost target counts a miss (the fifth returns to the
      search); a present target clears the counter, and an NPC is
      cancelled with Escape while any other is engaged. */
  predicate Attacked(b: Memory, a: Memory, attack: SlotAnswer, s: Settings, answer: int, left: bool)
  {
    var t := b.detector.target;
    if !(t.open && t.alive) then
      a == b.(retryTarget := Missed(b.retryTarget).0,
              stage := if Missed(b.retryTarget).1 then Stage.SearchingForEnemy else b.stage)
    else if t.npc then
      a == b.(retryTarget := 0, stage := Stage.SearchingForEnemy, events := b.events + [Key("Escape", Press)])
    else
      Engaged(b.(retryTarget := 0), a, attack, s, answer, left)
  }

  /** The search when mobs are in view: careful mode the first time more
      than seven are seen, else stop walking and click the centre of the
      first aggressive, else passive, else violet mob. */
  predicate Clicked(b: Memory, a: Memory)
  {
    var m := b.detector.mobs;
    if MobCount(m) > 7 && !b.careful then
      a == b.(careful := true, events := b.events + [Key("ArrowUp", Press)])
    else
      FirstMob(m).Some? &&
      var (x, y) := MobCentre(FirstMob(m).value);
      a == b.(forwardUntil := None,
              events := b.events + (if b.forwardUntil.Some? then [Key("w", Release)] else []) + [Click(x, y)])
  }

  /** The search with nothing in view: one turn of the sweep, then the end
      of a forward walk whose deadline has passed. A walk started in this
      frame with in-range draws never ends in it. */
  predicate Swept(b: Memory, a: Memory, s: Settings, d: Draws)
  {
    var turn := TurnOf(b.sweep, s.navigate);
    var fu := if turn == MoveForward then Some(b.clock + (d.forwardSeconds + 20) * 1000) else b.forwardUntil;
    var sw := AfterTurn(b.sweep, turn, d.rotations);
    var e := b.events + (if turn == MoveForward then ForwardEvents(d.jump, d.strafe) else TurnEvents(turn));
    var expired := fu.Some? && b.clock > fu.value;
    a == b.(stage := if turn == StartNavigating then Stage.Navigating else b.stage,
            forwardUntil := if expired then None else fu,
            sweep := if expired then sw.(upAndDown := 1) else sw,
            events := e + (if expired then [Key("w", Release)] else []))
  }

  /** `SearchingForEnemy`: an NPC target is cancelled with Escape; any
      other target starts the attack with its timers reset; otherwise
      mobs in view are clicked, and with none the sweep runs. */
  predicate Searched(b: Memory, a: Memory, s: Settings, d: Draws)
  {
    var t := b.detector.target;
    if t.open && t.alive then
      if t.npc then
        a == b.(events := b.events + [Key("Escape", Press)])
      else
        a == b.(stage := Stage.Attacking, attackTime := b.clock, lastHP := 100, lastHPUpdate := b.clock,
                obstacleCount := 0)
    else if MobCount(b.detector.mobs) > 0 then
      Clicked(b, a)
    else
      Swept(b, a, s, d)
  }

  /** `Escaping`, one step. */
  predicate Escaped(b: Memory, a: Memory, answer: int, board: SlotAnswer)
  {
    var r := EscapeReply(answer, board);
    a == b.(events := b.events + r.events, waits := SetWait(b.waits, "Escaping", r.wait),
            stage := if r.done then Stage.SearchingForEnemy else b.stage)
  }

  /** `Dead`, one step. */
  predicate DeadStep(b: Memory, a: Memory, answer: int, s: Settings)
  {
    var r := DeadReply(answer, b.detector.my.alive, s.deathConfirm);
    a == b.(events := b.events + r.events, waits := SetWait(b.waits, "Dead", r.wait),
            stage := if r.done then Stage.Initializing else b.stage)
  }

  /** `Offline`, one step. */
  predicate OfflineStep(b: Memory, a: Memory, answer: int)
  {
    var r := OfflineReply(b.offlineKey, answer, b.detector.my.open);
    a == b.(offlineKey := OfflineCounter(b.offlineKey, answer, b.detector.my.open),
            events := b.events + r.events, waits := SetWait(b.waits, "Offline", r.wait),
            stage := if r.done then Stage.Initializing else b.stage)
  }

  /** `Initializing`: a reply of 2 clears the context and calls itself
      again, so only the first reply other than 2 acts. */
  predicate Initialized(b: Memory, a: Memory, answers: seq<int>)
    requires Settles(answers)
  {
    var r := InitReply(b.retryState, Settle(answers), b.detector.my.open);
    a == b.(retryState := InitRetry(b.retryState, Settle(answers), b.detector.my.open),
            events := b.events + r.events,
            waits := SetWait(if answers[0] == 2 then b.waits["Initializing" := -1] else b.waits, "Initializing", r.wait),
            stage := if r.done then Stage.SearchingForEnemy else b.stage)
  }

  /** The stages that wait between steps, one step each; the others are
      left alone. */
  predicate Resumed(b: Memory, a: Memory, answer: int, pet: SlotAnswer, pick: SlotAnswer, board: SlotAnswer, s: Settings)
  {
    match b.stage
    case AfterEnemyKill => KillStep(b, a, answer, pet, pick, s)
    case Escaping => Escaped(b, a, answer, board)
    case Dead => DeadStep(b, a, answer, s)
    case Offline => OfflineStep(b, a, answer)
    case _ => a == b
  }

  /** The stage handler `Start` runs, by the stage it finds; Navigating
      only switches to the search. */
  predicate Dispatched(b: Memory, a: Memory, answers: seq<int>, attack: SlotAnswer, pet: SlotAnswer, pick: SlotAnswer,
                       board: SlotAnswer, s: Settings, d: Draws, left: bool)
    requires |answers| > 0
  {
    match b.stage
    case Initializing => Settles(answers) && Initialized(b, a, answers)
    case SearchingForEnemy => Searched(b, a, s, d)
    case Attacking => Attacked(b, a, attack, s, answers[0], left)
    case Navigating => a == b.(stage := Stage.SearchingForEnemy)
    case _ => Resumed(b, a, answers[0], pet, pick, board, s)
  }

  /** The stage graph of the loop: each handler moves only to the stages
      the source names, and only ever appends to the event log. */
  lemma DispatchedStages(b: Memory, a: Memory, answers: seq<int>, attack: SlotAnswer, pet: SlotAnswer,
                         pick: SlotAnswer, board: SlotAnswer, s: Settings, d: Draws, left: bool)
    requires |answers| > 0 && Dispatched(b, a, answers, attack, pet, pick, board, s, d, left)
    ensures b.events <= a.events
    ensures b.stage == Stage.Initializing ==> a.stage in {Stage.Initializing, Stage.SearchingForEnemy}
    ensures b.stage == Stage.SearchingForEnemy ==>
              a.stage in {Stage.SearchingForEnemy, Stage.Attacking, Stage.Navigating}
    ensures b.stage == Stage.Attacking ==>
              a.stage in {Stage.Attacking, Stage.SearchingForEnemy, Stage.AfterEnemyKill}
    ensures b.stage == Stage.AfterEnemyKill ==> a.stage in {Stage.AfterEnemyKill, Stage.SearchingForEnemy}
    ensures b.stage == Stage.Escaping ==> a.stage in {Stage.Escaping, Stage.SearchingForEnemy}
    ensures b.stage == Stage.Navigating ==> a.stage == Stage.SearchingForEnemy
    ensures b.stage == Stage.Dead ==> a.stage in {Stage.Dead, Stage.Initializing}
    ensures b.stage == Stage.Offline ==> a.stage in {Stage.Offline, Stage.Initializing}
  {
    match b.stage
    case Attacking =>
      var t := b.detector.target;
      if t.open && t.alive && !t.npc {
        ObstructedStages(TrackHP(b.(retryTarget := 0)), a, attack, s, answers[0], left);
      }
    case SearchingForEnemy =>
      if !(b.detector.target.open && b.detector.target.alive) && MobCount(b.detector.mobs) > 0 {
        assert Clicked(b, a);
      }
    case _ =>
  }

  /** The attack on a stuck or free target stays in the attack, or moves to
      the search or the pickup, and only appends events. */
  lemma ObstructedStages(t: Memory, a: Memory, attack: SlotAnswer, s: Settings, answer: int, left: bool)
    requires Obstructed(t, a, attack, s, answer, left)
    ensures t.events <= a.events
    ensures a.stage in {t.stage, Stage.SearchingForEnemy, Stage.AfterEnemyKill}
  {
  }

  class Farming {
    var stage: Stage
    /** `Retry`: `Target`, `State` and `OfflineKeyEvent`. */
    var retryTarget: int
    var retryState: int
    var offlineKey: int
    /** `SearchingEnemy`: the sweep, careful mode and the forward deadline
        (None for the zero time). */
    var sweep: Sweep
    var careful: bool
    var forwardUntil: Option<int>
    /** `Target`. */
    var lastHP: int
    var lastHPUpdate: int
    /** `Obstacle.Count`. */
    var obstacleCount: int
    /** The arrow the obstacle move's step 2 held; the source keeps no
        record of it. */
    ghost var heldLeft: bool
    /** The latest detector readings. */
    var detector: Detector
    /** The browser events sent so far. */
    var events: seq<Event>
    /** The wall clock of the current frame, in ms. */
    var clock: int
    /** The latest `SetupWaitCtx` duration per context name. */
    var waits: map<string, int>
    /** The configuration status fields these stages read and write:
        `Player.Killed`, `Player.LastKilledTime`, `Player.Stage` and
        `Attack.AttackTime`. */
    var killed: int
    var lastKilledTime: int
    var statusStage: string
    var attackTime: int

    /** `NewFarming`: everything zero and the stage Initializing. */
    constructor (d: Detector, now: int, killedSoFar: int, lastKill: int)
      ensures stage == Stage.Initializing && retryTarget == 0 && retryState == 0 && offlineKey == 0
      ensures sweep == Sweep(0, false, 0) && !careful && forwardUntil == None
      ensures lastHP == 0 && lastHPUpdate == 0 && obstacleCount == 0 && !heldLeft
      ensures detector == d && events == [] && clock == now && waits == map[]
      ensures killed == killedSoFar && lastKilledTime == lastKill && statusStage == "" && attackTime == 0
    {
      stage := Stage.Initializing;
      retryTarget := 0;
      retryState := 0;
      offlineKey := 0;
      sweep := Sweep(0, false, 0);
      careful := false;
      forwardUntil := None;
      lastHP := 0;
      lastHPUpdate := 0;
      obstacleCount := 0;
      heldLeft := false;
      detector := d;
      events := [];
      clock := now;
      waits := map[];
      killed := killedSoFar;
      lastKilledTime := lastKill;
      statusStage := "";
      attackTime := 0;
    }

    ghost function Memo(): Memory
      reads this
    {
      Memory(stage, retryTarget, retryState, offlineKey, sweep, careful, forwardUntil, lastHP, lastHPUpdate,
             obstacleCount, heldLeft, detector, events, clock, waits, killed, lastKilledTime, statusStage, attackTime)
    }

    /** `UseSlot`: the page key when the page changes, then the slot key. */
    method UseSlot(a: SlotAnswer)
      modifies this`events
      ensures events == old(events) + SlotPresses(a)
    {
      if a.page != -1 {
        events := events + [PageKey(a.page)];
      }
      events := events + [SlotKey(a.slot)];
    }

    method UseIf(wanted: bool, a: SlotAnswer)
      modifies this`events
      ensures events == old(events) + (if wanted then Use(a) else [])
    {
      if wanted && Available(a) {
        UseSlot(a);
      }
    }

    /** The HP part of `Restore`: food, else the pill, else escape when
        HP is below the escape threshold. */
    method RestoreHP(slots: RestoreSlots, s: Settings)
      modifies this`stage, this`events
      ensures stage == (if MustEscape(detector.my, slots, s.escapeHP) then Stage.Escaping else old(stage))
      ensures events == old(events) + HPEvents(detector.my, slots)
    {
      var v := detector.my;
      if v.hp < 100 {
        if Available(slots.food) {
          UseSlot(slots.food);
        } else if Available(slots.pill) {
          UseSlot(slots.pill);
        } else if v.hp < s.escapeHP {
          stage := Stage.Escaping;
        }
      }
    }

    /** The MP, FP and buff part of `Restore`. */
    method TopUp(slots: RestoreSlots)
      modifies this`events
      ensures events == old(events) + TopUpEvents(detector.my, slots)
    {
      var v := detector.my;
      ghost var e0 := events;
      ghost var m := if v.mp < 100 then Use(slots.mp) else [];
      ghost var f := if v.fp < 100 then Use(slots.fp) else [];
      UseIf(v.mp < 100, slots.mp);
      UseIf(v.fp < 100, slots.fp);
      AppendAssoc(e0, m, f);
      UseIf(true, slots.buff);
      AppendAssoc(e0, m + f, Use(slots.buff));
    }

    /** The restoring part of `Restore`. */
    method Replenish(slots: RestoreSlots, s: Settings)
      modifies this`stage, this`events
      ensures stage == (if MustEscape(detector.my, slots, s.escapeHP) then Stage.Escaping else old(stage))
      ensures events == old(events) + Replenishment(detector.my, slots)
    {
      ghost var e0 := events;
      RestoreHP(slots, s);
      TopUp(slots);
      AppendAssoc(e0, HPEvents(detector.my, slots), TopUpEvents(detector.my, slots));
    }

    /** `Restore`: the closed bar, death and the watchdog switch stage
        first; the stages that skip restoration stop there. */
    method Restore(slots: RestoreSlots, s: Settings)
      modifies this`stage, this`events
      ensures var watchdog := Exceeded(clock, lastKilledTime, s.watchDogTime);
        stage == RestoreStage(old(stage), detector.my, watchdog, slots, s.escapeHP) &&
        events == old(events) + RestoreEvents(old(stage), detector.my, watchdog, slots)
    {
      var v := detector.my;
      if !v.open {
        stage := Stage.Initializing;
        return;
      }
      if !v.alive {
        stage := Stage.Dead;
        return;
      }
      if Exceeded(clock, lastKilledTime, s.watchDogTime) {
        stage := Stage.Offline;
        return;
      }
      if stage == Stage.Dead || stage == Stage.Initializing || stage == Stage.Offline {
        return;
      }
      Replenish(slots, s);
    }

    /** The pickup: the pet, or ten pickups. */
    method Pickup(pet: SlotAnswer, pick: SlotAnswer)
      modifies this`events
      ensures events == old(events) + PickupEvents(pet, pick)
    {
      if Available(pet) {
        UseSlot(pet);
      } else if Available(pick) {
        var i := 0;
        while i < 10
          invariant 0 <= i <= 10
          invariant events == old(events) + Repeat(SlotPresses(pick), i)
        {
          UseSlot(pick);
          i := i + 1;
        }
      }
    }

    /** `AfterEnemyKill`: step 1 counts the kill and waits the defeat
        interval; step 2 picks up and returns to the search. */
    method AfterEnemyKill(answer: int, pet: SlotAnswer, pick: SlotAnswer, s: Settings)
      modifies this`killed, this`lastKilledTime, this`events, this`waits, this`stage
      ensures KillStep(old(Memo()), Memo(), answer, pet, pick, s)
    {
      if answer == 1 {
        killed := killed + 1;
        lastKilledTime := clock;
        waits := waits["AfterEnemyKill" := s.defeatInterval];
      } else if answer == 2 {
        Pickup(pet, pick);
        waits := waits["AfterEnemyKill" := -1];
        stage := Stage.SearchingForEnemy;
      }
    }

    /** One step of the obstacle move, `left` being this frame's
        `rand.Intn(2)` draw; step 3 counts the attempt and restarts the HP
        timer, and releases the held arrow only when its draw matches. */
    method AvoidObstacle(answer: int, left: bool, s: Settings)
      modifies this`events, this`waits, this`obstacleCount, this`lastHPUpdate, this`heldLeft
      ensures AvoidStep(old(Memo()), Memo(), answer, left, s)
      ensures answer == 3 ==>
        (events[|events| - 1] == Key(Arrow(old(heldLeft)), Release) <==> left == old(heldLeft))
    {
      if answer == 1 {
        events := events + [Key("w", Press)];
        waits := waits["ObstacleAvoid" := 100];
      } else if answer == 2 {
        events := events + [Key(Arrow(left), Hold), Key(" ", Press)];
        heldLeft := left;
        waits := waits["ObstacleAvoid" := 10];
      } else if answer == 3 {
        events := events + [Key(Arrow(left), Release)];
        obstacleCount := obstacleCount + 1;
        lastHPUpdate := clock;
        waits := waits["ObstacleAvoid" := s.obstacleCoolDown];
      } else if answer == 4 {
        waits := waits["ObstacleAvoid" := -1];
      }
    }

    /** The end of an attack step once no obstacle stopped it: give up on
        a timeout, move on after a kill, else strike. */
    method FinishAttack(attack: SlotAnswer, s: Settings)
      modifies this`stage, this`events, this`obstacleCount
      ensures Finished(old(Memo()), Memo(), attack, s)
    {
      if Exceeded(clock, attackTime, s.maxTime) {
        events := events + [Key("Escape", Press)];
        stage := Stage.SearchingForEnemy;
        return;
      }
      if detector.target.hp == 0 || !detector.target.alive {
        stage := Stage.AfterEnemyKill;
        obstacleCount := 0;
        return;
      }
      if Available(attack) {
        UseSlot(attack);
      }
    }

    method Engage(attack: SlotAnswer, s: Settings, answer: int, left: bool)
      modifies this`stage, this`events, this`waits, this`obstacleCount, this`lastHP, this`lastHPUpdate, this`heldLeft
      ensures Engaged(old(Memo()), Memo(), attack, s, answer, left)
    {
      var hp := detector.target.hp;
      if hp < lastHP {
        lastHP := hp;
        lastHPUpdate := clock;
      }
      assert Memo() == TrackHP(old(Memo()));
      Unstick(attack, s, answer, left);
    }

    /** A target whose HP has not changed for longer than the threshold is
        cancelled when never hit, given one step of the obstacle move while
        attempts are left, and given up otherwise; a target not stuck is
        attacked. */
    method Unstick(attack: SlotAnswer, s: Settings, answer: int, left: bool)
      modifies this`stage, this`events, this`waits, this`obstacleCount, this`lastHPUpdate, this`heldLeft
      ensures Obstructed(old(Memo()), Memo(), attack, s, answer, left)
    {
      var outcome := ObstacleCheck(clock - lastHPUpdate, s.obstacleThresholdTime, detector.target.hp,
                                   obstacleCount, s.obstacleAvoidCount);
      if outcome == Cancel || outcome == GiveUp {
        events := events + [Key("Escape", Press)];
        stage := Stage.SearchingForEnemy;
        obstacleCount := 0;
      } else if outcome == Avoid {
        AvoidObstacle(answer, left, s);
      } else {
        FinishAttack(attack, s);
      }
    }

    /** `Attacking`, with `answer` the obstacle move's step and `left` the
        arrow it would hold. */
    method Attacking(attack: SlotAnswer, s: Settings, answer: int, left: bool)
      modifies this`stage, this`events, this`waits, this`obstacleCount, this`retryTarget,
        this`lastHP, this`lastHPUpdate, this`heldLeft
      ensures Attacked(old(Memo()), Memo(), attack, s, answer, left)
    {
      var t := detector.target;
      if !(t.open && t.alive) {
        retryTarget := retryTarget + 1;
        if retryTarget >= 5 {
          retryTarget := 0;
          stage := Stage.SearchingForEnemy;
        }
        return;
      }
      retryTarget := 0;
      if t.npc {
        events := events + [Key("Escape", Press)];
        stage := Stage.SearchingForEnemy;
        return;
      }
      assert Memo() == old(Memo()).(retryTarget := 0);
      Engage(attack, s, answer, left);
    }

    method ClickMob()
      requires MobCount(detector.mobs) > 0
      modifies this`events, this`careful, this`forwardUntil
      ensures Clicked(old(Memo()), Memo())
    {
      var m := detector.mobs;
      if MobCount(m) > 7 && !careful {
        events := events + [Key("ArrowUp", Press)];
        careful := true;
        return;
      }
      if forwardUntil.Some? {
        events := events + [Key("w", Release)];
        forwardUntil := None;
      }
      var target := FirstMob(m);
      var (x, y) := MobCentre(target.value);
      events := events + [Click(x, y)];
    }

    /** One turn of the sweep; a forward walk lasts 20 to 40 s. */
    method Turn(s: Settings, d: Draws)
      modifies this`events, this`sweep, this`forwardUntil, this`stage
      ensures var turn := TurnOf(old(sweep), s.navigate);
        stage == (if turn == StartNavigating then Stage.Navigating else old(stage)) &&
        sweep == AfterTurn(old(sweep), turn, d.rotations) &&
        (turn == MoveForward ==>
           events == old(events) + ForwardEvents(d.jump, d.strafe) &&
           forwardUntil == Some(clock + (d.forwardSeconds + 20) * 1000)) &&
        (turn != MoveForward ==>
           events == old(events) + TurnEvents(turn) && forwardUntil == old(forwardUntil))
    {
      var turn := TurnOf(sweep, s.navigate);
      if turn == StartNavigating {
        stage := Stage.Navigating;
      } else if turn == MoveForward {
        events := events + [Key("w", Hold)];
        forwardUntil := Some(clock + (d.forwardSeconds + 20) * 1000);
        if d.jump == 1 {
          events := events + [Key(" ", Press)];
        }
        events := events + StrafeEvents(d.strafe);
        sweep := Sweep(1, !sweep.reverse, sweep.count);
      } else {
        events := events + TurnEvents(turn);
        sweep := AfterTurn(sweep, turn, d.rotations);
      }
    }

    /** The end of a forward walk whose deadline has passed. */
    method StopExpiredWalk()
      modifies this`events, this`sweep, this`forwardUntil
      ensures var expired := old(forwardUntil).Some? && clock > old(forwardUntil).value;
        forwardUntil == (if expired then None else old(forwardUntil)) &&
        sweep == (if expired then old(sweep).(upAndDown := 1) else old(sweep)) &&
        events == old(events) + (if expired then [Key("w", Release)] else [])
    {
      if forwardUntil.Some? && clock > forwardUntil.value {
        events := events + [Key("w", Release)];
        forwardUntil := None;
        sweep := sweep.(upAndDown := 1);
      }
    }

    method Sweeping(s: Settings, d: Draws)
      modifies this`events, this`sweep, this`forwardUntil, this`stage
      ensures Swept(old(Memo()), Memo(), s, d)
    {
      Turn(s, d);
      StopExpiredWalk();
    }

    method SearchingForEnemy(s: Settings, d: Draws)
      modifies this`events, this`sweep, this`forwardUntil, this`stage, this`careful,
        this`attackTime, this`lastHP, this`lastHPUpdate, this`obstacleCount
      ensures Searched(old(Memo()), Memo(), s, d)
    {
      var t := detector.target;
      if t.open && t.alive {
        if t.npc {
          events := events + [Key("Escape", Press)];
          return;
        }
        attackTime := clock;
        lastHP := 100;
        lastHPUpdate := clock;
        obstacleCount := 0;
        stage := Stage.Attacking;
        return;
      }
      if MobCount(detector.mobs) > 0 {
        ClickMob();
        return;
      }
      Sweeping(s, d);
    }

    /** `Escaping`, one step. */
    method Escaping(answer: int, board: SlotAnswer)
      modifies this`events, this`waits, this`stage
      ensures Escaped(old(Memo()), Memo(), answer, board)
    {
      if answer == 1 {
        events := events + [Key("w", Hold)];
        waits := waits["Escaping" := 10000];
      } else if answer == 2 {
        events := events + [Key("w", Release)];
        UseIf(true, board);
        waits := waits["Escaping" := 20000];
      } else if answer == 3 {
        UseIf(true, board);
        waits := waits["Escaping" := -1];
        stage := Stage.SearchingForEnemy;
      }
    }

    /** `Dead`, one step. */
    method Dead(answer: int, s: Settings)
      modifies this`events, this`waits, this`stage
      ensures DeadStep(old(Memo()), Memo(), answer, s)
    {
      if answer == 1 {
        events := events + [Key("Enter", Press)];
        waits := waits["Dead" := s.deathConfirm];
      } else if answer == 2 {
        if detector.my.alive {
          waits := waits["Dead" := -1];
          stage := Stage.Initializing;
        } else {
          events := events + [Key("Enter", Press)];
          waits := waits["Dead" := s.deathConfirm];
        }
      }
    }

    /** `Offline`, one step. */
    method Offline(answer: int)
      modifies this`events, this`waits, this`stage, this`offlineKey
      ensures OfflineStep(old(Memo()), Memo(), answer)
    {
      if answer == 1 {
        events := events + [Refresh];
        waits := waits["Offline" := 5000];
        offlineKey := 1;
      } else if answer == 2 {
        if detector.my.open {
          offlineKey := 31;
          waits := waits["Offline" := 0];
          return;
        }
        if offlineKey <= 30 {
          events := events + [Key("Enter", Press)];
          offlineKey := offlineKey + 1;
          waits := waits["Offline" := 1000];
        } else {
          waits := waits["Offline" := 0];
        }
      } else if answer == 3 {
        if offlineKey <= 40 {
          events := events + [Key("Escape", Press)];
          offlineKey := offlineKey + 1;
          waits := waits["Offline" := 1000];
        } else {
          waits := waits["Offline" := 0];
        }
      } else if answer == 4 {
        waits := waits["Offline" := -1];
        offlineKey := 0;
        stage := Stage.Initializing;
      }
    }

    /** `Initializing`: a reply of 2 clears the context and calls itself
        again, so only the first reply other than 2 acts. */
    method Initializing(answers: seq<int>) returns (ready: bool)
      requires Settles(answers)
      modifies this`events, this`waits, this`stage, this`retryState
      decreases |answers|
      ensures ready == InitReply(old(retryState), Settle(answers), detector.my.open).done
      ensures Initialized(old(Memo()), Memo(), answers)
    {
      if answers[0] == 2 {
        waits := waits["Initializing" := -1];
        ready := Initializing(answers[1..]);
        return;
      }
      if answers[0] == 1 {
        if detector.my.open {
          waits := waits["Initializing" := -1];
          retryState := 0;
          stage := Stage.SearchingForEnemy;
          return true;
        }
        retryState := retryState + 1;
        if retryState > 5 {
          events := events + [Key("t", Press)];
          retryState := 0;
        }
        waits := waits["Initializing" := 5000];
      }
      return false;
    }

    /** The handlers of the stages that wait between steps. */
    method Resume(answer: int, pet: SlotAnswer, pick: SlotAnswer, board: SlotAnswer, s: Settings)
      modifies this`events, this`waits, this`stage, this`offlineKey, this`killed, this`lastKilledTime
      ensures Resumed(old(Memo()), Memo(), answer, pet, pick, board, s)
    {
      match stage {
        case AfterEnemyKill =>
          AfterEnemyKill(answer, pet, pick, s);
        case Escaping =>
          Escaping(answer, board);
        case Dead =>
          Dead(answer, s);
        case Offline =>
          Offline(answer);
        case _ =>
      }
    }

    /** The stage handler `Start` runs after `Restore`; `answers` are the
        wait-context replies of this frame, of which every stage but
        Initializing uses the first. */
    method Dispatch(answers: seq<int>, attack: SlotAnswer, pet: SlotAnswer, pick: SlotAnswer, board: SlotAnswer,
                    s: Settings, d: Draws, left: bool)
      requires |answers| > 0
      requires stage == Stage.Initializing ==> Settles(answers)
      modifies this
      ensures Dispatched(old(Memo()), Memo(), answers, attack, pet, pick, board, s, d, left)
    {
      match stage {
        case Initializing =>
          var _ := Initializing(answers);
        case SearchingForEnemy =>
          SearchingForEnemy(s, d);
        case Attacking =>
          Attacking(attack, s, answers[0], left);
        case Navigating =>
          stage := Stage.SearchingForEnemy;
        case _ =>
          Resume(answers[0], pet, pick, board, s);
      }
    }

    /** The start of an iteration of `Start` at time `now` with a
        captured frame: new bar readings, new mobs only while searching or
        navigating, then restoration and the stage name written to the
        status. */
    method Prepare(now: int, my: Vitals, target: TargetView, mobs: Mobs, slots: RestoreSlots, s: Settings)
      modifies this`clock, this`detector, this`stage, this`events, this`statusStage
      ensures var watchdog := Exceeded(now, old(lastKilledTime), s.watchDogTime);
        var restored := RestoreStage(old(stage), my, watchdog, slots, s.escapeHP);
        Memo() == old(Memo()).(
          clock := now,
          detector := old(detector).(my := my, target := target,
            mobs := if old(stage) == Stage.SearchingForEnemy || old(stage) == Stage.Navigating then mobs else old(detector.mobs)),
          stage := restored,
          events := old(events) + RestoreEvents(old(stage), my, watchdog, slots),
          statusStage := Name(restored))
    {
      Sense(now, my, target, mobs);
      ghost var sensed := Memo();
      Restore(slots, s);
      assert Memo() == sensed.(stage := stage, events := events);
      statusStage := Name(stage);
    }

    /** The frame's readings: the clock, the bars, and the mobs only while
        searching or navigating. */
    method Sense(now: int, my: Vitals, target: TargetView, mobs: Mobs)
      modifies this`clock, this`detector
      ensures Memo() == old(Memo()).(
          clock := now,
          detector := old(detector).(my := my, target := target,
            mobs := if stage == Stage.SearchingForEnemy || stage == Stage.Navigating then mobs else old(detector.mobs)))
    {
      clock := now;
      if stage == Stage.SearchingForEnemy || stage == Stage.Navigating {
        detector := detector.(my := my, target := target, mobs := mobs);
      } else {
        detector := detector.(my := my, target := target);
      }
    }

    /** One iteration of `Start`: `Prepare`, then the stage's handler;
        `restored` is the loop once prepared. */
    method Step(now: int, my: Vitals, target: TargetView, mobs: Mobs, slots: RestoreSlots,
                answers: seq<int>, attack: SlotAnswer, pet: SlotAnswer, pick: SlotAnswer, board: SlotAnswer,
                s: Settings, d: Draws, left: bool)
      returns (ghost restored: Memory)
      requires |answers| > 0
      requires RestoreStage(stage, my, Exceeded(now, lastKilledTime, s.watchDogTime), slots, s.escapeHP) == Stage.Initializing ==>
        Settles(answers)
      modifies this
      ensures var watchdog := Exceeded(now, old(lastKilledTime), s.watchDogTime);
        var stage' := RestoreStage(old(stage), my, watchdog, slots, s.escapeHP);
        restored == old(Memo()).(
          clock := now,
          detector := old(detector).(my := my, target := target,
            mobs := if old(stage) == Stage.SearchingForEnemy || old(stage) == Stage.Navigating then mobs else old(detector.mobs)),
          stage := stage',
          events := old(events) + RestoreEvents(old(stage), my, watchdog, slots),
          statusStage := Name(stage'))
      ensures Dispatched(restored, Memo(), answers, attack, pet, pick, board, s, d, left)
    {
      Prepare(now, my, target, mobs, slots, s);
      restored := Memo();
      Dispatch(answers, attack, pet, pick, board, s, d, left);
    }
  }
}
