/** The decisions shared by the two stage-machine farming loops,
    src/farming.go and src2/farming.go, which carry the same stage enum,
    the same restoration priorities, the same lost-target counter, the
    same obstacle handling and the same rotation search.  Key presses are
    events in a trace; the answers of the slot lookup are inputs. */
module FarmStages {
  import opened Wrappers
  import opened GoInt
  import Detect

  datatype Stage = Initializing | NoEnemyFound | SearchingForEnemy | Navigating | EnemyFound
                 | Attacking | Escaping | AfterEnemyKill | Dead | Offline

  /** The `iota` value of each stage. */
  function Code(s: Stage): (n: int)
    ensures 0 <= n < 10
  {
    match s
    case Initializing => 0
    case NoEnemyFound => 1
    case SearchingForEnemy => 2
    case Navigating => 3
    case EnemyFound => 4
    case Attacking => 5
    case Escaping => 6
    case AfterEnemyKill => 7
    case Dead => 8
    case Offline => 9
  }

  function StageOf(n: int): Option<Stage>
  {
    if n == 0 then Some(Initializing)
    else if n == 1 then Some(NoEnemyFound)
    else if n == 2 then Some(SearchingForEnemy)
    else if n == 3 then Some(Navigating)
    else if n == 4 then Some(EnemyFound)
    else if n == 5 then Some(Attacking)
    else if n == 6 then Some(Escaping)
    else if n == 7 then Some(AfterEnemyKill)
    else if n == 8 then Some(Dead)
    else if n == 9 then Some(Offline)
    else None
  }

  /** Codes and stages correspond one to one. */
  lemma CodesRoundTrip(s: Stage, n: int)
    ensures StageOf(Code(s)) == Some(s)
    ensures StageOf(n).Some? <==> 0 <= n < 10
    ensures StageOf(n).Some? ==> Code(StageOf(n).value) == n
  {
  }

  function Name(s: Stage): string
  {
    match s
    case Initializing => "Initializing"
    case NoEnemyFound => "NoEnemyFound"
    case SearchingForEnemy => "SearchingForEnemy"
    case Navigating => "Navigating"
    case EnemyFound => "EnemyFound"
    case Attacking => "Attacking"
    case Escaping => "Escaping"
    case AfterEnemyKill => "AfterEnemyKill"
    case Dead => "Dead"
    case Offline => "Offline"
  }

  /** `Stage.String` on the underlying integer. */
  function StageString(n: int): string
  {
    if StageOf(n).Some? then Name(StageOf(n).value) else "Unknown"
  }

  /** "Unknown" is exactly the answer outside the ten codes, and the ten
      names are pairwise different. */
  lemma StageStringSpec(a: int, b: int)
    ensures StageString(a) == "Unknown" <==> !(0 <= a < 10)
    ensures 0 <= a < 10 && 0 <= b < 10 && StageString(a) == StageString(b) ==> a == b
  {
  }

  // ---------------------------------------------------------------------
  // Events and slot answers

  datatype Mode = Press | Hold | Release

  /** What is sent to the browser: a named key, the page key `F<page>`,
      the slot key `<slot>`, a click, a page refresh. */
  datatype Event = Key(name: string, mode: Mode) | PageKey(page: int) | SlotKey(slot: int)
                 | Click(x: int, y: int) | Refresh

  /** An answer of the slot lookup: (-1, -1) means nothing available. */
  datatype SlotAnswer = SlotAnswer(page: int, slot: int)

  predicate Available(a: SlotAnswer)
  {
    a.page != -1 || a.slot != -1
  }

  /** `UseSlot`: the page key when a page is given, then the slot key. */
  function SlotPresses(a: SlotAnswer): (es: seq<Event>)
    ensures |es| == (if a.page != -1 then 2 else 1)
    ensures es[|es| - 1] == SlotKey(a.slot)
  {
    (if a.page != -1 then [PageKey(a.page)] else []) + [SlotKey(a.slot)]
  }

  /** A slot used only when the lookup found one. */
  function Use(a: SlotAnswer): (es: seq<Event>)
    ensures es == [] <==> !Available(a)
  {
    if Available(a) then SlotPresses(a) else []
  }

  // ---------------------------------------------------------------------
  // Detector readings and settings

  datatype Vitals = Vitals(open: bool, alive: bool, hp: int, mp: int, fp: int)
  datatype TargetView = TargetView(open: bool, alive: bool, npc: bool, hp: int, mp: int)
  datatype Mobs = Mobs(aggressive: seq<Detect.MobsPosition>, passive: seq<Detect.MobsPosition>,
                       violet: seq<Detect.MobsPosition>)
  datatype Detector = Detector(my: Vitals, target: TargetView, mobs: Mobs)

  /** The `Stat` settings read here; times are milliseconds except
      `watchDogTime` and `maxTime`, which are seconds; `statType` is
      `Stat.Type`. */
  datatype Settings = Settings(
    watchDogTime: int,
    escapeHP: int,
    obstacleThresholdTime: int,
    obstacleAvoidCount: int,
    obstacleCoolDown: int,
    maxTime: int,
    defeatInterval: int,
    navigate: bool,
    buffInterval: int,
    deathConfirm: int,
    statType: int)

  /** The answers of the slot lookups for the restoration step. */
  datatype RestoreSlots = RestoreSlots(food: SlotAnswer, pill: SlotAnswer, mp: SlotAnswer,
                                       fp: SlotAnswer, buff: SlotAnswer)

  /** More than `seconds` seconds since `since`, on a millisecond clock. */
  predicate Exceeded(now: int, since: int, seconds: int)
  {
    now - since > 1000 * seconds
  }

  // ---------------------------------------------------------------------
  // Restoration

  predicate RestoreSkipped(s: Stage)
  {
    s == Dead || s == Initializing || s == Offline
  }

  /** Whether low HP makes the player flee: nothing to eat or drink and HP
      below the escape threshold. */
  predicate MustEscape(v: Vitals, slots: RestoreSlots, escapeHP: int)
  {
    v.hp < 100 && !Available(slots.food) && !Available(slots.pill) && v.hp < escapeHP
  }

  function RestoreStage(stage: Stage, v: Vitals, watchdog: bool, slots: RestoreSlots, escapeHP: int): Stage
  {
    if !v.open then Initializing
    else if !v.alive then Dead
    else if watchdog then Offline
    else if RestoreSkipped(stage) then stage
    else if MustEscape(v, slots, escapeHP) then Escaping
    else stage
  }

  /** Whether restoration runs at all: bar open, alive, no watchdog
      timeout and a stage that restores. */
  predicate Restores(stage: Stage, v: Vitals, watchdog: bool)
  {
    v.open && v.alive && !watchdog && !RestoreSkipped(stage)
  }

  /** The HP part: food, else the pill, when HP is below 100. */
  function HPEvents(v: Vitals, slots: RestoreSlots): seq<Event>
  {
    if v.hp < 100 then (if Available(slots.food) then SlotPresses(slots.food) else Use(slots.pill)) else []
  }

  /** What a restoring `Restore` presses: HP, MP and FP below 100, then a
      buff. */
  function Replenishment(v: Vitals, slots: RestoreSlots): seq<Event>
  {
    HPEvents(v, slots) + TopUpEvents(v, slots)
  }

  /** The MP, FP and buff part of a restoration. */
  function TopUpEvents(v: Vitals, slots: RestoreSlots): seq<Event>
  {
    (if v.mp < 100 then Use(slots.mp) else [])
    + (if v.fp < 100 then Use(slots.fp) else [])
    + Use(slots.buff)
  }

  lemma AppendAssoc(a: seq<Event>, b: seq<Event>, c: seq<Event>)
    ensures a + b + c == a + (b + c)
  {
  }

  function RestoreEvents(stage: Stage, v: Vitals, watchdog: bool, slots: RestoreSlots): seq<Event>
  {
    if !Restores(stage, v, watchdog) then [] else Replenishment(v, slots)
  }

  /** The checks come in the order closed bar, death, watchdog; a stage
      that skips restoration is kept and nothing is pressed; otherwise the
      only stage change is to Escaping, which needs HP below 100 and below
      the escape threshold with neither food nor pill available. */
  lemma RestoreSpec(stage: Stage, v: Vitals, watchdog: bool, slots: RestoreSlots, escapeHP: int)
    ensures !v.open ==> RestoreStage(stage, v, watchdog, slots, escapeHP) == Initializing
    ensures v.open && !v.alive ==> RestoreStage(stage, v, watchdog, slots, escapeHP) == Dead
    ensures v.open && v.alive && watchdog ==> RestoreStage(stage, v, watchdog, slots, escapeHP) == Offline
    ensures !Restores(stage, v, watchdog) ==> RestoreEvents(stage, v, watchdog, slots) == []
    ensures v.open && v.alive && !watchdog && RestoreSkipped(stage) ==>
      RestoreStage(stage, v, watchdog, slots, escapeHP) == stage
    ensures var next := RestoreStage(stage, v, watchdog, slots, escapeHP);
      Restores(stage, v, watchdog) && next != stage ==>
        next == Escaping && v.hp < 100 && v.hp < escapeHP && !Available(slots.food) && !Available(slots.pill)
  {
  }

  /** When restoring with HP below 100 and food available, the food is
      pressed first and the pill not at all; with everything full only
      the buff is used. */
  lemma ReplenishmentSpec(v: Vitals, slots: RestoreSlots)
    ensures v.hp < 100 && Available(slots.food) ==>
      Replenishment(v, slots)[..|SlotPresses(slots.food)|] == SlotPresses(slots.food)
    ensures v.hp < 100 && !Available(slots.food) ==> HPEvents(v, slots) == Use(slots.pill)
    ensures v.hp >= 100 && v.mp >= 100 && v.fp >= 100 ==> Replenishment(v, slots) == Use(slots.buff)
  {
    if v.hp < 100 && Available(slots.food) {
      var f := SlotPresses(slots.food);
      var rest := TopUpEvents(v, slots);
      assert Replenishment(v, slots) == f + rest;
      assert (f + rest)[..|f|] == f;
    }
  }

  // ---------------------------------------------------------------------
  // Losing the target while attacking

  /** One check without a target: the counter and whether the search
      starts again. */
  function Missed(retry: int): (int, bool)
  {
    if retry + 1 >= 5 then (0, true) else (retry + 1, false)
  }

  /** The counter and the number of returns to the search after `k`
      checks in a row without a target. */
  function Misses(retry: int, k: nat): (int, nat)
  {
    if k == 0 then (retry, 0)
    else
      var (r, n) := Misses(retry, k - 1);
      var (r2, back) := Missed(r);
      (r2, n + (if back then 1 else 0))
  }

  /** From a reset counter, every fifth consecutive miss returns to the
      search and the counter holds the misses since. */
  lemma {:induction false} MissesSpec(k: nat)
    ensures Misses(0, k) == (k % 5, k / 5)
  {
    if k > 0 {
      MissesSpec(k - 1);
    }
  }

  /** `LastHP` only ever goes down: it follows the reading when the
      reading is lower. */
  function TrackedHP(last: int, hp: int): (r: int)
  {
    if hp < last then hp else last
  }

  lemma TrackedHPSpec(last: int, hp: int)
    ensures TrackedHP(last, hp) == Min(last, hp)
    ensures TrackedHP(last, hp) < last <==> hp < last
    ensures TrackedHP(TrackedHP(last, hp), hp) == TrackedHP(last, hp)
  {
  }

  // ---------------------------------------------------------------------
  // Obstacles

  datatype ObstacleOutcome = NotStuck | Cancel | Avoid | GiveUp

  /** What an attack does when the target HP has not moved for
      `stalled` ms: nothing below the threshold; a target never hit is
      cancelled; otherwise avoid while attempts remain, then give up. */
  function ObstacleCheck(stalled: int, threshold: int, hp: int, count: int, limit: int): ObstacleOutcome
  {
    if stalled <= threshold then NotStuck
    else if hp == 100 then Cancel
    else if count < limit then Avoid
    else GiveUp
  }

  /** The avoidance moves made while the target stays stuck, before the
      attack is given up. */
  function AvoidAttempts(count: int, limit: int, hp: int): nat
    decreases limit - count
  {
    if ObstacleCheck(1, 0, hp, count, limit) == Avoid then 1 + AvoidAttempts(count + 1, limit, hp) else 0
  }

  /** A stuck target never hit is dropped without trying; otherwise the
      remaining `limit - count` attempts are made and then the attack is
      given up. */
  lemma {:induction false} AvoidAttemptsSpec(count: int, limit: int, hp: int)
    ensures AvoidAttempts(count, limit, hp) == if hp == 100 || count >= limit then 0 else limit - count
    decreases limit - count
  {
    if hp != 100 && count < limit {
      AvoidAttemptsSpec(count + 1, limit, hp);
    }
  }

  function Arrow(left: bool): string
  {
    if left then "ArrowLeft" else "ArrowRight"
  }

  /** The avoidance move as written: step forward, hold an arrow, jump,
      release an arrow, the two arrows drawn by separate `rand.Intn(2)`
      calls. */
  function AvoidEventsAsWritten(leftHold: bool, leftRelease: bool): seq<Event>
  {
    [Key("w", Press), Key(Arrow(leftHold), Hold), Key(" ", Press), Key(Arrow(leftRelease), Release)]
  }

  /** The avoidance move releasing the arrow it holds. */
  function AvoidEvents(left: bool): seq<Event>
  {
    AvoidEventsAsWritten(left, left)
  }

  /** Every key held in `es` is released later in `es`. */
  predicate Released(es: seq<Event>)
  {
    forall i :: 0 <= i < |es| && es[i].Key? && es[i].mode == Hold ==>
      exists j :: i < j < |es| && es[j] == Key(es[i].name, Release)
  }

  /** The corrected move leaves no key held, whichever arrow it draws. */
  lemma AvoidEventsReleased(left: bool)
    ensures Released(AvoidEvents(left))
  {
    var es := AvoidEvents(left);
    forall i | 0 <= i < |es| && es[i].Key? && es[i].mode == Hold
      ensures exists j :: i < j < |es| && es[j] == Key(es[i].name, Release)
    {
      assert i == 1;
      assert es[3] == Key(es[1].name, Release);
    }
  }

  /** The move releases what it held exactly when both draws agree: with
      different draws one arrow stays held and the other is released
      without having been held. */
  lemma AvoidReleasedIff(leftHold: bool, leftRelease: bool)
    ensures Released(AvoidEventsAsWritten(leftHold, leftRelease)) <==> leftHold == leftRelease
    ensures Released(AvoidEvents(leftHold))
  {
    AvoidEventsReleased(leftHold);
    if leftHold != leftRelease {
      var ws := AvoidEventsAsWritten(leftHold, leftRelease);
      assert ws[1].Key? && ws[1].mode == Hold;
      forall j | 1 < j < |ws|
        ensures ws[j] != Key(ws[1].name, Release)
      {
      }
    }
  }

  // ---------------------------------------------------------------------
  // Searching

  /** The mob clicked: the first aggressive, else the first passive, else
      the first violet one. */
  function FirstMob(m: Mobs): Option<Detect.MobsPosition>
  {
    if |m.aggressive| > 0 then Some(m.aggressive[0])
    else if |m.passive| > 0 then Some(m.passive[0])
    else if |m.violet| > 0 then Some(m.violet[0])
    else None
  }

  function MobCount(m: Mobs): int
  {
    |m.aggressive| + |m.passive| + |m.violet|
  }

  /** The click position, the centre with Go's truncating division. */
  function MobCentre(p: Detect.MobsPosition): (int, int)
  {
    (Div(p.minX + p.maxX, 2), Div(p.minY + p.maxY, 2))
  }

  /** A mob is clicked exactly when one is in view, an aggressive one
      before any other and a violet one only when it is alone in kind;
      the click lies inside a non-negative rectangle. */
  lemma FirstMobSpec(m: Mobs)
    ensures FirstMob(m).Some? <==> MobCount(m) > 0
    ensures FirstMob(m).Some? ==>
      FirstMob(m).value in m.aggressive + m.passive + m.violet
    ensures |m.aggressive| > 0 ==> FirstMob(m) == Some(m.aggressive[0])
    ensures |m.aggressive| == 0 && |m.passive| > 0 ==> FirstMob(m) == Some(m.passive[0])
    ensures |m.aggressive| == 0 && |m.passive| == 0 && |m.violet| > 0 ==> FirstMob(m) == Some(m.violet[0])
  {
  }

  lemma MobCentreInside(p: Detect.MobsPosition)
    requires 0 <= p.minX <= p.maxX && 0 <= p.minY <= p.maxY
    ensures var (x, y) := MobCentre(p); p.minX <= x <= p.maxX && p.minY <= y <= p.maxY
  {
  }

  /** The rotation part of `SearchingEnemy`. */
  datatype Sweep = Sweep(upAndDown: int, reverse: bool, count: int)

  datatype Turn = RotateLeft | RotateRight | LookDown | LookUp | StartNavigating | MoveForward

  /** What the search does with no target and no mob in view. */
  function TurnOf(s: Sweep, navigate: bool): Turn
  {
    if s.count > 0 then (if s.reverse then RotateLeft else RotateRight)
    else if 1 <= s.upAndDown <= 3 then LookDown
    else if 4 <= s.upAndDown <= 6 then LookUp
    else if navigate then StartNavigating
    else MoveForward
  }

  /** The sweep after a turn; `draw` is `rand.Intn(6)`. */
  function AfterTurn(s: Sweep, t: Turn, draw: int): Sweep
  {
    match t
    case RotateLeft => s.(count := s.count - 1)
    case RotateRight => s.(count := s.count - 1)
    case LookDown => s.(count := draw + 7, upAndDown := s.upAndDown + 1)
    case LookUp => s.(count := draw + 7, upAndDown := s.upAndDown + 1)
    case StartNavigating => s
    case MoveForward => Sweep(1, !s.reverse, s.count)
  }

  /** The key each turn presses; a forward move is handled on its own. */
  function TurnEvents(t: Turn): seq<Event>
  {
    match t
    case RotateLeft => [Key("ArrowLeft", Press)]
    case RotateRight => [Key("ArrowRight", Press)]
    case LookDown => [Key("ArrowDown", Press)]
    case LookUp => [Key("ArrowUp", Press)]
    case StartNavigating => []
    case MoveForward => [Key("w", Hold)]
  }

  predicate SweepBounded(s: Sweep)
  {
    0 <= s.upAndDown <= 7 && 0 <= s.count <= 12
  }

  /** Remaining rotations are spent one at a time in the current
      direction; looking down on steps 1-3 and up on 4-6 refills 7-12
      rotations and moves on a step; after that the search navigates or
      walks forward, restarting at step 1 in the other direction.  The
      sweep stays within its bounds. */
  lemma TurnSpec(s: Sweep, navigate: bool, draw: int)
    requires 0 <= draw < 6
    ensures s.count > 0 ==>
      (TurnOf(s, navigate) == RotateLeft <==> s.reverse) &&
      TurnOf(s, navigate) in {RotateLeft, RotateRight} &&
      AfterTurn(s, TurnOf(s, navigate), draw) == s.(count := s.count - 1)
    ensures s.count <= 0 && 1 <= s.upAndDown <= 3 ==> TurnOf(s, navigate) == LookDown
    ensures s.count <= 0 && 4 <= s.upAndDown <= 6 ==> TurnOf(s, navigate) == LookUp
    ensures TurnOf(s, navigate) in {LookDown, LookUp} ==>
      var n := AfterTurn(s, TurnOf(s, navigate), draw);
      7 <= n.count <= 12 && n.upAndDown == s.upAndDown + 1 && n.reverse == s.reverse
    ensures s.count <= 0 && !(1 <= s.upAndDown <= 6) ==>
      (TurnOf(s, navigate) == StartNavigating <==> navigate) &&
      (TurnOf(s, navigate) == StartNavigating || TurnOf(s, navigate) == MoveForward)
    ensures TurnOf(s, navigate) == StartNavigating ==> AfterTurn(s, StartNavigating, draw) == s
    ensures TurnOf(s, navigate) == MoveForward ==>
      AfterTurn(s, MoveForward, draw).upAndDown == 1 && AfterTurn(s, MoveForward, draw).reverse == !s.reverse
    ensures SweepBounded(s) ==> SweepBounded(AfterTurn(s, TurnOf(s, navigate), draw))
  {
  }

  function StrafeEvents(strafe: int): seq<Event>
  {
    if strafe == 1 then [Key("ArrowLeft", Hold), Key("ArrowLeft", Release)]
    else if strafe == 2 then [Key("ArrowRight", Hold), Key("ArrowRight", Release)]
    else []
  }

  /** Walking forward: hold `w`, jump when the jump draw is 1, strafe
      left when the strafe draw is 1 and right when it is 2. */
  function ForwardEvents(jump: int, strafe: int): seq<Event>
  {
    [Key("w", Hold)] + (if jump == 1 then [Key(" ", Press)] else []) + StrafeEvents(strafe)
  }

  /** The walk holds `w` and releases every other key it holds. */
  lemma ForwardReleased(jump: int, strafe: int)
    ensures ForwardEvents(jump, strafe)[0] == Key("w", Hold)
    ensures Released(ForwardEvents(jump, strafe)[1..])
  {
    var es := ForwardEvents(jump, strafe)[1..];
    forall i | 0 <= i < |es| && es[i].Key? && es[i].mode == Hold
      ensures exists j :: i < j < |es| && es[j] == Key(es[i].name, Release)
    {
      assert es[i + 1] == Key(es[i].name, Release);
    }
  }

  // ---------------------------------------------------------------------
  // The pickup after a kill

  /** Ten uses of the pickup slot. */
  function Repeat(es: seq<Event>, n: nat): (r: seq<Event>)
    ensures |r| == n * |es|
  {
    if n == 0 then [] else Repeat(es, n - 1) + es
  }

  /** The pet when one is available, otherwise ten pickups when the
      pickup action is available, otherwise nothing. */
  function PickupEvents(pet: SlotAnswer, pick: SlotAnswer): seq<Event>
  {
    if Available(pet) then SlotPresses(pet)
    else if Available(pick) then Repeat(SlotPresses(pick), 10)
    else []
  }

  /** Every event of a repetition is one of the repeated events, and a
      pickup presses only the pet or the pickup slot. */
  lemma {:induction false} RepeatMembers(es: seq<Event>, n: nat)
    ensures forall e :: e in Repeat(es, n) ==> e in es
    ensures n > 0 ==> Repeat(es, n)[|Repeat(es, n)| - |es|..] == es
  {
    if n > 0 {
      RepeatMembers(es, n - 1);
    }
  }

  lemma PickupSpec(pet: SlotAnswer, pick: SlotAnswer)
    ensures Available(pet) ==> PickupEvents(pet, pick) == SlotPresses(pet)
    ensures !Available(pet) && Available(pick) ==>
      |PickupEvents(pet, pick)| == 10 * |SlotPresses(pick)| &&
      forall e :: e in PickupEvents(pet, pick) ==> e in SlotPresses(pick)
    ensures !Available(pet) && !Available(pick) ==> PickupEvents(pet, pick) == []
  {
    RepeatMembers(SlotPresses(pick), 10);
  }
}
