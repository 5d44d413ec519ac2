/** The bookkeeping of the root farming behaviour (farming.go): expiry of
    avoided areas, the wait accumulator, mob prioritisation, target
    verification, aborting an attack, per-slot cooldowns and the work done
    after a kill.  Time is milliseconds passed in as `now`; key presses are
    appended to an action trace. */
module Farming {
  import opened Wrappers
  import opened Data
  import Analyzer

  datatype FarmingState = NoEnemyFound | SearchingForEnemy | EnemyFound | VerifyTarget | Attacking | AfterEnemyKill

  type AvoidedArea = Analyzer.AvoidedArea

  /** What the behaviour asks the movement coordinator to do. */
  datatype Action = UseSlot(slot: int) | PressKey(key: string) | UseSkill(slots: seq<int>)

  /** The configuration fields these operations read. */
  datatype FarmConfig = FarmConfig(
    prioritizeAggro: bool,
    minHPAttack: int,
    slotCooldowns: map<int, int>,
    pickupPetSlot: int,
    pickupMotionSlot: int,
    pickupSlots: seq<int>)

  // ---------------------------------------------------------------------
  // Avoided areas

  /** `updateTimestamps` keeps an area while its age is strictly below its
      duration. */
  predicate Fresh(a: AvoidedArea, now: int)
  {
    now - a.createdAt < a.duration
  }

  function Unexpired(areas: seq<AvoidedArea>, now: int): seq<AvoidedArea>
  {
    if areas == [] then []
    else
      var front := Unexpired(areas[..|areas| - 1], now);
      var last := areas[|areas| - 1];
      if Fresh(last, now) then front + [last] else front
  }

  /** Exactly the fresh areas are kept, each as often as before, and
      keeping is idempotent. */
  lemma {:induction false} UnexpiredSpec(areas: seq<AvoidedArea>, now: int)
    ensures forall a :: a in Unexpired(areas, now) <==> a in areas && Fresh(a, now)
    ensures forall a :: Fresh(a, now) ==> multiset(Unexpired(areas, now))[a] == multiset(areas)[a]
    ensures |Unexpired(areas, now)| <= |areas|
    ensures Unexpired(Unexpired(areas, now), now) == Unexpired(areas, now)
  {
    if areas != [] {
      var front := areas[..|areas| - 1];
      var last := areas[|areas| - 1];
      UnexpiredSpec(front, now);
      assert areas == front + [last];
      var u := Unexpired(front, now);
      if Fresh(last, now) {
        assert (u + [last])[..|u + [last]| - 1] == u;
      }
    }
  }

  /** The marker put on a failed click: a 2 x 2 box around it for 5 s. */
  function LastClickArea(p: Point, now: int): AvoidedArea
  {
    Analyzer.AvoidedArea(Bounds(p.x - 1, p.y - 1, 2, 2), now, 5000)
  }

  /** The marker put on an abandoned target: a 40 x 40 box around it,
      grown by 10 per earlier attempt, for 2 s. */
  function MarkerArea(m: Point, attempts: int, now: int): AvoidedArea
  {
    Analyzer.AvoidedArea(Grow(Bounds(m.x - 20, m.y - 20, 40, 40), attempts * 10), now, 2000)
  }

  /** Both markers cover the point they were put on and stay in force for
      their duration and no longer. */
  lemma MarkerAreasSpec(p: Point, attempts: int, now: int, t: int)
    requires attempts >= 0
    ensures Contains(LastClickArea(p, now).bounds, p)
    ensures Fresh(LastClickArea(p, now), t) <==> t < now + 5000
    ensures Contains(MarkerArea(p, attempts, now).bounds, p)
    ensures MarkerArea(p, attempts, now).bounds.w == 40 + 10 * attempts == MarkerArea(p, attempts, now).bounds.h
    ensures Fresh(MarkerArea(p, attempts, now), t) <==> t < now + 2000
  {
    GrowKeepsPoints(Bounds(p.x - 20, p.y - 20, 40, 40), attempts * 10, p);
  }

  // ---------------------------------------------------------------------
  // Waiting

  /** `wait`: a pending wait grows by `duration` and keeps its start;
      otherwise a new wait starts now. */
  function Waited(pending: Option<int>, start: int, duration: int, now: int): (Option<int>, int)
  {
    if pending.Some? then (Some(pending.value + duration), start) else (Some(duration), now)
  }

  /** Two waits in a row from idle add up and start at the first call. */
  lemma WaitedAccumulates(start: int, a: int, b: int, t1: int, t2: int)
    ensures var (p1, s1) := Waited(None, start, a, t1);
      Waited(p1, s1, b, t2) == (Some(a + b), t1)
  {
  }

  /** `waitCooldown`: whether to keep waiting, and the pending wait after
      the call (cleared once it has run out). */
  function Cooldown(pending: Option<int>, start: int, now: int): (bool, Option<int>)
  {
    if pending.Some? && now - start < pending.value then (true, pending)
    else (false, None)
  }

  /** Waiting holds exactly while a wait is pending and unfinished; a
      finished or absent wait leaves nothing pending. */
  lemma CooldownSpec(pending: Option<int>, start: int, now: int)
    ensures Cooldown(pending, start, now).0 <==> pending.Some? && now - start < pending.value
    ensures Cooldown(pending, start, now).0 ==> Cooldown(pending, start, now).1 == pending
    ensures !Cooldown(pending, start, now).0 ==> Cooldown(pending, start, now).1 == None
  {
  }

  /** A wait of positive length started now is still running now and over
      once its length has passed. */
  lemma WaitThenCooldown(start: int, d: int, now: int)
    requires d > 0
    ensures var (p, s) := Waited(None, start, d, now);
      Cooldown(p, s, now).0 && !Cooldown(p, s, now + d).0
  {
  }

  // ---------------------------------------------------------------------
  // Slot cooldowns

  /** The configured cooldown of a slot, 0 when none is configured. */
  function CooldownOf(cooldowns: map<int, int>, slot: int): int
  {
    if slot in cooldowns then cooldowns[slot] else 0
  }

  /** `sendSlot` uses a slot unless it was used less than its cooldown ago. */
  predicate SlotReady(usage: map<int, int>, cooldowns: map<int, int>, slot: int, now: int)
  {
    slot !in usage || now - usage[slot] >= CooldownOf(cooldowns, slot)
  }

  /** A slot never used, or one without a configured cooldown, is ready; a
      slot just used is not ready again before its cooldown has passed,
      and is ready once it has. */
  lemma SlotReadySpec(usage: map<int, int>, cooldowns: map<int, int>, slot: int, now: int, later: int)
    ensures slot !in usage ==> SlotReady(usage, cooldowns, slot, now)
    ensures slot !in cooldowns && (slot in usage ==> usage[slot] <= now) ==> SlotReady(usage, cooldowns, slot, now)
    ensures later >= now ==>
      (SlotReady(usage[slot := now], cooldowns, slot, later) <==> later - now >= CooldownOf(cooldowns, slot))
  {
  }

  /** `sendSlot` on the usage times and the actions sent so far. */
  function SentSlot(usage: map<int, int>, actions: seq<Action>, cooldowns: map<int, int>, slot: int, now: int)
    : (map<int, int>, seq<Action>)
  {
    if SlotReady(usage, cooldowns, slot, now) then (usage[slot := now], actions + [UseSlot(slot)])
    else (usage, actions)
  }

  /** The pickup pet's cooldown: 3 s unless a positive one is configured. */
  function PetCooldown(cfg: FarmConfig): int
  {
    if cfg.pickupPetSlot in cfg.slotCooldowns && cfg.slotCooldowns[cfg.pickupPetSlot] > 0
    then cfg.slotCooldowns[cfg.pickupPetSlot] else 3000
  }

  /** The pet branch of `performPickup` started at `now`: the pet slot is
      sent and the summon time stamped, and 1.5 s later `updatePickupPet`
      sends it again when the pet cooldown has passed. The result is the
      usage times, the actions and the summon time. */
  function PetPickup(usage: map<int, int>, actions: seq<Action>, cfg: FarmConfig, now: int)
    : (map<int, int>, seq<Action>, int)
  {
    var (u, a) := SentSlot(usage, actions, cfg.slotCooldowns, cfg.pickupPetSlot, now);
    if now + 1500 - now > PetCooldown(cfg) then
      var (u', a') := SentSlot(u, a, cfg.slotCooldowns, cfg.pickupPetSlot, now + 1500);
      (u', a', now + 1500)
    else (u, a, now)
  }

  /** The pet pickup only ever sends the pet slot, at most twice, and
      sends it at `now` when the slot is ready then. With the default 3 s cooldown
      (or any of at least 1.5 s) the pet stays summoned: at most one use
      and the summon time is `now`. A ready pet with a shorter configured
      cooldown is summoned and dismissed within the same pickup. */
  lemma PetPickupSpec(usage: map<int, int>, actions: seq<Action>, cfg: FarmConfig, now: int)
    ensures var (u, a, last) := PetPickup(usage, actions, cfg, now);
      actions <= a && |a| <= |actions| + 2 &&
      (forall i :: |actions| <= i < |a| ==> a[i] == UseSlot(cfg.pickupPetSlot)) &&
      (SlotReady(usage, cfg.slotCooldowns, cfg.pickupPetSlot, now) ==>
         |a| > |actions| && u[cfg.pickupPetSlot] >= now)
    ensures var (u, a, last) := PetPickup(usage, actions, cfg, now);
      PetCooldown(cfg) >= 1500 ==>
        last == now && |a| <= |actions| + 1 &&
        (|a| == |actions| + 1 <==> SlotReady(usage, cfg.slotCooldowns, cfg.pickupPetSlot, now))
    ensures var (u, a, last) := PetPickup(usage, actions, cfg, now);
      PetCooldown(cfg) < 1500 && SlotReady(usage, cfg.slotCooldowns, cfg.pickupPetSlot, now) ==>
        last == now + 1500 && a == actions + [UseSlot(cfg.pickupPetSlot), UseSlot(cfg.pickupPetSlot)] &&
        u == usage[cfg.pickupPetSlot := now + 1500]
  {
  }

  // ---------------------------------------------------------------------
  // Mob prioritisation

  function OfKind(mobs: seq<Target>, kind: MobType): seq<Target>
  {
    if mobs == [] then []
    else
      var front := OfKind(mobs[..|mobs| - 1], kind);
      var last := mobs[|mobs| - 1];
      if last.kind == kind then front + [last] else front
  }

  function NonViolet(mobs: seq<Target>): seq<Target>
  {
    if mobs == [] then []
    else
      var front := NonViolet(mobs[..|mobs| - 1]);
      var last := mobs[|mobs| - 1];
      if last.kind != Violet then front + [last] else front
  }

  lemma {:induction false} OfKindSpec(mobs: seq<Target>, kind: MobType)
    ensures forall m :: m in OfKind(mobs, kind) <==> m in mobs && m.kind == kind
    ensures |OfKind(mobs, kind)| <= |mobs|
  {
    if mobs != [] {
      OfKindSpec(mobs[..|mobs| - 1], kind);
      assert mobs == mobs[..|mobs| - 1] + [mobs[|mobs| - 1]];
    }
  }

  lemma {:induction false} NonVioletSpec(mobs: seq<Target>)
    ensures forall m :: m in NonViolet(mobs) <==> m in mobs && m.kind != Violet
    ensures |NonViolet(mobs)| <= |mobs|
  {
    if mobs != [] {
      NonVioletSpec(mobs[..|mobs| - 1]);
      assert mobs == mobs[..|mobs| - 1] + [mobs[|mobs| - 1]];
    }
  }

  /** Passive mobs are chosen when HP allows and either no aggressive mob
      is in view, or the last kill was aggressive less than 5 s ago and
      exactly one aggressive mob is left. */
  predicate PassiveFirst(aggressive: int, lastKilled: MobType, sinceKill: int, hp: int, minHP: int)
  {
    (aggressive == 0 || (lastKilled == Aggressive && aggressive == 1 && sinceKill < 5000)) && hp >= minHP
  }

  function Prioritized(mobs: seq<Target>, cfg: FarmConfig, hp: int, lastKilled: MobType, sinceKill: int): seq<Target>
  {
    if !cfg.prioritizeAggro then NonViolet(mobs)
    else if PassiveFirst(|OfKind(mobs, Aggressive)|, lastKilled, sinceKill, hp, cfg.minHPAttack) then OfKind(mobs, Passive)
    else OfKind(mobs, Aggressive)
  }

  /** No violet mob is ever returned; without aggro priority every other
      mob is, and with it the result is all passive mobs exactly when
      `PassiveFirst` holds and all aggressive mobs otherwise. */
  lemma PrioritizedSpec(mobs: seq<Target>, cfg: FarmConfig, hp: int, lastKilled: MobType, sinceKill: int)
    ensures forall m :: m in Prioritized(mobs, cfg, hp, lastKilled, sinceKill) ==> m in mobs && m.kind != Violet
    ensures !cfg.prioritizeAggro ==>
      forall m :: m in Prioritized(mobs, cfg, hp, lastKilled, sinceKill) <==> m in mobs && m.kind != Violet
    ensures cfg.prioritizeAggro ==>
      var kind := if PassiveFirst(|OfKind(mobs, Aggressive)|, lastKilled, sinceKill, hp, cfg.minHPAttack) then Passive else Aggressive;
      forall m :: m in Prioritized(mobs, cfg, hp, lastKilled, sinceKill) <==> m in mobs && m.kind == kind
  {
    NonVioletSpec(mobs);
    OfKindSpec(mobs, Passive);
    OfKindSpec(mobs, Aggressive);
  }

  /** The fields of `FarmingBehavior` this model keeps. */
  datatype Fields = Fields(
    state: FarmingState,
    lastKillTime: int,
    lastInitialAttackTime: int,
    lastSummonPetTime: int,
    currentTarget: Option<Target>,
    isAttacking: bool,
    alreadyAttackCount: int,
    lastClickPos: Option<Point>,
    obstacleAvoidanceCount: int,
    avoidedBounds: seq<AvoidedArea>,
    killCount: int,
    stealedTargetCount: int,
    lastKilledType: MobType,
    waitDuration: Option<int>,
    waitStart: int,
    slotUsageTimes: map<int, int>,
    actions: seq<Action>)

  class FarmingBehavior {
    var state: FarmingState
    var lastKillTime: int
    var lastInitialAttackTime: int
    var lastSummonPetTime: int
    var currentTarget: Option<Target>
    var isAttacking: bool
    var alreadyAttackCount: int
    var lastClickPos: Option<Point>
    var obstacleAvoidanceCount: int
    var avoidedBounds: seq<AvoidedArea>
    var killCount: int
    var stealedTargetCount: int
    var lastKilledType: MobType
    var waitDuration: Option<int>
    var waitStart: int
    var slotUsageTimes: map<int, int>
    var actions: seq<Action>

    function Snapshot(): Fields
      reads this
    {
      Fields(state, lastKillTime, lastInitialAttackTime, lastSummonPetTime, currentTarget, isAttacking,
        alreadyAttackCount, lastClickPos, obstacleAvoidanceCount, avoidedBounds, killCount,
        stealedTargetCount, lastKilledType, waitDuration, waitStart, slotUsageTimes, actions)
    }

    /** `NewFarmingBehavior`: searching, last kill and pet summon now, the
        last kill counted as passive. */
    constructor (now: int)
      ensures Snapshot() == Fields(SearchingForEnemy, now, 0, now, None, false, 0, None, 0, [], 0, 0,
        Passive, None, 0, map[], [])
    {
      state := SearchingForEnemy;
      lastKillTime := now;
      lastInitialAttackTime := 0;
      lastSummonPetTime := now;
      currentTarget := None;
      isAttacking := false;
      alreadyAttackCount := 0;
      lastClickPos := None;
      obstacleAvoidanceCount := 0;
      avoidedBounds := [];
      killCount := 0;
      stealedTargetCount := 0;
      lastKilledType := Passive;
      waitDuration := None;
      waitStart := 0;
      slotUsageTimes := map[];
      actions := [];
    }

    /** `updateTimestamps`: drops the expired avoided areas. */
    method UpdateTimestamps(now: int)
      modifies this`avoidedBounds
      ensures avoidedBounds == Unexpired(old(avoidedBounds), now)
    {
      var active: seq<AvoidedArea> := [];
      var i := 0;
      while i < |avoidedBounds|
        invariant 0 <= i <= |avoidedBounds|
        invariant active == Unexpired(avoidedBounds[..i], now)
      {
        assert avoidedBounds[..i + 1][..i] == avoidedBounds[..i];
        if Fresh(avoidedBounds[i], now) {
          active := active + [avoidedBounds[i]];
        }
        i := i + 1;
      }
      assert avoidedBounds[..i] == avoidedBounds;
      avoidedBounds := active;
    }

    method Wait(duration: int, now: int)
      modifies this`waitDuration, this`waitStart
      ensures (waitDuration, waitStart) == Waited(old(waitDuration), old(waitStart), duration, now)
    {
      if waitDuration.Some? {
        waitDuration := Some(waitDuration.value + duration);
      } else {
        waitStart := now;
        waitDuration := Some(duration);
      }
    }

    method WaitCooldown(now: int) returns (waiting: bool)
      modifies this`waitDuration
      ensures (waiting, waitDuration) == Cooldown(old(waitDuration), waitStart, now)
    {
      if waitDuration.Some? {
        if now - waitStart < waitDuration.value {
          return true;
        }
        waitDuration := None;
      }
      return false;
    }

    /** `prioritizeMobs`, with the player's HP and the time since the last
        kill read at `now`. */
    method PrioritizeMobs(mobs: seq<Target>, cfg: FarmConfig, hp: int, now: int) returns (result: seq<Target>)
      ensures result == Prioritized(mobs, cfg, hp, lastKilledType, now - lastKillTime)
    {
      if !cfg.prioritizeAggro {
        result := [];
        var i := 0;
        while i < |mobs|
          invariant 0 <= i <= |mobs|
          invariant result == NonViolet(mobs[..i])
        {
          assert mobs[..i + 1][..i] == mobs[..i];
          if mobs[i].kind != Violet {
            result := result + [mobs[i]];
          }
          i := i + 1;
        }
        assert mobs[..i] == mobs;
        return;
      }
      var aggressive: seq<Target> := [];
      var passive: seq<Target> := [];
      var i := 0;
      while i < |mobs|
        invariant 0 <= i <= |mobs|
        invariant aggressive == OfKind(mobs[..i], Aggressive)
        invariant passive == OfKind(mobs[..i], Passive)
      {
        assert mobs[..i + 1][..i] == mobs[..i];
        if mobs[i].kind == Aggressive {
          aggressive := aggressive + [mobs[i]];
        } else if mobs[i].kind == Passive {
          passive := passive + [mobs[i]];
        }
        i := i + 1;
      }
      assert mobs[..i] == mobs;
      if (|aggressive| == 0 ||
          (lastKilledType == Aggressive && |aggressive| == 1 && now - lastKillTime < 5000)) &&
         hp >= cfg.minHPAttack {
        return passive;
      }
      return aggressive;
    }

    /** `avoidLastClick`: marks the last click position, if any. */
    method AvoidLastClick(now: int)
      modifies this`avoidedBounds
      ensures avoidedBounds == old(avoidedBounds) +
        (if lastClickPos.Some? then [LastClickArea(lastClickPos.value, now)] else [])
    {
      if lastClickPos.Some? {
        var p := lastClickPos.value;
        avoidedBounds := avoidedBounds + [Analyzer.AvoidedArea(Bounds(p.x - 1, p.y - 1, 2, 2), now, 5000)];
      }
    }

    /** `onVerifyTarget`: attack a target that is on screen and alive,
        otherwise mark the click and search again. */
    method OnVerifyTarget(onScreen: bool, alive: bool, now: int) returns (next: FarmingState)
      modifies this`avoidedBounds
      ensures next == Attacking <==> onScreen && alive
      ensures next != Attacking ==> next == SearchingForEnemy
      ensures avoidedBounds == old(avoidedBounds) +
        (if !(onScreen && alive) && lastClickPos.Some? then [LastClickArea(lastClickPos.value, now)] else [])
    {
      if onScreen && alive {
        return Attacking;
      }
      AvoidLastClick(now);
      return SearchingForEnemy;
    }

    /** `abortAttack` with `marker` the detected target marker, if any. */
    method AbortAttack(marker: Option<Point>, now: int) returns (next: FarmingState)
      modifies this`isAttacking, this`avoidedBounds, this`alreadyAttackCount,
        this`obstacleAvoidanceCount, this`actions
      ensures next == SearchingForEnemy && !isAttacking
      ensures actions == old(actions) + [PressKey("Escape")]
      ensures old(alreadyAttackCount) > 0 ==>
        alreadyAttackCount == old(alreadyAttackCount) + 1 &&
        obstacleAvoidanceCount == old(obstacleAvoidanceCount) &&
        avoidedBounds == old(avoidedBounds) +
          (if marker.Some? then [MarkerArea(marker.value, old(alreadyAttackCount), now)] else [])
    ensures old(alreadyAttackCount) <= 0 ==>
        alreadyAttackCount == old(alreadyAttackCount) &&
        obstacleAvoidanceCount == 0 &&
        avoidedBounds == old(avoidedBounds) +
          (if lastClickPos.Some? then [LastClickArea(lastClickPos.value, now)] else [])
    {
      isAttacking := false;
      if alreadyAttackCount > 0 {
        if marker.Some? {
          var m := marker.value;
          var bounds := Bounds(m.x - 20, m.y - 20, 40, 40);
          var grown := Grow(bounds, alreadyAttackCount * 10);
          avoidedBounds := avoidedBounds + [Analyzer.AvoidedArea(grown, now, 2000)];
        }
        alreadyAttackCount := alreadyAttackCount + 1;
      } else {
        obstacleAvoidanceCount := 0;
        AvoidLastClick(now);
      }
      actions := actions + [PressKey("Escape")];
      return SearchingForEnemy;
    }

    /** `sendSlot`: a slot still in its cooldown is skipped; otherwise it is
        used and its use time recorded. */
    method SendSlot(cfg: FarmConfig, slot: int, now: int)
      modifies this`slotUsageTimes, this`actions
      ensures SlotReady(old(slotUsageTimes), cfg.slotCooldowns, slot, now) ==>
        slotUsageTimes == old(slotUsageTimes)[slot := now] && actions == old(actions) + [UseSlot(slot)]
      ensures !SlotReady(old(slotUsageTimes), cfg.slotCooldowns, slot, now) ==>
        slotUsageTimes == old(slotUsageTimes) && actions == old(actions)
    {
      if slot in slotUsageTimes {
        var lastUsage := slotUsageTimes[slot];
        var cooldown := 0;
        if slot in cfg.slotCooldowns {
          cooldown := cfg.slotCooldowns[slot];
        }
        if now - lastUsage < cooldown {
          return;
        }
      }
      actions := actions + [UseSlot(slot)];
      slotUsageTimes := slotUsageTimes[slot := now];
    }

    /** `updatePickupPet`: unsummons the pet once its cooldown (3 s unless
        a positive one is configured) has passed since the summon. */
    method UpdatePickupPet(cfg: FarmConfig, now: int)
      modifies this`slotUsageTimes, this`actions, this`lastSummonPetTime
      ensures cfg.pickupPetSlot >= 0 && now - old(lastSummonPetTime) > PetCooldown(cfg) ==>
        (slotUsageTimes, actions) == SentSlot(old(slotUsageTimes), old(actions), cfg.slotCooldowns, cfg.pickupPetSlot, now) &&
        lastSummonPetTime == now
      ensures !(cfg.pickupPetSlot >= 0 && now - old(lastSummonPetTime) > PetCooldown(cfg)) ==>
        lastSummonPetTime == old(lastSummonPetTime) && actions == old(actions) &&
        slotUsageTimes == old(slotUsageTimes)
    {
      if cfg.pickupPetSlot < 0 {
        return;
      }
      var cooldown := 3000;
      if cfg.pickupPetSlot in cfg.slotCooldowns && cfg.slotCooldowns[cfg.pickupPetSlot] > 0 {
        cooldown := cfg.slotCooldowns[cfg.pickupPetSlot];
      }
      if now - lastSummonPetTime > cooldown {
        SendSlot(cfg, cfg.pickupPetSlot, now);
        lastSummonPetTime := now;
      }
    }

    /** What `performPickup` started at `now` does: the pet pickup if a
        pet slot is configured, else the motion slot, else the legacy
        pickup slots. */
    twostate predicate PickedUp(cfg: FarmConfig, now: int)
      reads this
    {
      if cfg.pickupPetSlot >= 0 then
        (slotUsageTimes, actions, lastSummonPetTime) == PetPickup(old(slotUsageTimes), old(actions), cfg, now)
      else if cfg.pickupMotionSlot >= 0 then
        (slotUsageTimes, actions) == SentSlot(old(slotUsageTimes), old(actions), cfg.slotCooldowns, cfg.pickupMotionSlot, now) &&
        lastSummonPetTime == old(lastSummonPetTime)
      else
        lastSummonPetTime == old(lastSummonPetTime) && slotUsageTimes == old(slotUsageTimes) &&
        actions == old(actions) + (if |cfg.pickupSlots| > 0 then [UseSkill(cfg.pickupSlots)] else [])
    }

    /** `performPickup` started at `now`; the pet check runs 1.5 s later. */
    method PerformPickup(cfg: FarmConfig, now: int)
      modifies this`slotUsageTimes, this`actions, this`lastSummonPetTime
      ensures PickedUp(cfg, now)
    {
      if cfg.pickupPetSlot >= 0 {
        SendSlot(cfg, cfg.pickupPetSlot, now);
        lastSummonPetTime := now;
        UpdatePickupPet(cfg, now + 1500);
        return;
      }
      if cfg.pickupMotionSlot >= 0 {
        SendSlot(cfg, cfg.pickupMotionSlot, now);
        return;
      }
      if |cfg.pickupSlots| > 0 {
        actions := actions + [UseSkill(cfg.pickupSlots)];
      }
    }

    /** `afterEnemyKill`: the kill and search times handed to the
        statistics, the kill counted, the pickup done and the target
        dropped. */
    method AfterEnemyKill(cfg: FarmConfig, now: int) returns (next: FarmingState, killTime: int, searchTime: int)
      modifies this`killCount, this`stealedTargetCount, this`lastKillTime, this`currentTarget,
        this`slotUsageTimes, this`actions, this`lastSummonPetTime
      ensures next == SearchingForEnemy
      ensures killTime == now - lastInitialAttackTime
      ensures searchTime == lastInitialAttackTime - old(lastKillTime)
      ensures killCount == old(killCount) + 1 && stealedTargetCount == 0
      ensures lastKillTime == now && currentTarget == None
      ensures PickedUp(cfg, now)
    {
      killTime := now - lastInitialAttackTime;
      searchTime := lastInitialAttackTime - lastKillTime;
      killCount := killCount + 1;
      stealedTargetCount := 0;
      lastKillTime := now;
      PerformPickup(cfg, now);
      currentTarget := None;
      next := SearchingForEnemy;
    }

    method Stop()
      modifies this`isAttacking, this`currentTarget, this`state
      ensures !isAttacking && currentTarget == None && state == SearchingForEnemy
    {
      isAttacking := false;
      currentTarget := None;
      state := SearchingForEnemy;
    }
  }
}
