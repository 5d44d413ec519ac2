/** The status side of src2/config.go that the bot's logic depends on:
    choosing the slot to press for an action under global and per-slot
    cooldowns, the bounded action history, kill counting, the target
    record and the millisecond views of timestamps.  Files, JSON and the
    mutex are not modelled; the clock is a parameter. */
module Src2Config {
  import opened Wrappers
  import opened Clock
  import opened Text
  import opened History

  /** Slot types. */
  const SlotTypeAttack: int := 1
  const SlotTypeBuff: int := 2
  const SlotTypeHeal: int := 3
  const SlotTypeRescue: int := 4
  const SlotTypeBoard: int := 5
  const SlotTypeFood: int := 11
  const SlotTypePill: int := 12
  const SlotTypeMPRestore: int := 21
  const SlotTypeFPRestore: int := 22
  const SlotTypePick: int := 31
  const SlotTypePet: int := 32

  /** Global cooldowns, in milliseconds. */
  const CooldownAttack: int := 300
  const CooldownHPFood: int := 2500
  const CooldownHPPill: int := 10000
  const CooldownMP: int := 1500
  const CooldownFP: int := 1500

  /** The number of actions the status keeps. */
  const ActionCapacity: nat := 10

  /** A configured slot; `threshold` and `cooldown` are optional. */
  datatype Slot = Slot(page: int, slot: int, kind: int, threshold: Option<int>, cooldown: Option<int>, enable: bool)

  datatype TargetStatus = TargetStatus(passive: bool, level: int, hp: int, mp: int)

  /** The next time each kind of action is allowed. */
  datatype Cooldown = Cooldown(attack: Time, hpFood: Time, hpPill: Time, mp: Time, fp: Time, buff: Time, obstacle: Time)

  /** The global cooldown of a slot type, for the five types that have one. */
  function GlobalCooldownMs(slotType: int): (ms: Option<int>)
    ensures ms.Some? <==> slotType in {SlotTypeAttack, SlotTypeFood, SlotTypePill, SlotTypeMPRestore, SlotTypeFPRestore}
    ensures ms.Some? ==> ms.value > 0
  {
    if slotType == SlotTypeAttack then Some(CooldownAttack)
    else if slotType == SlotTypeFood then Some(CooldownHPFood)
    else if slotType == SlotTypePill then Some(CooldownHPPill)
    else if slotType == SlotTypeMPRestore then Some(CooldownMP)
    else if slotType == SlotTypeFPRestore then Some(CooldownFP)
    else None
  }

  /** The global cooldown field a slot type is checked against. */
  function Global(c: Cooldown, slotType: int): Option<Time>
  {
    if slotType == SlotTypeAttack then Some(c.attack)
    else if slotType == SlotTypeFood then Some(c.hpFood)
    else if slotType == SlotTypePill then Some(c.hpPill)
    else if slotType == SlotTypeMPRestore then Some(c.mp)
    else if slotType == SlotTypeFPRestore then Some(c.fp)
    else None
  }

  /** The cooldowns after an action of `slotType` at `now`: that type's
      field moves to now plus its global cooldown; other types have none. */
  function WithGlobal(c: Cooldown, slotType: int, now: Time): (r: Cooldown)
    ensures forall t :: t != slotType ==> Global(r, t) == Global(c, t)
    ensures r.buff == c.buff && r.obstacle == c.obstacle
  {
    var d := if GlobalCooldownMs(slotType).Some? then now + GlobalCooldownMs(slotType).value * Millisecond else 0;
    if slotType == SlotTypeAttack then c.(attack := d)
    else if slotType == SlotTypeFood then c.(hpFood := d)
    else if slotType == SlotTypePill then c.(hpPill := d)
    else if slotType == SlotTypeMPRestore then c.(mp := d)
    else if slotType == SlotTypeFPRestore then c.(fp := d)
    else c
  }

  /** The type's global cooldown holds the action back at `now`. */
  predicate GloballyBlocked(c: Cooldown, slotType: int, now: Time)
  {
    Global(c, slotType).Some? && Global(c, slotType).value > now
  }

  /** Right after an action, the same type is held back at the same
      instant: an immediate repeat of Attack, Food, Pill, MP or FP finds
      nothing. */
  lemma RepeatBlocked(c: Cooldown, slotType: int, now: Time)
    requires GlobalCooldownMs(slotType).Some?
    ensures GloballyBlocked(WithGlobal(c, slotType, now), slotType, now)
  {
  }

  /** Types without a global cooldown are never held back globally, and
      setting one leaves them alone. */
  lemma NoGlobalNeverBlocked(c: Cooldown, slotType: int, now: Time)
    requires GlobalCooldownMs(slotType).None?
    ensures !GloballyBlocked(c, slotType, now) && WithGlobal(c, slotType, now) == c
  {
  }

  /** `fmt.Sprintf("%d:%d", page, slot)`. */
  function SlotKey(page: int, slot: int): string
  {
    Decimal(page) + ":" + Decimal(slot)
  }

  /** Distinct slots never share a cooldown entry: the key gives back its
      page and slot. */
  lemma SlotKeyInjective(p1: int, s1: int, p2: int, s2: int)
    requires SlotKey(p1, s1) == SlotKey(p2, s2)
    ensures p1 == p2 && s1 == s2
  {
    var a, b := Decimal(p1), Decimal(p2);
    var k := SlotKey(p1, s1);
    assert k[|a|] == ':';
    assert SlotKey(p2, s2)[|b|] == ':';
    if |a| != |b| {
      assert false;
    }
    assert a == k[..|a|] == b;
    assert Decimal(s1) == k[|a| + 1..] == Decimal(s2);
    DecimalInjective(p1, p2);
    DecimalInjective(s1, s2);
  }

  /** The slot cooldowns that survive the clean-up at `now`: those still
      strictly in the future. */
  function Live(m: map<string, Time>, now: Time): (r: map<string, Time>)
    ensures forall k :: k in r <==> k in m && m[k] > now
    ensures forall k :: k in r ==> r[k] == m[k]
  {
    map k | k in m && m[k] > now :: m[k]
  }

  /** A slot the search accepts: enabled, of the requested type, within
      its threshold if it has one, and not cooling down. */
  predicate Eligible(s: Slot, slotType: int, currentValue: int, cooldowns: map<string, Time>, now: Time)
  {
    s.enable && s.kind == slotType &&
    (s.threshold.None? || currentValue <= s.threshold.value) &&
    !(SlotKey(s.page, s.slot) in cooldowns && cooldowns[SlotKey(s.page, s.slot)] > now)
  }

  /** The eligible slots, in configuration order. */
  function Candidates(slots: seq<Slot>, slotType: int, currentValue: int, cooldowns: map<string, Time>, now: Time): seq<Slot>
  {
    if slots == [] then []
    else
      var init := Candidates(slots[..|slots| - 1], slotType, currentValue, cooldowns, now);
      var s := slots[|slots| - 1];
      if Eligible(s, slotType, currentValue, cooldowns, now) then init + [s] else init
  }

  /** The candidates are exactly the eligible configured slots. */
  lemma {:induction false} CandidatesSpec(slots: seq<Slot>, slotType: int, currentValue: int, cooldowns: map<string, Time>, now: Time)
    ensures forall s :: s in Candidates(slots, slotType, currentValue, cooldowns, now) <==>
                        s in slots && Eligible(s, slotType, currentValue, cooldowns, now)
  {
    if slots != [] {
      var init := slots[..|slots| - 1];
      assert slots == init + [slots[|slots| - 1]];
      CandidatesSpec(init, slotType, currentValue, cooldowns, now);
    }
  }

  /** The Food/Pill preference: a slot with a threshold beats one without,
      and a strictly lower threshold beats a higher one. */
  predicate Prefer(s: Slot, best: Slot)
  {
    s.threshold.Some? && (best.threshold.None? || s.threshold.value < best.threshold.value)
  }

  /** The best slot after scanning `cands` from the first. */
  function Lowest(cands: seq<Slot>): Slot
    requires cands != []
  {
    if |cands| == 1 then cands[0]
    else
      var best := Lowest(cands[..|cands| - 1]);
      if Prefer(cands[|cands| - 1], best) then cands[|cands| - 1] else best
  }

  /** What the Food/Pill choice is: at position j, the first slot with the
      smallest threshold when any slot has one, else the first slot. */
  lemma {:induction false} LowestSpec(cands: seq<Slot>) returns (j: nat)
    requires cands != []
    ensures j < |cands| && Lowest(cands) == cands[j]
    ensures (forall i :: 0 <= i < |cands| ==> cands[i].threshold.None?) ==> j == 0
    ensures cands[j].threshold.Some? ==>
              (forall i :: 0 <= i < |cands| && cands[i].threshold.Some? ==> cands[j].threshold.value <= cands[i].threshold.value) &&
              (forall i :: 0 <= i < j && cands[i].threshold.Some? ==> cands[j].threshold.value < cands[i].threshold.value)
    ensures cands[j].threshold.None? ==> j == 0 && forall i :: 0 <= i < |cands| ==> cands[i].threshold.None?
  {
    if |cands| == 1 {
      j := 0;
    } else {
      var init := cands[..|cands| - 1];
      var k := LowestSpec(init);
      var last := cands[|cands| - 1];
      assert forall i :: 0 <= i < |init| ==> init[i] == cands[i];
      if Prefer(last, Lowest(init)) {
        j := |cands| - 1;
      } else {
        j := k;
      }
    }
  }

  /** The slot the search settles on among non-empty candidates. */
  function Choice(cands: seq<Slot>, slotType: int): Slot
    requires cands != []
  {
    if slotType == SlotTypeFood || slotType == SlotTypePill then Lowest(cands) else cands[0]
  }

  /** The chosen slot is one of the candidates, hence enabled, of the
      requested type and within its threshold. */
  lemma ChoiceIsCandidate(cands: seq<Slot>, slotType: int)
    requires cands != []
    ensures Choice(cands, slotType) in cands
  {
    var j := LowestSpec(cands);
  }

  /** The slot cooldowns after pressing `c` at `now`: its own cooldown
      starts when it has one. */
  function StartSlotCooldown(m: map<string, Time>, c: Slot, now: Time): (r: map<string, Time>)
    ensures c.cooldown.None? ==> r == m
    ensures c.cooldown.Some? ==> SlotKey(c.page, c.slot) in r && r[SlotKey(c.page, c.slot)] == now + FromMilliseconds(c.cooldown.value)
    ensures forall k :: k != SlotKey(c.page, c.slot) ==> (k in r <==> k in m) && (k in m ==> r[k] == m[k])
  {
    if c.cooldown.Some? then m[SlotKey(c.page, c.slot) := now + FromMilliseconds(c.cooldown.value)] else m
  }

  /** The page to switch to: -1 when the slot is on the current page. */
  function PageToPress(page: int, currentPage: int): (r: int)
    ensures r == -1 <==> page == currentPage || page == -1
    ensures r != -1 ==> r == page
  {
    if page == currentPage then -1 else page
  }

  /** The candidate loop of `GetAvailableSlot`. */
  method FindCandidates(slots: seq<Slot>, slotType: int, currentValue: int, cooldowns: map<string, Time>, now: Time)
    returns (cands: seq<Slot>)
    ensures cands == Candidates(slots, slotType, currentValue, cooldowns, now)
  {
    cands := [];
    var i := 0;
    while i < |slots|
      invariant 0 <= i <= |slots|
      invariant cands == Candidates(slots[..i], slotType, currentValue, cooldowns, now)
    {
      var s := slots[i];
      assert slots[..i + 1] == slots[..i] + [s];
      if !s.enable {
      } else if s.kind != slotType {
      } else if s.threshold.Some? && currentValue > s.threshold.value {
      } else if SlotKey(s.page, s.slot) in cooldowns && cooldowns[SlotKey(s.page, s.slot)] > now {
      } else {
        cands := cands + [s];
      }
      i := i + 1;
    }
    assert slots[..i] == slots;
  }

  /** The Food/Pill loop of `GetAvailableSlot`. */
  method PickLowest(cands: seq<Slot>) returns (best: Slot)
    requires cands != []
    ensures best == Lowest(cands)
  {
    best := cands[0];
    var i := 1;
    while i < |cands|
      invariant 1 <= i <= |cands|
      invariant best == Lowest(cands[..i])
    {
      var s := cands[i];
      assert cands[..i + 1][..i] == cands[..i];
      if Prefer(s, best) {
        best := s;
      }
      i := i + 1;
    }
    assert cands[..i] == cands;
  }

  /** The choice of `GetAvailableSlot` among its candidates. */
  method ChooseSlot(cands: seq<Slot>, slotType: int) returns (best: Slot)
    requires cands != []
    ensures best == Choice(cands, slotType)
  {
    if slotType == SlotTypeFood || slotType == SlotTypePill {
      best := PickLowest(cands);
    } else {
      best := cands[0];
    }
  }

  /** `timeToRemaining`: whole milliseconds until `t`, 0 for the zero
      time or a time already past. */
  function TimeToRemaining(t: Time, now: Time): (ms: int)
    ensures ms >= 0
    ensures IsZero(t) || t <= now ==> ms == 0
    ensures !IsZero(t) && now < t <= now + MaxDuration ==> ms * Millisecond <= t - now < (ms + 1) * Millisecond
  {
    if IsZero(t) then 0
    else
      var remaining := Milliseconds(Sub(t, now));
      if remaining < 0 then 0 else remaining
  }

  /** `timeToElapsed`: whole milliseconds since `t`, 0 for the zero time
      or a time still ahead. */
  function TimeToElapsed(t: Time, now: Time): (ms: int)
    ensures ms >= 0
    ensures IsZero(t) || now <= t ==> ms == 0
    ensures !IsZero(t) && t < now <= t + MaxDuration ==> ms * Millisecond <= now - t < (ms + 1) * Millisecond
  {
    if IsZero(t) then 0
    else
      var elapsed := Milliseconds(Sub(now, t));
      if elapsed < 0 then 0 else elapsed
  }

  /** A timestamp is never both ahead and behind: at most one of the two
      views is positive. */
  lemma RemainingOrElapsed(t: Time, now: Time)
    ensures TimeToRemaining(t, now) == 0 || TimeToElapsed(t, now) == 0
  {
  }

  class Config {
    /** `Stat.Slots`. */
    var slots: seq<Slot>
    /** `Status.Player`. */
    var currentPage: int
    var killed: int
    var lastKilledTime: Time
    /** `Status.Target`; None is nil. */
    var target: Option<TargetStatus>
    /** `Status.Actions`. */
    var actions: seq<string>
    /** `Status.Cooldown`, the per-slot map apart. */
    var cooldown: Cooldown
    var slotCooldowns: map<string, Time>

    /** `GetAvailableSlot`: the (page, slot) to press for an action of
        `slotType` at `currentValue`, or (-1, -1).  A global cooldown
        answers at once and changes nothing; otherwise expired slot
        cooldowns are dropped, and a chosen slot starts its own cooldown
        (if configured) and its type's global one. */
    method GetAvailableSlot(slotType: int, currentValue: int, now: Time) returns (page: int, slot: int)
      modifies this`cooldown, this`slotCooldowns
      ensures GloballyBlocked(old(cooldown), slotType, now) ==>
                page == -1 && slot == -1 && slotCooldowns == old(slotCooldowns) && cooldown == old(cooldown)
      ensures !GloballyBlocked(old(cooldown), slotType, now) ==>
                var live := Live(old(slotCooldowns), now);
                var cands := Candidates(slots, slotType, currentValue, live, now);
                (cands == [] ==> page == -1 && slot == -1 && slotCooldowns == live && cooldown == old(cooldown)) &&
                (cands != [] ==>
                   var c := Choice(cands, slotType);
                   slot == c.slot && page == PageToPress(c.page, currentPage) &&
                   cooldown == WithGlobal(old(cooldown), slotType, now) &&
                   slotCooldowns == StartSlotCooldown(live, c, now))
    {
      if GloballyBlocked(cooldown, slotType, now) {
        return -1, -1;
      }
      slotCooldowns := Live(slotCooldowns, now);
      var cands := FindCandidates(slots, slotType, currentValue, slotCooldowns, now);
      if |cands| == 0 {
        return -1, -1;
      }
      var best := ChooseSlot(cands, slotType);
      if best.cooldown.Some? {
        slotCooldowns := slotCooldowns[SlotKey(best.page, best.slot) := now + FromMilliseconds(best.cooldown.value)];
      }
      cooldown := WithGlobal(cooldown, slotType, now);
      page := PageToPress(best.page, currentPage);
      slot := best.slot;
    }

    /** `AddAction`: append, keeping the newest ten. */
    method AddAction(action: string)
      modifies this`actions
      ensures actions == Appended(old(actions), action, ActionCapacity)
    {
      actions := actions + [action];
      if |actions| > 10 {
        actions := actions[|actions| - 10..];
      }
    }

    /** `AddKilled`: one more kill, at `now`. */
    method AddKilled(now: Time)
      modifies this`killed, this`lastKilledTime
      ensures killed == old(killed) + 1 && lastKilledTime == now
    {
      killed := killed + 1;
      lastKilledTime := now;
    }

    /** `UpdateTarget`: no target unless one is selected. */
    method UpdateTarget(selected: bool, level: int, hp: int, mp: int, passive: bool)
      modifies this`target
      ensures target == if selected then Some(TargetStatus(passive, level, hp, mp)) else None
    {
      if !selected {
        target := None;
        return;
      }
      target := Some(TargetStatus(passive, level, hp, mp));
    }
  }
}
