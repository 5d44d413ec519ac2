/** The configuration edits behind the tray menu: slot-list toggles, the
    pickup radio choices, per-slot cooldowns, and which menu entries carry
    a checkmark.  The menu widgets, their event goroutines and saving the
    configuration are not modelled. */
module Tray {
  /** The six slot lists a slot menu can edit. */
  datatype SlotList = Attack | Heal | Buff | MPRestore | FPRestore | Pickup

  /** Index of the first occurrence of `n` in `s`, or |s| if none. */
  function FirstIndex(s: seq<int>, n: int): (i: nat)
    ensures i <= |s|
    ensures i < |s| ==> s[i] == n
    ensures forall k :: 0 <= k < i ==> s[k] != n
  {
    if s == [] then 0 else if s[0] == n then 0 else 1 + FirstIndex(s[1..], n)
  }

  /** One click on slot `n`: remove its first occurrence, or append it. */
  function Toggled(s: seq<int>, n: int): seq<int>
  {
    var i := FirstIndex(s, n);
    if i < |s| then s[..i] + s[i + 1..] else s + [n]
  }

  /** The click changes the count of `n` by one and nothing else. */
  lemma ToggledCounts(s: seq<int>, n: int)
    ensures n in s ==> multiset(Toggled(s, n)) == multiset(s) - multiset{n}
    ensures n !in s ==> multiset(Toggled(s, n)) == multiset(s) + multiset{n}
  {
    var i := FirstIndex(s, n);
    if i < |s| {
      assert s == s[..i] + [s[i]] + s[i + 1..];
    }
  }

  ghost predicate Distinct(s: seq<int>)
  {
    forall a, b :: 0 <= a < b < |s| ==> s[a] != s[b]
  }

  /** In a list without repeats a click flips the membership of `n` and
      leaves every other element in. */
  lemma ToggledFlips(s: seq<int>, n: int)
    requires Distinct(s)
    ensures (n in Toggled(s, n)) <==> n !in s
    ensures forall m :: m != n ==> (m in Toggled(s, n) <==> m in s)
  {
    ToggledCounts(s, n);
    DistinctCount(s, n);
    var t := Toggled(s, n);
    assert n in t <==> n in multiset(t);
    forall m | m != n ensures m in t <==> m in s {
      assert m in t <==> m in multiset(t);
      assert m in s <==> m in multiset(s);
    }
  }

  /** A click keeps a list free of repeats. */
  lemma ToggledDistinct(s: seq<int>, n: int)
    requires Distinct(s)
    ensures Distinct(Toggled(s, n))
  {
    var i := FirstIndex(s, n);
    var t := Toggled(s, n);
    if i < |s| {
      forall a, b | 0 <= a < b < |t| ensures t[a] != t[b] {
        assert t[a] == s[if a < i then a else a + 1];
        assert t[b] == s[if b < i then b else b + 1];
      }
    } else {
      assert n !in s;
      forall a, b | 0 <= a < b < |t| ensures t[a] != t[b] {
        if b == |s| {
          assert t[a] == s[a];
        }
      }
    }
  }

  lemma {:induction false} DistinctCount(s: seq<int>, n: int)
    requires Distinct(s)
    ensures multiset(s)[n] <= 1
  {
    if s != [] {
      var init := s[..|s| - 1];
      assert s == init + [s[|s| - 1]];
      DistinctCount(init, n);
      if s[|s| - 1] == n {
        assert n !in init;
      }
    }
  }

  /** Two clicks on the same slot give back the same set of slots. */
  lemma ToggleTwice(s: seq<int>, n: int)
    requires Distinct(s)
    ensures forall m :: m in Toggled(Toggled(s, n), n) <==> m in s
  {
    ToggledFlips(s, n);
    ToggledDistinct(s, n);
    ToggledFlips(Toggled(s, n), n);
  }

  /** The splice-or-append loop of `handleSlotClick`. */
  method ToggleSlot(slots: seq<int>, slotNum: int) returns (r: seq<int>)
    ensures r == Toggled(slots, slotNum)
  {
    r := slots;
    var i := 0;
    while i < |r|
      invariant 0 <= i <= |r| && r == slots
      invariant forall k :: 0 <= k < i ==> r[k] != slotNum
    {
      if r[i] == slotNum {
        return r[..i] + r[i + 1..];
      }
      i := i + 1;
    }
    r := r + [slotNum];
  }

  class TrayConfig {
    var attackSlots: seq<int>
    var healSlots: seq<int>
    var buffSlots: seq<int>
    var mpRestoreSlots: seq<int>
    var fpRestoreSlots: seq<int>
    var pickupSlots: seq<int>
    var pickupPetSlot: int
    var pickupMotionSlot: int
    var slotCooldowns: map<int, int>

    function Slots(list: SlotList): seq<int>
      reads this
    {
      match list
      case Attack => attackSlots
      case Heal => healSlots
      case Buff => buffSlots
      case MPRestore => mpRestoreSlots
      case FPRestore => fpRestoreSlots
      case Pickup => pickupSlots
    }

    /** `handleSlotClick`: scan for the slot, splice it out if found,
        otherwise append it. */
    method HandleSlotClick(list: SlotList, slotNum: int)
      modifies this
      ensures Slots(list) == Toggled(old(Slots(list)), slotNum)
      ensures forall other :: other != list ==> Slots(other) == old(Slots(other))
      ensures pickupPetSlot == old(pickupPetSlot) && pickupMotionSlot == old(pickupMotionSlot)
      ensures slotCooldowns == old(slotCooldowns)
    {
      var slots := ToggleSlot(Slots(list), slotNum);
      match list
      case Attack => attackSlots := slots;
      case Heal => healSlots := slots;
      case Buff => buffSlots := slots;
      case MPRestore => mpRestoreSlots := slots;
      case FPRestore => fpRestoreSlots := slots;
      case Pickup => pickupSlots := slots;
    }

    /** `handlePickupPetSlotClick`: selecting the selected slot disables
        the pet (-1). */
    method HandlePickupPetSlotClick(slotNum: int)
      modifies this
      ensures pickupPetSlot == RadioClick(old(pickupPetSlot), slotNum)
      ensures forall list :: Slots(list) == old(Slots(list))
      ensures pickupMotionSlot == old(pickupMotionSlot) && slotCooldowns == old(slotCooldowns)
    {
      if pickupPetSlot == slotNum {
        pickupPetSlot := -1;
      } else {
        pickupPetSlot := slotNum;
      }
    }

    /** `handlePickupMotionSlotClick`: the same toggle for the motion. */
    method HandlePickupMotionSlotClick(slotNum: int)
      modifies this
      ensures pickupMotionSlot == RadioClick(old(pickupMotionSlot), slotNum)
      ensures forall list :: Slots(list) == old(Slots(list))
      ensures pickupPetSlot == old(pickupPetSlot) && slotCooldowns == old(slotCooldowns)
    {
      if pickupMotionSlot == slotNum {
        pickupMotionSlot := -1;
      } else {
        pickupMotionSlot := slotNum;
      }
    }

    /** A cooldown choice: 0 ("Disabled") deletes the entry, any other
        value stores it. */
    method HandleSlotCooldownChoice(slotNum: int, cooldownMs: int)
      modifies this
      ensures slotCooldowns == CooldownChoice(old(slotCooldowns), slotNum, cooldownMs)
      ensures forall list :: Slots(list) == old(Slots(list))
      ensures pickupPetSlot == old(pickupPetSlot) && pickupMotionSlot == old(pickupMotionSlot)
    {
      if cooldownMs == 0 {
        slotCooldowns := slotCooldowns - {slotNum};
      } else {
        slotCooldowns := slotCooldowns[slotNum := cooldownMs];
      }
    }
  }

  /** A radio-style click: the selected slot becomes -1, any other click
      selects. */
  function RadioClick(current: int, slotNum: int): (r: int)
    ensures slotNum != -1 ==> (r == slotNum <==> current != slotNum)
    ensures r != slotNum ==> r == -1
  {
    if current == slotNum then -1 else slotNum
  }

  /** Clicking a slot selects it when it was not selected, and a second
      click on it disables it. */
  lemma RadioClickTwice(current: int, slotNum: int)
    requires current != slotNum && slotNum != -1
    ensures RadioClick(current, slotNum) == slotNum
    ensures RadioClick(RadioClick(current, slotNum), slotNum) == -1
  {
  }

  function CooldownChoice(cooldowns: map<int, int>, slotNum: int, cooldownMs: int): (r: map<int, int>)
    ensures cooldownMs == 0 <==> slotNum !in r
    ensures cooldownMs != 0 ==> r[slotNum] == cooldownMs
    ensures forall k :: k != slotNum ==> (k in r <==> k in cooldowns) && (k in r ==> r[k] == cooldowns[k])
  {
    if cooldownMs == 0 then cooldowns - {slotNum} else cooldowns[slotNum := cooldownMs]
  }

  /** The checkmark of slot entry `i` (0..9): set iff `i` is in the list. */
  function SlotCheckmarks(configSlots: seq<int>): (marks: seq<bool>)
    ensures |marks| == 10
    ensures forall i :: 0 <= i < 10 ==> (marks[i] <==> i in configSlots)
  {
    seq(10, i => i in configSlots)
  }

  /** The checkmark of threshold entry `i` (0..10): set iff i * 10 equals
      the threshold. */
  function ThresholdCheckmarks(threshold: int): (marks: seq<bool>)
    ensures |marks| == 11
    ensures forall i :: 0 <= i <= 10 ==> (marks[i] <==> i * 10 == threshold)
  {
    seq(11, i => i * 10 == threshold)
  }

  /** At most one threshold entry is checked, and one is exactly when the
      threshold is a multiple of ten from 0 to 100. */
  lemma ThresholdCheckmarksAtMostOne(threshold: int)
    ensures forall i, j :: 0 <= i < j <= 10 ==> !(ThresholdCheckmarks(threshold)[i] && ThresholdCheckmarks(threshold)[j])
    ensures (exists i :: 0 <= i <= 10 && ThresholdCheckmarks(threshold)[i]) <==> 0 <= threshold <= 100 && threshold % 10 == 0
  {
    var marks := ThresholdCheckmarks(threshold);
    if 0 <= threshold <= 100 && threshold % 10 == 0 {
      assert marks[threshold / 10];
    }
  }

  /** Pickup radio checkmarks: entry `i` is checked iff it is the chosen
      slot, so a disabled choice (-1) checks nothing. */
  function RadioCheckmarks(selected: int): (marks: seq<bool>)
    ensures |marks| == 10
    ensures forall i :: 0 <= i < 10 ==> (marks[i] <==> i == selected)
    ensures selected == -1 ==> forall i :: 0 <= i < 10 ==> !marks[i]
  {
    seq(10, i => i == selected)
  }
}
