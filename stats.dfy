/** The player and target statistics of src/stats.go: each bar's fixed
    region and colour range, the widest-contour percentage with its
    never-shrinking maximum width, the "stat tray closed" counter, the
    alive state and the target flags.  The HSV frame reaches the model
    as its size, and the contour search inside a bar's region as the
    list of its bounding rectangles. */
module Stats {
  import opened GoInt
  import opened Wrappers
  import opened ImageRect
  import opened BarFill

  /** `StatusBarKind`. */
  const KindHP: int := 0
  const KindMP: int := 1
  const KindFP: int := 2
  const KindTargetHP: int := 3
  const KindTargetMP: int := 4

  /** `AliveState`. */
  const AliveUnknown: int := 0
  const AliveTrayClosed: int := 1
  const AliveAlive: int := 2
  const AliveDead: int := 3

  /** All-zero readings in a row after which the counter starts over. */
  const TrayMissLimit: int := 5

  function KindName(k: int): string
  {
    if k == KindHP then "HP"
    else if k == KindMP then "MP"
    else if k == KindFP then "FP"
    else if k == KindTargetHP then "enemy HP"
    else if k == KindTargetMP then "enemy MP"
    else "Unknown"
  }

  /** The five kinds have five different names, none of them "Unknown",
      and every other value is "Unknown". */
  lemma KindNames(k: int, j: int)
    ensures 0 <= k <= 4 && 0 <= j <= 4 && k != j ==> KindName(k) != KindName(j)
    ensures 0 <= k <= 4 <==> KindName(k) != "Unknown"
  {
  }

  datatype StatusBarConfig = StatusBarConfig(minX: int, minY: int, maxX: int, maxY: int, range: HSVRange)

  const ZeroConfig := StatusBarConfig(0, 0, 0, 0, HSVRange(0, 0, 0, 0, 0, 0))

  const RedRange := HSVRange(170, 175, 120, 200, 150, 230)
  const BlueRange := HSVRange(99, 117, 114, 200, 190, 240)
  const GreenRange := HSVRange(52, 60, 150, 173, 150, 230)

  /** `GetStatusBarConfig`. */
  function ConfigOf(k: int): StatusBarConfig
  {
    if k == KindHP then StatusBarConfig(105, 30, 225, 110, RedRange)
    else if k == KindMP then StatusBarConfig(105, 30, 225, 110, BlueRange)
    else if k == KindFP then StatusBarConfig(105, 30, 225, 110, GreenRange)
    else if k == KindTargetHP then StatusBarConfig(300, 30, 550, 60, RedRange)
    else if k == KindTargetMP then StatusBarConfig(300, 50, 550, 60, BlueRange)
    else ZeroConfig
  }

  /** An unknown kind gets the zero configuration; the player's bars share
      one region and the target's bars share their right part, each with
      a positive width; a target bar uses its player bar's colours. */
  lemma ConfigSpec(k: int)
    ensures !(0 <= k <= 4) ==> ConfigOf(k) == ZeroConfig
    ensures 0 <= k <= 2 ==> (ConfigOf(k).minX, ConfigOf(k).minY, ConfigOf(k).maxX, ConfigOf(k).maxY) == (105, 30, 225, 110)
    ensures 0 <= k <= 4 ==> ConfigOf(k).maxX - ConfigOf(k).minX > 0 && ConfigOf(k).maxY - ConfigOf(k).minY > 0
    ensures ConfigOf(KindTargetHP).range == ConfigOf(KindHP).range && ConfigOf(KindTargetMP).range == ConfigOf(KindMP).range
  {
  }

  /** The widest bounding rectangle's width, 0 for none. */
  function Widest(rects: seq<Rectangle>): (w: int)
    ensures w >= 0
    ensures forall k :: 0 <= k < |rects| ==> Dx(rects[k]) <= w
    ensures w == 0 || exists k :: 0 <= k < |rects| && Dx(rects[k]) == w
  {
    if rects == [] then 0
    else
      var front := Widest(rects[..|rects| - 1]);
      var last := Dx(rects[|rects| - 1]);
      assert forall k :: 0 <= k < |rects| - 1 ==> rects[..|rects| - 1][k] == rects[k];
      if last > front then last else front
  }

  /** The loop over the contours keeping the largest width. */
  method WidestWidth(rects: seq<Rectangle>) returns (maxWidth: int)
    ensures maxWidth == Widest(rects)
  {
    maxWidth := 0;
    var i := 0;
    while i < |rects|
      invariant 0 <= i <= |rects|
      invariant maxWidth == Widest(rects[..i])
    {
      assert rects[..i + 1][..i] == rects[..i];
      if Dx(rects[i]) > maxWidth {
        maxWidth := Dx(rects[i]);
      }
      i := i + 1;
    }
    assert rects[..i] == rects;
  }

  /** `int(float64(w) / float64(roiWidth) * 100)` kept within [0, 100],
      over exact rationals; 0 when the region has no width. */
  function Percentage(w: int, roiWidth: int): (v: int)
    ensures 0 <= v <= 100
    ensures roiWidth <= 0 ==> v == 0
    ensures 0 <= w <= roiWidth && roiWidth > 0 ==> v * roiWidth <= w * 100 < (v + 1) * roiWidth
    ensures 0 < roiWidth <= w ==> v == 100
  {
    if roiWidth > 0 then
      var x := w as real / roiWidth as real * 100.0;
      var t := Trunc(x);
      PercentageBounds(w, roiWidth, x);
      if t < 0 then 0 else if t > 100 then 100 else t
    else 0
  }

  /** The truncated rational percentage is the integer quotient for a
      non-negative width and at most 0 for a negative one. */
  lemma PercentageBounds(w: int, roiWidth: int, x: real)
    requires roiWidth > 0 && x == w as real / roiWidth as real * 100.0
    ensures w >= 0 ==> Trunc(x) == w * 100 / roiWidth
    ensures w < 0 ==> Trunc(x) <= 0
    ensures 0 <= w <= roiWidth ==> w * 100 / roiWidth <= 100
    ensures 0 < roiWidth <= w ==> w * 100 / roiWidth >= 100
  {
    var q := w * 100 / roiWidth;
    assert q * roiWidth <= w * 100 < (q + 1) * roiWidth;
    if w >= 0 {
      assert x * roiWidth as real == (w * 100) as real;
      QuotientFloor(w * 100, roiWidth, x);
    }
    if 0 <= w <= roiWidth {
      assert w * 100 <= 100 * roiWidth;
      MulLessCancel(q, 101, roiWidth);
    }
    if 0 < roiWidth <= w {
      assert 100 * roiWidth <= w * 100;
      MulLessCancel(99, q + 1, roiWidth);
    }
  }

  lemma QuotientFloor(a: int, b: int, x: real)
    requires a >= 0 && b > 0 && x * b as real == a as real
    ensures Trunc(x) == a / b
  {
    var q := a / b;
    DivBounds(a, b);
    ScaledBelow(q, b, x);
    ScaledAbove(q + 1, b, x);
    FloorUnique(x, q);
  }

  lemma DivBounds(a: int, b: int)
    requires a >= 0 && b > 0
    ensures a / b >= 0 && (a / b) * b <= a < (a / b + 1) * b
  {
  }

  lemma ScaledBelow(m: int, b: int, x: real)
    requires b > 0 && (m * b) as real <= x * b as real
    ensures m as real <= x
  {
    assert (m * b) as real == m as real * b as real;
    ScaleCancel(m as real, x, b as real);
  }

  lemma ScaledAbove(m: int, b: int, x: real)
    requires b > 0 && x * b as real < (m * b) as real
    ensures x < m as real
  {
    assert (m * b) as real == m as real * b as real;
    ScaleCancel(x, m as real, b as real);
  }

  lemma FloorUnique(x: real, q: int)
    requires q >= 0 && q as real <= x < q as real + 1.0
    ensures Trunc(x) == q
  {
    var t := Trunc(x);
    assert t as real <= x < t as real + 1.0;
  }

  lemma ScaleCancel(a: real, b: real, r: real)
    requires r > 0.0
    ensures a * r <= b * r ==> a <= b
    ensures a * r < b * r ==> a < b
  {
  }

  lemma MulLessCancel(a: int, b: int, c: int)
    requires c > 0 && a * c < b * c
    ensures a < b
  {
  }

  /** The fields of `StatInfo`; times are milliseconds. */
  datatype StatSnapshot = StatSnapshot(maxW: int, value: int, kind: int, lastValue: int, lastUpdateTime: int)

  /** The region lies inside a `cols` x `rows` frame. */
  predicate Inside(c: StatusBarConfig, cols: int, rows: int)
  {
    !(c.minX < 0 || c.minY < 0 || c.maxX > cols || c.maxY > rows)
  }

  /** `UpdateValueOpenCV` on a frame of size `frame` (none for a nil
      matrix) whose bar region holds `rects`: the new fields and whether
      anything changed. */
  function UpdatedStat(s: StatSnapshot, frame: Option<(int, int)>, rects: seq<Rectangle>, now: int): (StatSnapshot, bool)
  {
    if frame.None? || frame.value.0 <= 0 || frame.value.1 <= 0 || !Inside(ConfigOf(s.kind), frame.value.0, frame.value.1) then
      (s, false)
    else
      var c := ConfigOf(s.kind);
      var w := Widest(rects);
      var maxW := if w > s.maxW then w else s.maxW;
      var v := Percentage(w, c.maxX - c.minX);
      var s1 := s.(maxW := maxW);
      if v != s.value then (s1.(value := v, lastUpdateTime := now), true)
      else (s1, maxW != s.maxW)
  }

  /** A missing or empty frame, or a region outside it, changes nothing.
      Otherwise the maximum width never shrinks, the value lies in
      [0, 100], the value and its time change only together and only
      when the value differs, and the result says whether the maximum
      width or the value changed. */
  lemma UpdatedStatSpec(s: StatSnapshot, frame: Option<(int, int)>, rects: seq<Rectangle>, now: int)
    ensures var (t, changed) := UpdatedStat(s, frame, rects, now);
      t.maxW >= s.maxW && t.kind == s.kind && t.lastValue == s.lastValue &&
      (changed <==> t.maxW != s.maxW || t.value != s.value) &&
      (t.value == s.value ==> t.lastUpdateTime == s.lastUpdateTime) &&
      (t.value != s.value ==> t.lastUpdateTime == now && 0 <= t.value <= 100)
    ensures frame.None? ==> UpdatedStat(s, frame, rects, now) == (s, false)
    ensures frame.Some? && (frame.value.0 <= 0 || frame.value.1 <= 0) ==> UpdatedStat(s, frame, rects, now) == (s, false)
    ensures frame.Some? && frame.value.0 > 0 && frame.value.1 > 0 && Inside(ConfigOf(s.kind), frame.value.0, frame.value.1) ==>
      UpdatedStat(s, frame, rects, now).0.maxW == Max(s.maxW, Widest(rects)) &&
      UpdatedStat(s, frame, rects, now).0.value == Percentage(Widest(rects), ConfigOf(s.kind).maxX - ConfigOf(s.kind).minX)
  {
  }

  /** An unknown kind has a region of no width: once read, its value is 0. */
  lemma UnknownKindReadsZero(s: StatSnapshot, cols: int, rows: int, rects: seq<Rectangle>, now: int)
    requires !(0 <= s.kind <= 4) && cols > 0 && rows > 0
    ensures UpdatedStat(s, Some((cols, rows)), rects, now).0.value == 0
  {
  }

  /** `StatInfo`. */
  class StatInfo {
    var maxW: int
    var value: int
    var kind: int
    var lastValue: int
    var lastUpdateTime: int

    function Snapshot(): StatSnapshot
      reads this
    {
      StatSnapshot(maxW, value, kind, lastValue, lastUpdateTime)
    }

    /** `NewStatInfo`: the previous value starts at 100. */
    constructor(maxW0: int, value0: int, kind0: int, now: int)
      ensures Snapshot() == StatSnapshot(maxW0, value0, kind0, 100, now)
    {
      maxW, value, kind, lastValue, lastUpdateTime := maxW0, value0, kind0, 100, now;
    }

    method GetValue() returns (v: int)
      ensures v == value
    {
      v := value;
    }

    /** `ResetLastUpdateTime`: the value's time moves to `now`. */
    method ResetLastUpdateTime(now: int)
      modifies this`lastUpdateTime
      ensures Snapshot() == old(Snapshot()).(lastUpdateTime := now)
    {
      lastUpdateTime := now;
    }

    method UpdateValue(frame: Option<(int, int)>, rects: seq<Rectangle>, now: int) returns (changed: bool)
      modifies this`maxW, this`value, this`lastValue, this`lastUpdateTime
      ensures (Snapshot(), changed) == UpdatedStat(old(Snapshot()), frame, rects, now)
    {
      if frame.None? || frame.value.0 <= 0 || frame.value.1 <= 0 {
        return false;
      }
      var config := ConfigOf(kind);
      var roiWidth := config.maxX - config.minX;
      if config.minX < 0 || config.minY < 0 || config.maxX > frame.value.0 || config.maxY > frame.value.1 {
        return false;
      }
      var maxWidth := WidestWidth(rects);
      var oldMaxW := maxW;
      var oldValue := value;
      if maxWidth > maxW {
        maxW := maxWidth;
      }
      var newValue := Percentage(maxWidth, roiWidth);
      changed := false;
      if maxW != oldMaxW {
        changed := true;
      }
      if newValue != oldValue {
        value := newValue;
        lastUpdateTime := now;
        changed := true;
      }
    }
  }

  /** `detectStatTray`: all three player bars at 0 count a miss (the
      counter starting over at 5) and read as a closed tray; anything else
      clears the counter. */
  function TrayNext(misses: int, hp: int, mp: int, fp: int): (int, bool)
  {
    if hp == 0 && mp == 0 && fp == 0 then
      (if misses + 1 >= TrayMissLimit then 0 else misses + 1, false)
    else (0, true)
  }

  /** The tray reads open exactly when some bar is non-zero; the counter
      stays in [0, 4] and returns to 0 after five misses in a row. */
  lemma {:induction false} TrayNextSpec(misses: int, hp: int, mp: int, fp: int)
    requires 0 <= misses < TrayMissLimit
    ensures TrayNext(misses, hp, mp, fp).1 <==> !(hp == 0 && mp == 0 && fp == 0)
    ensures 0 <= TrayNext(misses, hp, mp, fp).0 < TrayMissLimit
    ensures TrayNext(misses, hp, mp, fp).1 ==> TrayNext(misses, hp, mp, fp).0 == 0
  {
  }

  /** `n` closed-tray readings in a row from a cleared counter. */
  function Misses(n: nat): int
  {
    if n == 0 then 0 else TrayNext(Misses(n - 1), 0, 0, 0).0
  }

  lemma {:induction false} MissesCycle(n: nat)
    ensures Misses(n) == n % TrayMissLimit
  {
    if n > 0 {
      MissesCycle(n - 1);
    }
  }

  /** `calculateAliveState`. */
  function AliveOf(trayOpen: bool, hp: int): (a: int)
    ensures a == AliveTrayClosed <==> !trayOpen
    ensures a == AliveAlive <==> trayOpen && hp > 0
    ensures a == AliveDead <==> trayOpen && hp <= 0
  {
    if !trayOpen then AliveTrayClosed else if hp > 0 then AliveAlive else AliveDead
  }

  /** `ClientStats` (the detected-bar positions for drawing and the target
      marker are left out). */
  class ClientStats {
    var hasTrayOpen: bool
    var hp: StatInfo
    var mp: StatInfo
    var fp: StatInfo
    var targetHP: StatInfo
    var targetMP: StatInfo
    var targetIsMover: bool
    var targetIsNPC: bool
    var targetIsAlive: bool
    var isAlive: int
    var statTryNotDetectedCount: int

    /** The five bars are five different objects of their own kinds, and
        the miss counter stays in [0, 4]. */
    ghost predicate Valid()
      reads this, hp, mp, fp, targetHP, targetMP
    {
      hp != mp && hp != fp && hp != targetHP && hp != targetMP && mp != fp && mp != targetHP &&
      mp != targetMP && fp != targetHP && fp != targetMP && targetHP != targetMP &&
      hp.kind == KindHP && mp.kind == KindMP && fp.kind == KindFP &&
      targetHP.kind == KindTargetHP && targetMP.kind == KindTargetMP &&
      0 <= statTryNotDetectedCount < TrayMissLimit
    }

    /** `NewClientStats`: the player's bars start at 100, the target's at
        0, the tray closed. */
    constructor(now: int)
      ensures Valid() && fresh(hp) && fresh(mp) && fresh(fp) && fresh(targetHP) && fresh(targetMP)
      ensures hp.value == 100 && mp.value == 100 && fp.value == 100 && targetHP.value == 0 && targetMP.value == 0
      ensures !hasTrayOpen && isAlive == AliveTrayClosed && !targetIsMover && !targetIsNPC && !targetIsAlive
    {
      hasTrayOpen := false;
      hp := new StatInfo(0, 100, KindHP, now);
      mp := new StatInfo(0, 100, KindMP, now);
      fp := new StatInfo(0, 100, KindFP, now);
      targetHP := new StatInfo(0, 0, KindTargetHP, now);
      targetMP := new StatInfo(0, 0, KindTargetMP, now);
      isAlive := AliveTrayClosed;
      targetIsMover, targetIsNPC, targetIsAlive := false, false, false;
      statTryNotDetectedCount := 0;
    }

    method DetectStatTray() returns (open: bool)
      modifies this`statTryNotDetectedCount
      ensures (statTryNotDetectedCount, open) ==
        TrayNext(old(statTryNotDetectedCount), hp.value, mp.value, fp.value)
    {
      var hpVal := hp.GetValue();
      var mpVal := mp.GetValue();
      var fpVal := fp.GetValue();
      if hpVal == 0 && mpVal == 0 && fpVal == 0 {
        statTryNotDetectedCount := statTryNotDetectedCount + 1;
        if statTryNotDetectedCount >= TrayMissLimit {
          statTryNotDetectedCount := 0;
        }
        return false;
      }
      statTryNotDetectedCount := 0;
      return true;
    }

    /** `UpdateOpenCV`: every bar is re-read from the frame, then the tray,
        alive state and target flags follow from the new values.  `rects`
        gives, per kind, the contours found in that bar's region. */
    method UpdateOpenCV(frame: Option<(int, int)>, rects: int -> seq<Rectangle>, now: int)
      requires Valid()
      modifies this, hp, mp, fp, targetHP, targetMP
      ensures Valid()
      ensures hp.Snapshot() == UpdatedStat(old(hp.Snapshot()), frame, rects(KindHP), now).0
      ensures mp.Snapshot() == UpdatedStat(old(mp.Snapshot()), frame, rects(KindMP), now).0
      ensures fp.Snapshot() == UpdatedStat(old(fp.Snapshot()), frame, rects(KindFP), now).0
      ensures targetHP.Snapshot() == UpdatedStat(old(targetHP.Snapshot()), frame, rects(KindTargetHP), now).0
      ensures targetMP.Snapshot() == UpdatedStat(old(targetMP.Snapshot()), frame, rects(KindTargetMP), now).0
      ensures (statTryNotDetectedCount, hasTrayOpen) ==
        TrayNext(old(statTryNotDetectedCount), hp.value, mp.value, fp.value)
      ensures isAlive == AliveOf(hasTrayOpen, hp.value)
      ensures targetIsNPC <==> targetHP.value == 100 && targetMP.value == 0
      ensures targetIsMover <==> targetMP.value > 0
      ensures targetIsAlive <==> targetHP.value > 0
    {
      var _ := hp.UpdateValue(frame, rects(KindHP), now);
      var _ := mp.UpdateValue(frame, rects(KindMP), now);
      var _ := fp.UpdateValue(frame, rects(KindFP), now);
      var _ := targetHP.UpdateValue(frame, rects(KindTargetHP), now);
      var _ := targetMP.UpdateValue(frame, rects(KindTargetMP), now);
      UpdateFlags();
    }

    /** `UpdateAliveState`: the alive state from the tray flag and the HP
        value, nothing else touched. */
    method UpdateAliveState()
      modifies this`isAlive
      ensures isAlive == AliveOf(hasTrayOpen, hp.value)
    {
      isAlive := AliveOf(hasTrayOpen, hp.value);
    }

    /** The flags that follow the bar values. */
    method UpdateFlags()
      requires Valid()
      modifies this`hasTrayOpen, this`statTryNotDetectedCount, this`isAlive, this`targetIsNPC,
               this`targetIsMover, this`targetIsAlive
      ensures Valid()
      ensures (statTryNotDetectedCount, hasTrayOpen) ==
        TrayNext(old(statTryNotDetectedCount), hp.value, mp.value, fp.value)
      ensures isAlive == AliveOf(hasTrayOpen, hp.value)
      ensures targetIsNPC <==> targetHP.value == 100 && targetMP.value == 0
      ensures targetIsMover <==> targetMP.value > 0
      ensures targetIsAlive <==> targetHP.value > 0
    {
      hasTrayOpen := DetectStatTray();
      TrayNextSpec(old(statTryNotDetectedCount), hp.value, mp.value, fp.value);
      isAlive := AliveOf(hasTrayOpen, hp.value);
      var hpVal := targetHP.GetValue();
      var mpVal := targetMP.GetValue();
      targetIsNPC := hpVal == 100 && mpVal == 0;
      targetIsMover := mpVal > 0;
      targetIsAlive := hpVal > 0;
    }
  }
}
