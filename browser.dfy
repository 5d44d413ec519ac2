/** The action log of the browser controller and its small formatting
    helpers.  The chromedp session itself is not modelled. */
module Browser {
  import opened GoInt
  import opened Clock
  import opened Text
  import opened History

  /** How many entries the log keeps, and how many `GetRecentLogs` shows. */
  const LogCapacity := 10
  const RecentCount := 5

  datatype ActionLog = ActionLog(message: string, timestamp: Time)

  /** `formatInt`. */
  function FormatInt(i: int): (s: string)
    ensures IsDecimal(s) && ParseDecimal(s) == i
  {
    DecimalRoundTrip(i);
    Decimal(i)
  }

  /** `formatIntSlice`: the first number, then ", n" for each further one. */
  method FormatIntSlice(slice: seq<int>) returns (result: string)
    ensures result == Join(Decimals(slice), ", ")
  {
    if |slice| == 0 {
      return "";
    }
    result := Decimal(slice[0]);
    var i := 1;
    while i < |slice|
      invariant 1 <= i <= |slice|
      invariant result == Join(Decimals(slice[..i]), ", ")
    {
      assert Decimals(slice[..i + 1]) == Decimals(slice[..i]) + [Decimal(slice[i])];
      JoinSnoc(Decimals(slice[..i]), Decimal(slice[i]), ", ");
      result := result + ", " + Decimal(slice[i]);
      i := i + 1;
    }
    assert slice[..i] == slice;
  }

  function Decimals(s: seq<int>): (r: seq<string>)
    ensures |r| == |s| && forall k :: 0 <= k < |s| ==> r[k] == Decimal(s[k])
  {
    seq(|s|, k requires 0 <= k < |s| => Decimal(s[k]))
  }

  /** An empty slice prints as the empty string; otherwise the text starts
      with the first number and holds one ", " per further number. */
  lemma FormatIntSliceShape(slice: seq<int>)
    ensures slice == [] <==> Join(Decimals(slice), ", ") == []
    ensures |slice| == 1 ==> Join(Decimals(slice), ", ") == Decimal(slice[0])
  {
    if slice != [] {
      JoinNonEmpty(Decimals(slice), ", ");
    }
  }

  lemma {:induction false} JoinNonEmpty(parts: seq<string>, sep: string)
    requires parts != [] && forall k :: 0 <= k < |parts| ==> parts[k] != []
    ensures Join(parts, sep) != []
  {
    if |parts| > 1 {
      JoinNonEmpty(parts[..|parts| - 1], sep);
    }
  }

  class Browser {
    var actionLogs: seq<ActionLog>

    constructor ()
      ensures actionLogs == []
    {
      actionLogs := [];
    }

    /** `LogAction`: append, then keep the newest ten. */
    method LogAction(message: string, now: Time)
      modifies this
      ensures actionLogs == Appended(old(actionLogs), ActionLog(message, now), LogCapacity)
    {
      actionLogs := actionLogs + [ActionLog(message, now)];
      if |actionLogs| > LogCapacity {
        actionLogs := actionLogs[|actionLogs| - LogCapacity..];
      }
    }

    /** `GetActionLogs`: a copy of the log. */
    method GetActionLogs() returns (logs: seq<ActionLog>)
      ensures logs == actionLogs
    {
      logs := actionLogs;
    }

    /** `GetRecentLogs`: the last min(5, n) entries, oldest first. */
    method GetRecentLogs() returns (result: seq<ActionLog>)
      ensures result == Recent(actionLogs, RecentCount)
      ensures |result| == Min(RecentCount, |actionLogs|)
    {
      var count := RecentCount;
      if |actionLogs| < count {
        count := |actionLogs|;
      }
      if count == 0 {
        return [];
      }
      result := actionLogs[|actionLogs| - count..];
    }
  }

  /** `GetScreenBounds`: the fixed 800 by 600 viewport at the origin, as
      (minX, minY, maxX, maxY). */
  function GetScreenBounds(): (r: (int, int, int, int))
    ensures r.2 - r.0 == 800 && r.3 - r.1 == 600 && r.0 == 0 && r.1 == 0
  {
    (0, 0, 800, 600)
  }
}
