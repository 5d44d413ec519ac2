/** The bounded logs the bot keeps ("append, then keep the last `cap`"). */
module History {
  import opened GoInt

  /** `s[len(s)-n:]` when `s` is longer than `n`, else `s` itself. */
  function Recent<T>(s: seq<T>, n: nat): (r: seq<T>)
    ensures |r| == Min(n, |s|)
    ensures r == s[|s| - |r|..]
  {
    if |s| > n then s[|s| - n..] else s
  }

  /** Appending `entry` and truncating to the newest `cap` entries. */
  function Appended<T>(log: seq<T>, entry: T, cap: nat): seq<T>
  {
    Recent(log + [entry], cap)
  }

  /** The log never holds more than `cap` entries, and the new entry is
      the last one. */
  lemma AppendedNewestLast<T>(log: seq<T>, entry: T, cap: nat)
    requires cap > 0
    ensures |Appended(log, entry, cap)| <= cap
    ensures Appended(log, entry, cap) != [] && Appended(log, entry, cap)[|Appended(log, entry, cap)| - 1] == entry
  {
    var s := log + [entry];
    assert Appended(log, entry, cap) == s[|s| - |Appended(log, entry, cap)|..];
  }

  /** What stays before the new entry is the newest `cap - 1` entries of
      the old log, in their order. */
  lemma AppendedKeepsRecent<T>(log: seq<T>, entry: T, cap: nat)
    requires cap > 0
    ensures Appended(log, entry, cap) == Recent(log, cap - 1) + [entry]
  {
    var s := log + [entry];
    var r := Appended(log, entry, cap);
    var k := Recent(log, cap - 1);
    assert |r| == |k| + 1;
    forall i | 0 <= i < |r| ensures r[i] == (k + [entry])[i] {
      assert r[i] == s[|s| - |r| + i];
    }
  }

  /** A log that never exceeded `cap` grows by one until it is full, and
      from then on the oldest entry drops out. */
  lemma AppendedShift<T>(log: seq<T>, entry: T, cap: nat)
    requires 0 < cap && |log| <= cap
    ensures |log| < cap ==> Appended(log, entry, cap) == log + [entry]
    ensures |log| == cap ==> Appended(log, entry, cap) == log[1..] + [entry]
  {
    AppendedKeepsRecent(log, entry, cap);
  }
}
