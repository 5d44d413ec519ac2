/** The "keep the first strictly better candidate" scan that several
    detectors run: a running best starts at an initial level (or at no
    level, standing for an infinite minimum), and a candidate replaces it
    only when its key is strictly greater.  Skipped candidates are None. */
module Selection {
  import opened Wrappers

  /** `k` replaces the running best at `level`; no level means any key wins. */
  predicate Beats(k: real, level: Option<real>)
  {
    level.None? || k > level.value
  }

  /** One step of the scan: candidate `c` replaces the kept one iff its
      key beats the running level. */
  function Keep<T>(state: (Option<T>, Option<real>), c: Option<(T, real)>): (Option<T>, Option<real>)
  {
    if c.Some? && Beats(c.value.1, state.1) then (Some(c.value.0), Some(c.value.1)) else state
  }

  /** The scan as the loops run it: the kept candidate and the running
      level after the candidates `s`. */
  function Scan<T>(s: seq<Option<(T, real)>>, init: Option<real>): (Option<T>, Option<real>)
  {
    if s == [] then (None, init) else Keep(Scan(s[..|s| - 1], init), s[|s| - 1])
  }

  lemma ScanStep<T>(s: seq<Option<(T, real)>>, c: Option<(T, real)>, init: Option<real>)
    ensures Scan(s + [c], init) == Keep(Scan(s, init), c)
  {
    assert (s + [c])[..|s|] == s;
  }

  /** The scan over the first k candidates of `s`, folded by position as
      the loops run it. */
  function ScanPrefix<T>(s: seq<Option<(T, real)>>, k: nat, init: Option<real>): (Option<T>, Option<real>)
    requires k <= |s|
  {
    if k == 0 then (None, init) else Keep(ScanPrefix(s, k - 1, init), s[k - 1])
  }

  lemma {:induction false} ScanPrefixIsScan<T>(s: seq<Option<(T, real)>>, k: nat, init: Option<real>)
    requires k <= |s|
    ensures ScanPrefix(s, k, init) == Scan(s[..k], init)
  {
    if k > 0 {
      ScanPrefixIsScan(s, k - 1, init);
      assert s[..k] == s[..k - 1] + [s[k - 1]];
      ScanStep(s[..k - 1], s[k - 1], init);
    }
  }

  /** Folding by position over all of `s` is the scan. */
  lemma ScanWhole<T>(s: seq<Option<(T, real)>>, init: Option<real>)
    ensures ScanPrefix(s, |s|, init) == Scan(s, init)
  {
    ScanPrefixIsScan(s, |s|, init);
    assert s[..|s|] == s;
  }

  /** Candidate j beats the initial level, no candidate has a larger key,
      and every earlier candidate has a strictly smaller one. */
  ghost predicate IsFirstBest<T>(s: seq<Option<(T, real)>>, init: Option<real>, j: int)
  {
    0 <= j < |s| && s[j].Some? && Beats(s[j].value.1, init) &&
    (forall i :: 0 <= i < |s| && s[i].Some? ==> s[i].value.1 <= s[j].value.1) &&
    (forall i :: 0 <= i < j && s[i].Some? ==> s[i].value.1 < s[j].value.1)
  }

  /** What the scan keeps: the first candidate with the largest key, when
      that key beats the initial level; otherwise nothing, and no
      candidate beats the initial level.  `j` is the kept candidate's
      position. */
  lemma {:induction false} ScanSpec<T>(s: seq<Option<(T, real)>>, init: Option<real>) returns (j: int)
    ensures Scan(s, init).0.Some? ==> IsFirstBest(s, init, j) && Scan(s, init) == (Some(s[j].value.0), Some(s[j].value.1))
    ensures Scan(s, init).0.None? ==> Scan(s, init).1 == init && forall i :: 0 <= i < |s| && s[i].Some? ==> !Beats(s[i].value.1, init)
  {
    if s == [] {
      j := 0;
    } else {
      var front := s[..|s| - 1];
      var c := s[|s| - 1];
      var k := ScanSpec(front, init);
      var prev := Scan(front, init);
      assert forall i :: 0 <= i < |front| ==> front[i] == s[i];
      if c.Some? && Beats(c.value.1, prev.1) {
        j := |s| - 1;
        if prev.0.Some? {
          assert front[k].value.1 < c.value.1;
        }
      } else {
        j := k;
      }
    }
  }

  /** Nothing is kept exactly when no candidate beats the initial level. */
  lemma ScanFinds<T>(s: seq<Option<(T, real)>>, init: Option<real>)
    ensures Scan(s, init).0.Some? <==> exists i :: 0 <= i < |s| && s[i].Some? && Beats(s[i].value.1, init)
  {
    var j := ScanSpec(s, init);
  }
}
