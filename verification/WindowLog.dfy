/**
 What both rate limiters are measured by: the entries of a full log that are less than a
 window old.
 */
module WindowLog {
  import opened Basics

  function Within(log: seq<real>, now: real, window: real): seq<real> {
    if log == [] then []
    else if now - log[0] < window then [log[0]] + Within(log[1..], now, window)
    else Within(log[1..], now, window)
  }

  lemma {:induction false} WithinConcat(a: seq<real>, b: seq<real>, now: real, window: real)
    ensures Within(a + b, now, window) == Within(a, now, window) + Within(b, now, window)
  {
    if a == [] {
      assert a + b == b;
    } else {
      TailOfConcat(a, b);
      WithinConcat(a[1..], b, now, window);
      Regroup([a[0]], Within(a[1..], now, window), Within(b, now, window));
    }
  }

  lemma {:induction false} WithinNone(a: seq<real>, now: real, window: real)
    requires forall i :: 0 <= i < |a| ==> a[i] + window <= now
    ensures Within(a, now, window) == []
  {
    if a != [] {
      WithinNone(a[1..], now, window);
    }
  }

  lemma {:induction false} WithinHas(a: seq<real>, i: nat, now: real, window: real)
    requires i < |a| && now - a[i] < window
    ensures |Within(a, now, window)| >= 1
  {
    if i > 0 {
      WithinHas(a[1..], i - 1, now, window);
    }
  }

  /** The positions of the entries that are less than a window old. */
  function Recent(log: seq<real>, now: real, window: real): set<nat> {
    set i: nat | i < |log| && now - log[i] < window
  }

  /** There are as many entries as positions. */
  lemma {:induction false} WithinCount(log: seq<real>, now: real, window: real)
    ensures |Within(log, now, window)| == |Recent(log, now, window)|
  {
    if log != [] {
      var n := |log| - 1;
      WithinCount(log[..n], now, window);
      assert log[..n] + [log[n]] == log;
      WithinConcat(log[..n], [log[n]], now, window);
      var earlier := Recent(log[..n], now, window);
      assert Recent(log, now, window) == if now - log[n] < window then earlier + {n} else earlier;
    }
  }
}
