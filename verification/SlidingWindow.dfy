/**
 The in-memory sliding-window limiter of mcp_auth_framework/rate_limiting.py. It keeps
 a pruned list per client; the reference keeps every admission and counts. Times are reals.
 */
module SlidingWindow {
  import opened Basics
  import opened WindowLog

  // ---- the reference: count the full log --------------------------------

  /** The entries inside one half-open interval of a window's length. */
  function Between(log: seq<real>, from: real, window: real): seq<real> {
    if log == [] then []
    else if from <= log[0] < from + window then [log[0]] + Between(log[1..], from, window)
    else Between(log[1..], from, window)
  }

  datatype Call = Call(client: string, now: real)

  /** All admissions of a client when each call is admitted unless the window is full. */
  function Admissions(calls: seq<Call>, client: string, limit: int, window: real): seq<real> {
    if calls == [] then []
    else
      var earlier := Admissions(calls[..|calls| - 1], client, limit, window);
      var call := calls[|calls| - 1];
      if call.client == client && |Within(earlier, call.now, window)| < limit then earlier + [call.now] else earlier
  }

  ghost predicate Forward(calls: seq<Call>) {
    forall i, j :: 0 <= i < j < |calls| ==> calls[i].now <= calls[j].now
  }

  ghost predicate Sorted(log: seq<real>) {
    forall i, j :: 0 <= i < j < |log| ==> log[i] <= log[j]
  }

  /** Any limit + 1 consecutive admissions span at least a window. */
  ghost predicate Spaced(log: seq<real>, limit: nat, window: real) {
    forall i :: 0 <= i < |log| - limit ==> log[i + limit] - log[i] >= window
  }

  // ---- counting lemmas --------------------------------------------------

  /** Pruning early loses nothing that a later count would still see. */
  lemma {:induction false} PruneEarly(log: seq<real>, early: real, late: real, window: real)
    requires early <= late
    ensures Within(Within(log, early, window), late, window) == Within(log, late, window)
  {
    if log != [] {
      PruneEarly(log[1..], early, late, window);
      if early - log[0] < window {
        assert Within(log, early, window)[1..] == Within(log[1..], early, window);
      }
    }
  }

  lemma {:induction false} WithinShorter(log: seq<real>, now: real, window: real)
    ensures |Within(log, now, window)| <= |log|
    ensures (exists x :: x in log && now - x >= window) ==> |Within(log, now, window)| < |log|
    ensures (forall x :: x in log ==> now - x < window) ==> Within(log, now, window) == log
  {
    if log != [] {
      WithinShorter(log[1..], now, window);
      assert log[0] in log;
      assert forall x :: x in log <==> x == log[0] || x in log[1..];
    }
  }

  /** If the entry `limit` places from the end is still in the window, the window is full. */
  lemma {:induction false} CountsSuffix(log: seq<real>, k: nat, now: real, window: real)
    requires Sorted(log) && k < |log| && now - log[k] < window
    ensures |Within(log, now, window)| >= |log| - k
  {
    WithinConcat(log[..k], log[k..], now, window);
    assert log[..k] + log[k..] == log;
    WithinShorter(log[k..], now, window);
  }

  /** A stretch of a well-spaced log that fits in one window has at most limit entries. */
  lemma {:induction false} BetweenSmall(log: seq<real>, from: real, limit: nat, window: real)
    requires Sorted(log) && Spaced(log, limit, window) && limit >= 1
    ensures |Between(log, from, window)| <= limit
  {
    if log != [] {
      if from <= log[0] {
        BetweenPrefix(log, from, limit, window);
      } else {
        assert Sorted(log[1..]);
        assert Spaced(log[1..], limit, window) by {
          forall i | 0 <= i < |log[1..]| - limit ensures log[1..][i + limit] - log[1..][i] >= window {
            assert log[i + 1 + limit] - log[i + 1] >= window;
          }
        }
        BetweenSmall(log[1..], from, limit, window);
      }
    }
  }

  lemma BetweenPrefix(log: seq<real>, from: real, limit: nat, window: real)
    requires log != [] && Sorted(log) && Spaced(log, limit, window) && from <= log[0]
    ensures |Between(log, from, window)| <= limit
  {
    if |log| <= limit {
      BetweenLength(log, from, window);
    } else {
      assert log[0 + limit] - log[0] >= window;
      var early, late := log[..limit], log[limit..];
      assert early + late == log;
      forall i | 0 <= i < |late| ensures late[i] >= from + window {
        assert late[i] == log[limit + i];
      }
      BetweenConcat(early, late, from, window);
      BetweenNone(late, from, window);
      BetweenLength(early, from, window);
    }
  }

  lemma {:induction false} BetweenConcat(a: seq<real>, b: seq<real>, from: real, window: real)
    ensures Between(a + b, from, window) == Between(a, from, window) + Between(b, from, window)
  {
    if a == [] {
      assert a + b == b;
    } else {
      TailOfConcat(a, b);
      BetweenConcat(a[1..], b, from, window);
      Regroup([a[0]], Between(a[1..], from, window), Between(b, from, window));
    }
  }

  lemma {:induction false} BetweenLength(log: seq<real>, from: real, window: real)
    ensures |Between(log, from, window)| <= |log|
  {
    if log != [] {
      BetweenLength(log[1..], from, window);
    }
  }

  lemma {:induction false} BetweenNone(log: seq<real>, from: real, window: real)
    requires forall i :: 0 <= i < |log| ==> log[i] >= from + window
    ensures Between(log, from, window) == []
  {
    if log != [] {
      BetweenNone(log[1..], from, window);
    }
  }

  // ---- what the reference guarantees ------------------------------------

  /** No entry is later than the given time. */
  ghost predicate EndsBy(log: seq<real>, now: real) { log != [] ==> log[|log| - 1] <= now }

  /** Admitting below the limit keeps the log sorted and well spaced. */
  lemma SpacedGrows(log: seq<real>, now: real, limit: nat, window: real)
    requires limit >= 1 && Sorted(log) && Spaced(log, limit, window) && EndsBy(log, now)
    requires |Within(log, now, window)| < limit
    ensures Sorted(log + [now]) && Spaced(log + [now], limit, window)
  {
    var grown := log + [now];
    forall i | 0 <= i < |grown| - limit ensures grown[i + limit] - grown[i] >= window {
      if i + limit < |log| {
        assert log[i + limit] - log[i] >= window;
      } else if now - log[i] < window {
        CountsSuffix(log, i, now, window);
      }
    }
  }

  lemma {:induction false} AdmissionsSpaced(calls: seq<Call>, client: string, limit: nat, window: real)
    requires Forward(calls) && limit >= 1
    ensures var log := Admissions(calls, client, limit, window);
            && Sorted(log) && Spaced(log, limit, window)
            && (calls == [] ==> log == [])
            && (calls != [] ==> EndsBy(log, calls[|calls| - 1].now))
  {
    if calls != [] {
      var n := |calls| - 1;
      var earlier, now := Admissions(calls[..n], client, limit, window), calls[n].now;
      AdmissionsSpaced(calls[..n], client, limit, window);
      assert EndsBy(earlier, now);
      if calls[n].client == client && |Within(earlier, now, window)| < limit {
        SpacedGrows(earlier, now, limit, window);
      }
    }
  }

  /** No interval of a window's length ever holds more than limit admissions of one client. */
  lemma NoBurst(calls: seq<Call>, client: string, limit: nat, window: real, from: real)
    requires Forward(calls) && limit >= 1
    ensures |Between(Admissions(calls, client, limit, window), from, window)| <= limit
  {
    AdmissionsSpaced(calls, client, limit, window);
    BetweenSmall(Admissions(calls, client, limit, window), from, limit, window);
  }

  // ---- the limiter ------------------------------------------------------

  function Smallest(s: seq<real>): (m: real)
    requires s != []
    ensures m in s && forall x :: x in s ==> m <= x
  {
    if |s| == 1 then s[0]
    else
      var m := Smallest(s[1..]);
      assert s == [s[0]] + s[1..];
      if s[0] <= m then s[0] else m
  }

  /** Python's `int()` on a float: truncation towards zero. */
  function Truncate(x: real): int { if x >= 0.0 then x.Floor else -(-x).Floor }

  function Listed(clients: map<string, seq<real>>, client: string): seq<real> {
    if client in clients then clients[client] else []
  }

  /** The limiter's pruned lists, told from all calls so far and when each list was last pruned. */
  ghost predicate PrunedRight(clients: map<string, seq<real>>, pruned: map<string, real>, calls: seq<Call>,
                              limit: int, window: real, client: string)
  {
    var log, list := Admissions(calls, client, limit, window), Listed(clients, client);
    && |list| <= limit
    && (if client in pruned then
          calls != [] && pruned[client] <= calls[|calls| - 1].now && list == Within(log, pruned[client], window)
        else list == [] && log == [])
  }

  /** At any later time the pruned list and the full log show the same window. */
  lemma SameWindow(clients: map<string, seq<real>>, pruned: map<string, real>, calls: seq<Call>,
                   limit: int, window: real, client: string, now: real)
    requires PrunedRight(clients, pruned, calls, limit, window, client)
    requires calls != [] ==> calls[|calls| - 1].now <= now
    ensures Within(Listed(clients, client), now, window)
            == Within(Admissions(calls, client, limit, window), now, window)
  {
    if client in pruned {
      PruneEarly(Admissions(calls, client, limit, window), pruned[client], now, window);
    }
  }

  /** The state a call leaves is right for the caller and for everybody else. */
  lemma CallKeeps(clients: map<string, seq<real>>, pruned: map<string, real>, calls: seq<Call>,
                  limit: int, window: real, client: string, now: real, c: string)
    requires limit >= 1 && window > 0.0
    requires PrunedRight(clients, pruned, calls, limit, window, client)
    requires PrunedRight(clients, pruned, calls, limit, window, c)
    requires calls != [] ==> calls[|calls| - 1].now <= now
    ensures var kept := Within(Listed(clients, client), now, window);
            var list := if |kept| < limit then kept + [now] else kept;
            var calls' := calls + [Call(client, now)];
            var log := Admissions(calls, c, limit, window);
            && PrunedRight(clients[client := list], pruned[client := now], calls', limit, window, c)
            && Admissions(calls', c, limit, window) ==
               (if c == client && |kept| < limit then log + [now] else log)
  {
    SameWindow(clients, pruned, calls, limit, window, client, now);
    OneMoreCall(calls, client, now, c, limit, window);
    if c == client {
      WithinConcat(Admissions(calls, client, limit, window), [now], now, window);
      WithinShorter(Listed(clients, client), now, window);
    }
  }

  lemma OneMoreCall(calls: seq<Call>, client: string, now: real, c: string, limit: int, window: real)
    ensures var log := Admissions(calls, c, limit, window);
            Admissions(calls + [Call(client, now)], c, limit, window) ==
            if c == client && |Within(log, now, window)| < limit then log + [now] else log
  {
    var calls' := calls + [Call(client, now)];
    assert calls'[..|calls'| - 1] == calls;
  }

  ghost predicate AllRight(clients: map<string, seq<real>>, pruned: map<string, real>, calls: seq<Call>,
                           limit: int, window: real)
  {
    forall c: string :: PrunedRight(clients, pruned, calls, limit, window, c)
  }

  lemma CallKeepsAll(clients: map<string, seq<real>>, pruned: map<string, real>, calls: seq<Call>,
                     limit: int, window: real, client: string, now: real, clients': map<string, seq<real>>,
                     allowed: bool)
    requires limit >= 1 && window > 0.0 && AllRight(clients, pruned, calls, limit, window)
    requires calls != [] ==> calls[|calls| - 1].now <= now
    requires var kept := Within(Listed(clients, client), now, window);
             && (allowed <==> |kept| < limit)
             && clients' == clients[client := if allowed then kept + [now] else kept]
    ensures var calls' := calls + [Call(client, now)];
            && AllRight(clients', pruned[client := now], calls', limit, window)
            && (allowed <==> |Within(Admissions(calls, client, limit, window), now, window)| < limit)
            && forall c: string :: Admissions(calls', c, limit, window) ==
                 Admissions(calls, c, limit, window) + (if c == client && allowed then [now] else [])
  {
    assert PrunedRight(clients, pruned, calls, limit, window, client);
    SameWindow(clients, pruned, calls, limit, window, client, now);
    var calls', pruned' := calls + [Call(client, now)], pruned[client := now];
    forall c: string
      ensures PrunedRight(clients', pruned', calls', limit, window, c)
      ensures Admissions(calls', c, limit, window) ==
              Admissions(calls, c, limit, window) + (if c == client && allowed then [now] else [])
    {
      assert PrunedRight(clients, pruned, calls, limit, window, c);
      CallKeeps(clients, pruned, calls, limit, window, client, now, c);
    }
    assert AllRight(clients', pruned', calls', limit, window);
  }

  class SlidingWindowRateLimiter {
    const requestsPerWindow: int
    const windowSeconds: int
    var clients: map<string, seq<real>>

    /** Every call answered so far, and when each client's list was last pruned. */
    ghost var calls: seq<Call>
    ghost var pruned: map<string, real>

    ghost function Window(): real { windowSeconds as real }

    /** Every admission of a client so far. */
    ghost function Log(client: string): seq<real>
      reads this
    {
      Admissions(calls, client, requestsPerWindow, Window())
    }

    /** No call so far was made later than the given time. */
    ghost predicate UpTo(now: real)
      reads this
    {
      calls != [] ==> calls[|calls| - 1].now <= now
    }

    ghost predicate Valid()
      reads this
    {
      && requestsPerWindow >= 1 && windowSeconds >= 1 && Forward(calls)
      && AllRight(clients, pruned, calls, requestsPerWindow, Window())
    }

    constructor (requestsPerWindow: int, windowSeconds: int)
      requires requestsPerWindow >= 1 && windowSeconds >= 1
      ensures this.requestsPerWindow == requestsPerWindow && this.windowSeconds == windowSeconds
      ensures Valid() && calls == []
    {
      this.requestsPerWindow, this.windowSeconds := requestsPerWindow, windowSeconds;
      clients, calls, pruned := map[], [], map[];
    }

    /** The pruned list decides exactly as the full log would. */
    method IsAllowed(client: string, now: real) returns (allowed: bool)
      requires Valid() && UpTo(now)
      modifies this
      ensures Valid() && calls == old(calls) + [Call(client, now)]
      ensures allowed <==> |Within(old(Log(client)), now, Window())| < requestsPerWindow
      ensures forall c: string :: Log(c) == old(Log(c)) + (if c == client && allowed then [now] else [])
    {
      ghost var before := clients;
      clients := clients[client := Within(Listed(clients, client), now, windowSeconds as real)];
      ghost var kept := clients[client];
      if |clients[client]| >= requestsPerWindow {
        allowed := false;
      } else {
        clients := clients[client := clients[client] + [now]];
        allowed := true;
      }
      Overwrite(before, client, kept, clients[client]);
      CallKeepsAll(before, pruned, calls, requestsPerWindow, Window(), client, now, clients, allowed);
      pruned := pruned[client := now];
      calls := calls + [Call(client, now)];
    }

    /**
     How long a client must wait. Waiting that long is enough if nothing else is admitted
     meanwhile, and while a request would be refused it is at most one second too long.
     */
    method GetRetryAfter(client: string, now: real) returns (retryAfter: int)
      requires Valid() && UpTo(now)
      modifies this`clients
      ensures Valid()
      ensures Listed(clients, client) == [] ==> retryAfter == 0
      ensures Listed(clients, client) != [] ==> retryAfter >= 1
      ensures forall t: real :: t >= now + retryAfter as real ==>
                |Within(Log(client), t, Window())| < requestsPerWindow
      ensures |Within(Log(client), now, Window())| >= requestsPerWindow ==>
                forall t: real :: now <= t < now + (retryAfter - 1) as real ==>
                  |Within(Log(client), t, Window())| >= requestsPerWindow
    {
      ghost var window, list := Window(), Listed(clients, client);
      assert PrunedRight(clients, pruned, calls, requestsPerWindow, window, client);
      if client !in clients {
        clients := clients[client := []];
        forall c: string ensures PrunedRight(clients, pruned, calls, requestsPerWindow, window, c) {
          assert PrunedRight(old(clients), pruned, calls, requestsPerWindow, window, c);
        }
      }
      if clients[client] == [] {
        retryAfter := 0;
      } else {
        var oldest := Smallest(clients[client]);
        retryAfter := Truncate(windowSeconds as real - (now - oldest)) + 1;
        if retryAfter < 1 {
          retryAfter := 1;
        }
      }
      forall t: real | t >= now
        ensures Within(Log(client), t, window) == Within(list, t, window)
      {
        SameWindow(clients, pruned, calls, requestsPerWindow, window, client, t);
      }
      RetryIsRight(list, now, retryAfter, requestsPerWindow, window);
    }
  }

  /** After the wait the oldest entry has left the window. */
  lemma WaitIsEnough(list: seq<real>, now: real, wait: int, window: real, t: real)
    requires list != [] && wait >= Truncate(window - (now - Smallest(list))) + 1 && wait >= 1
    requires t >= now + wait as real
    ensures |Within(list, t, window)| < |list|
  {
    WithinShorter(list, t, window);
    var oldest := Smallest(list);
    assert oldest in list && t - oldest >= window;
  }

  /** Before the last second of it the oldest entry, and so every other, is still inside. */
  lemma WaitIsTight(list: seq<real>, now: real, wait: int, window: real, t: real)
    requires list != [] && now - Smallest(list) < window && wait == Truncate(window - (now - Smallest(list))) + 1
    requires now <= t < now + (wait - 1) as real
    ensures Within(list, t, window) == list
  {
    WithinShorter(list, t, window);
    forall x | x in list ensures t - x < window {
      assert Smallest(list) <= x;
    }
  }

  /** The arithmetic of the wait, on the pruned list alone. */
  lemma RetryIsRight(list: seq<real>, now: real, retryAfter: int, limit: int, window: real)
    requires |list| <= limit && limit >= 1 && window > 0.0
    requires list == [] ==> retryAfter == 0
    requires list != [] ==> var wait := Truncate(window - (now - Smallest(list))) + 1;
                            retryAfter == if wait < 1 then 1 else wait
    ensures forall t: real :: t >= now + retryAfter as real ==> |Within(list, t, window)| < limit
    ensures |Within(list, now, window)| >= limit ==>
              forall t: real :: now <= t < now + (retryAfter - 1) as real ==> |Within(list, t, window)| >= limit
  {
    forall t: real | t >= now + retryAfter as real
      ensures |Within(list, t, window)| < limit
    {
      if list != [] {
        WaitIsEnough(list, now, retryAfter, window, t);
      }
    }
    if |Within(list, now, window)| >= limit {
      WithinShorter(list, now, window);
      forall t: real | now <= t < now + (retryAfter - 1) as real
        ensures |Within(list, t, window)| >= limit
      {
        assert Smallest(list) in list && now - Smallest(list) < window;
        WaitIsTight(list, now, retryAfter, window, t);
      }
    }
  }
}
