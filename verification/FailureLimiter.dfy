/** The per-client lockout after repeated authentication failures
    (sdf_core/auth.py), against the full history of what happened. */
module FailureLimiters {
  import opened Results
  import opened Orders

  // What happened, oldest first.
  datatype Event = Failed(client: string, at: real) | Locked(client: string, at: real) | Evicted(client: string) | Reset

  const MAX_CLIENTS := 10000

  // The failures of a client since it was last locked, evicted or reset.
  function Since(log: seq<Event>, client: string): seq<real> {
    if log == [] then []
    else
      var before := Since(log[..|log| - 1], client);
      match log[|log| - 1]
      case Failed(c, at) => if c == client then before + [at] else before
      case Locked(c, _) => if c == client then [] else before
      case Evicted(c) => if c == client then [] else before
      case Reset => []
  }

  // When the client was last locked since the last reset.
  function LastLock(log: seq<Event>, client: string): Option<real> {
    if log == [] then None
    else
      var before := LastLock(log[..|log| - 1], client);
      match log[|log| - 1]
      case Locked(c, at) => if c == client then Some(at) else before
      case Reset => None
      case _ => before
  }

  function NotBefore(from: real): real -> bool { t => t >= from }

  // The failures inside the window that ends with the last of them.
  function InWindow(times: seq<real>, window: real): seq<real> {
    if times == [] then [] else Filter(times, NotBefore(times[|times| - 1] - window))
  }

  predicate Rising(times: seq<real>) { forall i, j :: 0 <= i < j < |times| ==> times[i] <= times[j] }

  // Dropping from the left while too old is filtering, for times in order.
  lemma TailRises(times: seq<real>)
    requires Rising(times) && times != []
    ensures Rising(times[1..]) && (|times| > 1 ==> times[0] <= times[1])
  {
  }

  lemma {:induction false} DropIsFilter(times: seq<real>, from: real, n: nat)
    requires Rising(times) && n <= |times|
    requires forall i :: 0 <= i < n ==> times[i] < from
    requires n < |times| ==> times[n] >= from
    ensures times[n..] == Filter(times, NotBefore(from))
  {
    hide Rising;
    if times != [] {
      TailRises(times);
      if n == 0 {
        assert times[1..] == times[1..][0..];
        DropIsFilter(times[1..], from, 0);
        assert times == [times[0]] + times[1..];
      } else {
        DropIsFilter(times[1..], from, n - 1);
        assert times[1..][n - 1..] == times[n..];
      }
    }
  }

  lemma {:induction false} FilterTwice(times: seq<real>, early: real, late: real)
    requires early <= late
    ensures Filter(Filter(times, NotBefore(early)), NotBefore(late)) == Filter(times, NotBefore(late))
  {
    if times != [] {
      FilterTwice(times[1..], early, late);
      var first := if NotBefore(early)(times[0]) then [times[0]] else [];
      FilterConcat(first, Filter(times[1..], NotBefore(early)), NotBefore(late));
    }
  }

  // The window of a longer history can be taken from the window of the shorter.
  lemma WindowStep(times: seq<real>, now: real, window: real)
    requires times != [] ==> times[|times| - 1] <= now
    ensures Filter(InWindow(times, window) + [now], NotBefore(now - window)) == InWindow(times + [now], window)
  {
    hide Filter;
    FilterConcat(InWindow(times, window), [now], NotBefore(now - window));
    FilterConcat(times, [now], NotBefore(now - window));
    if times != [] {
      FilterTwice(times, times[|times| - 1] - window, now - window);
    }
  }

  lemma RisingOn(times: seq<real>, now: real)
    requires Rising(times) && forall t :: t in times ==> t <= now
    ensures Rising(times + [now])
  {
    assert forall i :: 0 <= i < |times| ==> times[i] in times;
  }

  lemma LastIsLatest(times: seq<real>)
    requires Rising(times) && times != []
    ensures forall t :: t in times ==> t <= times[|times| - 1]
  {
    forall t | t in times ensures t <= times[|times| - 1] {
      var k :| 0 <= k < |times| && times[k] == t;
      assert k == |times| - 1 || times[k] <= times[|times| - 1];
    }
  }

  lemma WindowIsPart(times: seq<real>, window: real)
    requires Rising(times)
    ensures Rising(InWindow(times, window)) && forall t :: t in InWindow(times, window) ==> t in times
  {
    hide Rising, Filter;
    if times != [] {
      FilterRises(times, times[|times| - 1] - window);
      FilterMembers(times, NotBefore(times[|times| - 1] - window));
    } else {
      NothingInWindow(window);
      NothingRises();
    }
  }

  lemma NothingRises()
    ensures Rising([])
  {
  }

  lemma NothingInWindow(window: real)
    ensures InWindow([], window) == []
  {
  }

  lemma WindowRises(times: seq<real>, now: real, window: real)
    requires Rising(times) && (times != [] ==> times[|times| - 1] <= now)
    ensures Rising(InWindow(times, window) + [now])
  {
    hide Rising, InWindow;
    WindowIsPart(times, window);
    if times != [] { LastIsLatest(times); }
    forall t | t in InWindow(times, window) ensures t <= now {
      assert t in times;
    }
    RisingOn(InWindow(times, window), now);
  }

  lemma {:induction false} FilterRises(times: seq<real>, from: real)
    requires Rising(times)
    ensures Rising(Filter(times, NotBefore(from)))
  {
    if times != [] {
      FilterRises(times[1..], from);
      FilterMembers(times[1..], NotBefore(from));
      var rest := Filter(times[1..], NotBefore(from));
      assert forall i :: 0 <= i < |rest| ==> rest[i] in times[1..];
    }
  }

  // ---- The history is in order ---------------------------------------------

  ghost predicate Until(log: seq<Event>, clock: real) {
    forall client ::
      Rising(Since(log, client)) && forall i :: 0 <= i < |Since(log, client)| ==> Since(log, client)[i] <= clock
  }

  lemma AppendEvent(log: seq<Event>, e: Event)
    ensures forall client :: Since(log + [e], client) ==
              match e
              case Failed(c, at) => if c == client then Since(log, client) + [at] else Since(log, client)
              case Locked(c, _) => if c == client then [] else Since(log, client)
              case Evicted(c) => if c == client then [] else Since(log, client)
              case Reset => []
    ensures forall client :: LastLock(log + [e], client) ==
              match e
              case Locked(c, at) => if c == client then Some(at) else LastLock(log, client)
              case Reset => None
              case _ => LastLock(log, client)
  {
    assert (log + [e])[..|log|] == log;
  }

  // ---- The limiter ---------------------------------------------------------

  function Hits(failures: map<string, seq<real>>, client: string): seq<real> {
    if client in failures then failures[client] else []
  }

  // Every client's hits are its history in the window, below the limit.
  ghost predicate Tracked(failures: map<string, seq<real>>, log: seq<Event>, window: real, limit: int) {
    && (forall c :: Hits(failures, c) == InWindow(Since(log, c), window))
    && (limit >= 1 ==> forall c :: |Hits(failures, c)| < limit)
  }

  // A stored lock is the last lock; one that is gone has run out.
  ghost predicate LocksOk(lockedUntil: map<string, real>, log: seq<Event>, lockout: real, clock: real) {
    forall c :: match LastLock(log, c)
                case None => c !in lockedUntil
                case Some(at) => if c in lockedUntil then lockedUntil[c] == at + lockout else at + lockout <= clock
  }

  ghost predicate Keyed(failures: map<string, seq<real>>, order: seq<string>) {
    && (forall c :: c in failures <==> c in order)
    && forall i, j :: 0 <= i < j < |order| ==> order[i] != order[j]
  }

  // Hits of one client replaced, and the key appended if it is new.
  function Keys(order: seq<string>, failures: map<string, seq<real>>, client: string): seq<string> {
    if client in failures then order else order + [client]
  }

  lemma HitsReplaced(failures: map<string, seq<real>>, client: string, hits: seq<real>)
    ensures forall c :: Hits(failures[client := hits], c) == if c == client then hits else Hits(failures, c)
  {
    var after := failures[client := hits];
    forall c ensures Hits(after, c) == if c == client then hits else Hits(failures, c) {
      assert c in after <==> c == client || c in failures;
    }
  }

  lemma FailedKeeps(failures: map<string, seq<real>>, log: seq<Event>, window: real, limit: int, client: string,
                    now: real, hits: seq<real>)
    requires Tracked(failures, log, window, limit)
    requires hits == InWindow(Since(log, client) + [now], window) && |hits| < limit
    ensures Tracked(failures[client := hits], log + [Failed(client, now)], window, limit)
  {
    hide Since, Hits, InWindow, LastLock;
    HitsReplaced(failures, client, hits);
    AppendEvent(log, Failed(client, now));
  }

  lemma LockedKeeps(failures: map<string, seq<real>>, log: seq<Event>, window: real, limit: int, client: string,
                    now: real)
    requires Tracked(failures, log, window, limit)
    ensures Tracked(failures[client := []], log + [Failed(client, now)] + [Locked(client, now)], window, limit)
  {
    hide Since, Hits, LastLock;
    var log1, none: seq<real> := log + [Failed(client, now)], [];
    HitsReplaced(failures, client, none);
    AppendEvent(log, Failed(client, now));
    AppendEvent(log1, Locked(client, now));
    forall c
      ensures Hits(failures[client := []], c) == InWindow(Since(log1 + [Locked(client, now)], c), window)
      ensures limit >= 1 ==> |Hits(failures[client := []], c)| < limit
    {
      assert c != client ==> Since(log1, c) == Since(log, c);
      assert Since(log1 + [Locked(client, now)], c) == if c == client then [] else Since(log1, c);
    }
  }

  lemma FailedInTime(log: seq<Event>, clock: real, client: string, now: real)
    requires Until(log, clock) && clock <= now
    ensures Until(log + [Failed(client, now)], now)
    ensures Until(log + [Failed(client, now)] + [Locked(client, now)], now)
  {
    hide Since, LastLock;
    AppendEvent(log, Failed(client, now));
    AppendEvent(log + [Failed(client, now)], Locked(client, now));
  }

  lemma LocksFollow(lockedUntil: map<string, real>, log: seq<Event>, lockout: real, clock: real, client: string,
                    now: real)
    requires LocksOk(lockedUntil, log, lockout, clock) && clock <= now
    ensures LocksOk(lockedUntil, log + [Failed(client, now)], lockout, now)
    ensures LocksOk(lockedUntil[client := now + lockout], log + [Failed(client, now)] + [Locked(client, now)],
                    lockout, now)
  {
    hide Since, LastLock;
    AppendEvent(log, Failed(client, now));
    AppendEvent(log + [Failed(client, now)], Locked(client, now));
  }

  lemma KeysFollow(failures: map<string, seq<real>>, order: seq<string>, client: string, hits: seq<real>)
    requires Keyed(failures, order)
    ensures Keyed(failures[client := hits], Keys(order, failures, client))
  {
  }

  lemma EvictedSince(log: seq<Event>, client: string, c: string)
    ensures Since(log + [Evicted(client)], c) == if c == client then [] else Since(log, c)
  {
    assert (log + [Evicted(client)])[..|log|] == log;
  }

  lemma EvictedKeeps(failures: map<string, seq<real>>, log: seq<Event>, window: real, limit: int, client: string)
    requires Tracked(failures, log, window, limit)
    ensures Tracked(failures - {client}, log + [Evicted(client)], window, limit)
  {
    var after := log + [Evicted(client)];
    forall c
      ensures Hits(failures - {client}, c) == InWindow(Since(after, c), window)
      ensures limit >= 1 ==> |Hits(failures - {client}, c)| < limit
    {
      EvictedSince(log, client, c);
      if c == client {
        assert Since(after, c) == [];
      } else {
        assert Hits(failures - {client}, c) == Hits(failures, c) && Since(after, c) == Since(log, c);
      }
    }
  }

  lemma EvictedKeepsTimes(lockedUntil: map<string, real>, log: seq<Event>, lockout: real, clock: real, client: string)
    requires Until(log, clock) && LocksOk(lockedUntil, log, lockout, clock)
    ensures Until(log + [Evicted(client)], clock) && LocksOk(lockedUntil, log + [Evicted(client)], lockout, clock)
  {
    hide Since, LastLock;
    AppendEvent(log, Evicted(client));
  }

  lemma FirstKeyGone(failures: map<string, seq<real>>, order: seq<string>)
    requires Keyed(failures, order) && order != []
    ensures Keyed(failures - {order[0]}, order[1..])
  {
    assert order == [order[0]] + order[1..];
  }

  // Pops from the left while the hit is too old.
  method DropOld(all: seq<real>, from: real) returns (hits: seq<real>)
    requires Rising(all)
    ensures hits == Filter(all, NotBefore(from)) && |hits| <= |all|
  {
    hits := all;
    ghost var dropped := 0;
    while hits != [] && hits[0] < from
      invariant dropped <= |all| && hits == all[dropped..]
      invariant forall i :: 0 <= i < dropped ==> all[i] < from
      decreases |hits|
    {
      hits := hits[1..];
      dropped := dropped + 1;
    }
    DropIsFilter(all, from, dropped);
  }

  class FailureLimiter {
    const maxFailures: int
    const window: real
    const lockout: real
    var failures: map<string, seq<real>>
    // The dict's insertion order.
    var order: seq<string>
    var lockedUntil: map<string, real>
    ghost var log: seq<Event>
    ghost var clock: real

    ghost predicate Sound()
      reads this
    {
      && Keyed(failures, order) && Until(log, clock)
      && Tracked(failures, log, window, maxFailures) && LocksOk(lockedUntil, log, lockout, clock)
    }

    ghost predicate Valid()
      reads this
    {
      Sound() && |order| <= 10000
    }

    constructor (maxFailures: int, window: real, lockout: real)
      ensures Valid() && log == [] && clock == 0.0
      ensures this.maxFailures == maxFailures && this.window == window && this.lockout == lockout
    {
      this.maxFailures, this.window, this.lockout := maxFailures, window, lockout;
      failures, order, lockedUntil, log, clock := map[], [], map[], [], 0.0;
    }

    method RetryAfter(client: string, now: real) returns (seconds: int)
      requires Valid() && now >= clock && now >= 0.0
      modifies this`lockedUntil, this`clock
      ensures Valid() && clock == now
      // Positive exactly while the last lock has not run out.
      ensures seconds >= 0
      ensures seconds > 0 <==> LastLock(log, client).Some? && LastLock(log, client).value + lockout > now
      ensures seconds > 1 ==> seconds as real <= LastLock(log, client).value + lockout - now < seconds as real + 1.0
    {
      var until := if client in lockedUntil then lockedUntil[client] else 0.0;
      clock := now;
      if until > now {
        var whole := (until - now).Floor;
        return if whole < 1 then 1 else whole;
      }
      lockedUntil := lockedUntil - {client};
      return 0;
    }

    // Records the hit and drops what left the window.
    method Slide(client: string, now: real) returns (hits: seq<real>)
      requires Sound() && now >= clock
      ensures hits == InWindow(Since(log, client) + [now], window)
      ensures |hits| <= |Hits(failures, client)| + 1
    {
      WindowStep(Since(log, client), now, window);
      WindowRises(Since(log, client), now, window);
      hits := DropOld(Hits(failures, client) + [now], now - window);
    }

    method Failure(client: string, now: real)
      requires Valid() && now >= clock
      modifies this
      ensures Valid() && clock == now
      // The client is locked exactly when its failures in the window reach the limit.
      ensures var times := Since(old(log), client) + [now];
              var locks := |InWindow(times, window)| >= maxFailures;
              var full := client !in old(failures) && |old(order)| == 10000;
              && log == old(log) + [Failed(client, now)] + (if locks then [Locked(client, now)] else [])
                        + (if full then [Evicted(old(order)[0])] else [])
              && (maxFailures >= 1 && locks ==> |InWindow(times, window)| == maxFailures)
              && (full ==> old(order)[0] != client)
              && Hits(failures, client) == if locks then [] else InWindow(times, window)
    {
      var hits := Slide(client, now);
      var locks := |hits| >= maxFailures;
      assert maxFailures >= 1 ==> |Hits(failures, client)| < maxFailures;
      assert |order| > 0 && client !in failures ==> order[0] in order && order[0] != client;
      Note(client, now, hits);
      if |order| > MAX_CLIENTS {
        EvictOldest();
      }
    }

    method Note(client: string, now: real, hits: seq<real>)
      requires Sound() && now >= clock && hits == InWindow(Since(log, client) + [now], window)
      modifies this
      ensures Sound() && clock == now
      ensures var locks := |hits| >= maxFailures;
              && log == old(log) + [Failed(client, now)] + (if locks then [Locked(client, now)] else [])
              && order == Keys(old(order), old(failures), client)
              && failures == old(failures)[client := if locks then [] else hits]
    {
      hide Keyed, Until, Tracked, LocksOk, InWindow;
      FailedInTime(log, clock, client, now);
      LocksFollow(lockedUntil, log, lockout, clock, client, now);
      KeysFollow(failures, order, client, if |hits| >= maxFailures then [] else hits);
      order := Keys(order, failures, client);
      clock := now;
      if |hits| >= maxFailures {
        LockedKeeps(failures, log, window, maxFailures, client, now);
        lockedUntil := lockedUntil[client := now + lockout];
        failures := failures[client := []];
        log := log + [Failed(client, now)] + [Locked(client, now)];
      } else {
        FailedKeeps(failures, log, window, maxFailures, client, now, hits);
        failures := failures[client := hits];
        log := log + [Failed(client, now)];
      }
    }

    method EvictOldest()
      requires Sound() && order != []
      modifies this`failures, this`order, this`log
      ensures Sound() && log == old(log) + [Evicted(old(order)[0])]
      ensures failures == old(failures) - {old(order)[0]} && order == old(order)[1..]
    {
      hide Keyed, Until, Tracked, LocksOk;
      var oldest := order[0];
      FirstKeyGone(failures, order);
      EvictedKeepsTimes(lockedUntil, log, lockout, clock, oldest);
      EvictedKeeps(failures, log, window, maxFailures, oldest);
      failures := failures - {oldest};
      order := order[1..];
      log := log + [Evicted(oldest)];
    }

    method ResetAll()
      requires Valid()
      modifies this`failures, this`order, this`lockedUntil, this`log
      ensures Valid() && log == old(log) + [Reset]
      ensures failures == map[] && lockedUntil == map[]
    {
      AppendEvent(log, Reset);
      failures, order, lockedUntil := map[], [], map[];
      log := log + [Reset];
    }
  }
}
