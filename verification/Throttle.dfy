/**
 The throttle in front of answer generation
 (services/answer-service/internal/throttle/limiter.go).

 A world interleaves calls of Wait at their critical sections. Every one reads the
 clock while it holds the mutex, so the readings do not decrease.
 */
module Throttle {
  import opened Prelude

  /** Tickets number the calls of Wait in the order in which they queue up. */
  datatype Waiter = Waiter(ticket: nat, target: Time)

  /** `next` is None while it is the zero time. */
  datatype Queue = Queue(next: Option<Time>, waiters: seq<Waiter>)

  function Interval(window: nat, requests: nat): (interval: nat)
    requires 0 < requests
    ensures 0 < interval
  {
    if window / requests < 1 then 1 else window / requests
  }

  function Start(next: Option<Time>, now: Time): Time {
    if next.None? || next.value < now then now else next.value
  }

  function Rebalanced(q: Queue, interval: nat, now: Time): Queue {
    q.(waiters := seq(|q.waiters|, i requires 0 <= i < |q.waiters| =>
      q.waiters[i].(target := Start(q.next, now) + i * interval)))
  }

  function Joined(q: Queue, interval: nat, ticket: nat, now: Time): Queue {
    Rebalanced(q.(waiters := q.waiters + [Waiter(ticket, 0)]), interval, now)
  }

  function IndexOf(waiters: seq<Waiter>, ticket: nat): (r: Option<nat>)
    ensures r.Some? ==> r.value < |waiters| && waiters[r.value].ticket == ticket
    ensures r.None? ==> forall i :: 0 <= i < |waiters| ==> waiters[i].ticket != ticket
  {
    if waiters == [] then None
    else if waiters[0].ticket == ticket then Some(0)
    else
      var r := IndexOf(waiters[1..], ticket);
      if r.Some? then Some(r.value + 1) else None
  }

  function Left(q: Queue, interval: nat, i: nat, now: Time): Queue
    requires i < |q.waiters|
  {
    Rebalanced(q.(waiters := q.waiters[..i] + q.waiters[i + 1..]), interval, now)
  }

  function Served(q: Queue, interval: nat, now: Time): Queue
    requires q.waiters != []
  {
    Rebalanced(Queue(Some(now + interval), q.waiters[1..]), interval, now)
  }

  // ---------------------------------------------------------------------
  // The world

  datatype Grant = Grant(ticket: nat, at: Time)

  /** `slipped` are calls that returned without error because their reservation was
      not in the queue. */
  datatype World = World(queue: Queue, clock: Time, arrived: nat, grants: seq<Grant>, cancelled: set<nat>,
      slipped: set<nat>)

  datatype Action =
    | Arrive(now: Time)
    | Check(ticket: nat, now: Time, contextError: bool)
    | GiveUp(ticket: nat, now: Time)

  const NEW: World := World(Queue(None, []), 0, 0, [], {}, {})

  predicate Granted(grants: seq<Grant>, ticket: nat) {
    exists i :: 0 <= i < |grants| && grants[i].ticket == ticket
  }

  /** The call has queued up and has not returned. */
  predicate Pending(w: World, ticket: nat) {
    ticket < w.arrived && !Granted(w.grants, ticket) && ticket !in w.cancelled && ticket !in w.slipped
  }

  predicate Enabled(w: World, a: Action) {
    && w.clock <= a.now
    && (!a.Arrive? ==> Pending(w, a.ticket))
  }

  function Next(interval: nat, w: World, a: Action): World {
    match a
    case Arrive(now) => w.(queue := Joined(w.queue, interval, w.arrived, now), clock := now, arrived := w.arrived + 1)
    case Check(ticket, now, contextError) =>
      var i := IndexOf(w.queue.waiters, ticket);
      if i.None? then w.(clock := now, slipped := w.slipped + {ticket})
      else if i.value == 0 && w.queue.waiters[0].target <= now then
        if contextError then w.(queue := Left(w.queue, interval, 0, now), clock := now,
            cancelled := w.cancelled + {ticket})
        else w.(queue := Served(w.queue, interval, now), clock := now, grants := w.grants + [Grant(ticket, now)])
      else w.(clock := now)
    case GiveUp(ticket, now) =>
      var i := IndexOf(w.queue.waiters, ticket);
      w.(queue := if i.Some? then Left(w.queue, interval, i.value, now) else w.queue,
         clock := now, cancelled := w.cancelled + {ticket})
  }

  // ---------------------------------------------------------------------
  // The invariant

  predicate Rises(tickets: seq<nat>) {
    forall i, j :: 0 <= i < j < |tickets| ==> tickets[i] < tickets[j]
  }

  function Tickets(waiters: seq<Waiter>): seq<nat> {
    seq(|waiters|, i requires 0 <= i < |waiters| => waiters[i].ticket)
  }

  /** Consecutive grants are an interval apart and in the order of arrival. */
  predicate Spaced(interval: nat, grants: seq<Grant>) {
    forall i :: 0 <= i < |grants| - 1
        ==> grants[i].at + interval <= grants[i + 1].at && grants[i].ticket < grants[i + 1].ticket
  }

  /** The queue is the pending calls, in the order of arrival. */
  ghost predicate QueueOk(w: World) {
    && Rises(Tickets(w.queue.waiters))
    && (forall t :: t in Tickets(w.queue.waiters) <==> Pending(w, t))
    && (forall t :: t in w.cancelled ==> t < w.arrived)
    && w.slipped == {}
  }

  predicate GrantsOk(interval: nat, w: World) {
    && Spaced(interval, w.grants)
    && (if w.grants == [] then w.queue.next.None?
        else
          && w.queue.next == Some(w.grants[|w.grants| - 1].at + interval)
          && w.grants[|w.grants| - 1].ticket < w.arrived
          && forall t :: t in Tickets(w.queue.waiters) ==> w.grants[|w.grants| - 1].ticket < t)
  }

  /** No target comes before the time that the last grant left. */
  predicate TargetsOk(interval: nat, q: Queue) {
    q.next.Some? ==> forall i :: 0 <= i < |q.waiters| ==> q.next.value + i * interval <= q.waiters[i].target
  }

  ghost predicate Inv(interval: nat, w: World) {
    QueueOk(w) && GrantsOk(interval, w) && TargetsOk(interval, w.queue)
  }

  lemma RebalanceKeeps(q: Queue, interval: nat, now: Time)
    ensures var r := Rebalanced(q, interval, now);
            r.next == q.next && Tickets(r.waiters) == Tickets(q.waiters) && TargetsOk(interval, r)
  {
  }

  lemma {:induction false} IndexOfTicket(waiters: seq<Waiter>, t: nat)
    ensures IndexOf(waiters, t).Some? <==> t in Tickets(waiters)
  {
    if i :| 0 <= i < |waiters| && waiters[i].ticket == t {
      assert Tickets(waiters)[i] == t;
    }
    if IndexOf(waiters, t).Some? {
      assert Tickets(waiters)[IndexOf(waiters, t).value] == t;
    }
  }

  lemma Without(tickets: seq<nat>, i: nat)
    requires Rises(tickets) && i < |tickets|
    ensures var rest := tickets[..i] + tickets[i + 1..];
            Rises(rest) && forall t :: t in rest <==> t in tickets && t != tickets[i]
  {
    var rest := tickets[..i] + tickets[i + 1..];
    forall t | t in tickets && t != tickets[i] ensures t in rest {
      var k :| 0 <= k < |tickets| && tickets[k] == t;
      assert rest[if k < i then k else k - 1] == t;
    }
  }

  lemma {:induction false} GrantsRise(interval: nat, grants: seq<Grant>, i: nat, j: nat)
    requires Spaced(interval, grants) && i <= j < |grants|
    ensures grants[i].at + (j - i) * interval <= grants[j].at
    ensures i < j ==> grants[i].ticket < grants[j].ticket
    decreases j
  {
    if i < j {
      GrantsRise(interval, grants, i, j - 1);
      assert (j - i) * interval == (j - 1 - i) * interval + interval;
      assert grants[j - 1].at + interval <= grants[j - 1 + 1].at;
    }
  }

  lemma NotGranted(interval: nat, w: World, t: nat)
    requires GrantsOk(interval, w) && (w.grants == [] || w.grants[|w.grants| - 1].ticket < t)
    ensures !Granted(w.grants, t)
  {
    if i :| 0 <= i < |w.grants| && w.grants[i].ticket == t {
      GrantsRise(interval, w.grants, i, |w.grants| - 1);
    }
  }

  lemma ArriveKeeps(interval: nat, w: World, now: Time)
    requires Inv(interval, w)
    ensures Inv(interval, Next(interval, w, Arrive(now)))
  {
    hide Rebalanced, Granted, TargetsOk, Spaced;
    var longer := w.queue.(waiters := w.queue.waiters + [Waiter(w.arrived, 0)]);
    RebalanceKeeps(longer, interval, now);
    assert Tickets(longer.waiters) == Tickets(w.queue.waiters) + [w.arrived];
    NotGranted(interval, w, w.arrived);
    var tickets := Tickets(w.queue.waiters);
    forall i | 0 <= i < |tickets| ensures tickets[i] < w.arrived {
      assert tickets[i] in tickets;
    }
  }

  /** A pending call leaves the queue, and is cancelled. */
  lemma LeaveKeeps(interval: nat, w: World, ticket: nat, now: Time)
    requires Inv(interval, w) && Pending(w, ticket)
    ensures var i := IndexOf(w.queue.waiters, ticket);
            i.Some? && Inv(interval, w.(queue := Left(w.queue, interval, i.value, now), clock := now,
                cancelled := w.cancelled + {ticket}))
  {
    hide Rebalanced, Granted, TargetsOk, Spaced;
    IndexOfTicket(w.queue.waiters, ticket);
    var i := IndexOf(w.queue.waiters, ticket).value;
    var shorter := w.queue.(waiters := w.queue.waiters[..i] + w.queue.waiters[i + 1..]);
    RebalanceKeeps(shorter, interval, now);
    var tickets := Tickets(w.queue.waiters);
    assert Tickets(shorter.waiters) == tickets[..i] + tickets[i + 1..];
    Without(tickets, i);
  }

  lemma GrantedOneMore(grants: seq<Grant>, g: Grant)
    ensures forall t :: Granted(grants + [g], t) <==> Granted(grants, t) || t == g.ticket
  {
    forall t | Granted(grants, t) ensures Granted(grants + [g], t) {
      var i :| 0 <= i < |grants| && grants[i].ticket == t;
      assert (grants + [g])[i].ticket == t;
    }
    assert (grants + [g])[|grants|] == g;
  }

  /** The head is due, and is granted. */
  lemma ServeKeeps(interval: nat, w: World, now: Time)
    requires Inv(interval, w) && w.queue.waiters != [] && w.queue.waiters[0].target <= now
    ensures Inv(interval, w.(queue := Served(w.queue, interval, now), clock := now,
        grants := w.grants + [Grant(w.queue.waiters[0].ticket, now)]))
  {
    hide Rebalanced, Granted;
    var head := w.queue.waiters[0];
    var served := Queue(Some(now + interval), w.queue.waiters[1..]);
    RebalanceKeeps(served, interval, now);
    GrantedOneMore(w.grants, Grant(head.ticket, now));
    var tickets := Tickets(w.queue.waiters);
    assert Tickets(served.waiters) == tickets[1..];
    assert tickets[..0] + tickets[0 + 1..] == tickets[1..];
    Without(tickets, 0);
    assert head.ticket in tickets by { assert tickets[0] == head.ticket; }
    assert Pending(w, head.ticket);
    if w.grants != [] {
      assert w.queue.next.value + 0 * interval <= head.target;
    }
  }

  lemma StepKeeps(interval: nat, w: World, a: Action)
    requires Inv(interval, w) && Enabled(w, a)
    ensures Inv(interval, Next(interval, w, a))
  {
    hide GrantsOk, TargetsOk, Granted;
    match a
    case Arrive(now) => ArriveKeeps(interval, w, now);
    case Check(ticket, now, contextError) =>
      LeaveKeeps(interval, w, ticket, now);
      IndexOfTicket(w.queue.waiters, ticket);
      var i := IndexOf(w.queue.waiters, ticket).value;
      if i == 0 && w.queue.waiters[0].target <= now {
        if !contextError {
          ServeKeeps(interval, w, now);
        }
      } else {
        ClockKeeps(interval, w, now);
      }
    case GiveUp(ticket, now) => LeaveKeeps(interval, w, ticket, now);
  }

  lemma ClockKeeps(interval: nat, w: World, now: Time)
    requires Inv(interval, w)
    ensures Inv(interval, w.(clock := now))
  {
    assert forall t :: Pending(w.(clock := now), t) == Pending(w, t);
  }

  // ---------------------------------------------------------------------
  // All runs

  predicate Trace(interval: nat, w: World, actions: seq<Action>)
    decreases |actions|
  {
    actions == [] || (Enabled(w, actions[0]) && Trace(interval, Next(interval, w, actions[0]), actions[1..]))
  }

  function After(interval: nat, w: World, actions: seq<Action>): World
    decreases |actions|
  {
    if actions == [] then w else After(interval, Next(interval, w, actions[0]), actions[1..])
  }

  lemma {:induction false} TraceKeeps(interval: nat, w: World, actions: seq<Action>)
    requires Inv(interval, w) && Trace(interval, w, actions)
    ensures Inv(interval, After(interval, w, actions))
    decreases |actions|
  {
    hide Inv;
    if actions != [] {
      StepKeeps(interval, w, actions[0]);
      TraceKeeps(interval, Next(interval, w, actions[0]), actions[1..]);
    }
  }

  /** The grants of a half-open window. */
  function InWindow(grants: seq<Grant>, from: Time, length: nat): seq<Grant> {
    if grants == [] then []
    else
      var last := grants[|grants| - 1];
      InWindow(grants[..|grants| - 1], from, length) + if from <= last.at < from + length then [last] else []
  }

  function Ceiling(a: nat, b: nat): nat
    requires 0 < b
  {
    (a + b - 1) / b
  }

  lemma SpacedPrefix(interval: nat, grants: seq<Grant>, n: nat)
    requires Spaced(interval, grants) && n <= |grants|
    ensures Spaced(interval, grants[..n])
  {
  }

  /** With the window's k grants ending at the last one, the first of them is at
      least k - 1 intervals before it. */
  lemma {:induction false} WindowSpan(interval: nat, grants: seq<Grant>, from: Time, length: nat)
    requires Spaced(interval, grants)
    ensures var seen := InWindow(grants, from, length);
            seen != [] ==> from + (|seen| - 1) * interval <= grants[|grants| - 1].at && (|seen| - 1) * interval < length
    decreases |grants|
  {
    if grants != [] {
      var n := |grants| - 1;
      SpacedPrefix(interval, grants, n);
      WindowSpan(interval, grants[..n], from, length);
      var before := InWindow(grants[..n], from, length);
      if before != [] {
        assert grants[n - 1].at + interval <= grants[n - 1 + 1].at;
        assert |before| * interval == (|before| - 1) * interval + interval;
      }
    }
  }

  lemma CeilingBounds(k: nat, a: nat, b: nat)
    requires 0 < b && k * b < a
    ensures k + 1 <= Ceiling(a, b)
  {
    var c := Ceiling(a, b);
    assert a + b - 1 < c * b + b by { Quotient(a + b - 1, b); }
    MulMonotone(c, k, b);
  }

  lemma Quotient(x: nat, b: nat)
    requires 0 < b
    ensures x / b * b <= x < x / b * b + b
  {
  }

  /** Over every run of arrivals, cancellations and wake-ups: grants are at least an
      interval apart, and follow the order of arrival; no call returns unless its
      own step took it from the queue; and a window of any length holds at most
      its length over the interval, rounded up. */
  lemma ThrottleIsSafe(interval: nat, actions: seq<Action>, from: Time, length: nat)
    requires 0 < interval && Trace(interval, NEW, actions)
    ensures var w := After(interval, NEW, actions);
            && (forall i, j :: 0 <= i < j < |w.grants|
                 ==> w.grants[i].at + interval <= w.grants[j].at && w.grants[i].ticket < w.grants[j].ticket)
            && (forall t: nat :: t < w.arrived
                 ==> Granted(w.grants, t) || t in w.cancelled || t in Tickets(w.queue.waiters))
            && (forall g, t :: g in w.grants && t in Tickets(w.queue.waiters) ==> g.ticket < t)
            && w.slipped == {}
            && |InWindow(w.grants, from, length)| <= Ceiling(length, interval)
  {
    hide Granted, Trace, Next, Inv, Tickets, Ceiling, InWindow;
    NewOk(interval);
    TraceKeeps(interval, NEW, actions);
    var w := After(interval, NEW, actions);
    hide After;
    GrantsInOrder(interval, w);
    ArrivalsAccounted(interval, w);
    WindowBound(interval, w.grants, from, length);
  }

  lemma GrantsInOrder(interval: nat, w: World)
    requires Inv(interval, w)
    ensures Spaced(interval, w.grants)
    ensures forall i, j :: 0 <= i < j < |w.grants| ==>
        w.grants[i].at + interval <= w.grants[j].at && w.grants[i].ticket < w.grants[j].ticket
    ensures forall g, t :: g in w.grants && t in Tickets(w.queue.waiters) ==> g.ticket < t
  {
    hide Pending, Tickets;
    forall i, j | 0 <= i < j < |w.grants|
      ensures w.grants[i].at + interval <= w.grants[j].at && w.grants[i].ticket < w.grants[j].ticket
    {
      GrantsRise(interval, w.grants, i, j);
      MulMonotone(1, j - i, interval);
    }
    forall g, t | g in w.grants && t in Tickets(w.queue.waiters) ensures g.ticket < t {
      var i :| 0 <= i < |w.grants| && w.grants[i] == g;
      GrantsRise(interval, w.grants, i, |w.grants| - 1);
    }
  }

  lemma ArrivalsAccounted(interval: nat, w: World)
    requires Inv(interval, w)
    ensures forall t: nat :: t < w.arrived ==> Granted(w.grants, t) || t in w.cancelled || t in Tickets(w.queue.waiters)
    ensures w.slipped == {}
  {
    hide Granted, Tickets;
    forall t: nat | t < w.arrived ensures Granted(w.grants, t) || t in w.cancelled || t in Tickets(w.queue.waiters) {
      assert Pending(w, t) ==> t in Tickets(w.queue.waiters);
    }
  }

  lemma WindowBound(interval: nat, grants: seq<Grant>, from: Time, length: nat)
    requires 0 < interval && Spaced(interval, grants)
    ensures |InWindow(grants, from, length)| <= Ceiling(length, interval)
  {
    hide Ceiling;
    WindowSpan(interval, grants, from, length);
    var seen := InWindow(grants, from, length);
    if seen != [] {
      CeilingBounds(|seen| - 1, length, interval);
    }
  }

  lemma NewOk(interval: nat)
    ensures Inv(interval, NEW)
  {
  }

  // ---------------------------------------------------------------------
  // Requests per window

  /** A limiter for `requests` per window keeps every window to that many exactly
      when the requests divide the window, or outnumber its nanoseconds. */
  lemma LimitIsExact(window: nat, requests: nat)
    requires 0 < requests && 0 < window
    ensures Ceiling(window, Interval(window, requests)) <= requests <==> window % requests == 0 || window <= requests
  {
    var interval := Interval(window, requests);
    if requests < window {
      Euclid(window, requests);
      hide Ceiling, Interval;
      CeilingAtMost(window, interval, requests);
    } else if requests == window {
      assert interval == 1;
    }
  }

  /** The ceiling is at most n exactly when n whole intervals span the window. */
  lemma CeilingAtMost(a: nat, b: nat, n: nat)
    requires 0 < b
    ensures Ceiling(a, b) <= n <==> a <= n * b
  {
    var c := Ceiling(a, b);
    Quotient(a + b - 1, b);
    hide Ceiling;
    MulMonotone(c, n, b);
    MulMonotone(n + 1, c, b);
    assert (n + 1) * b == n * b + b;
  }

  lemma Euclid(window: nat, requests: nat)
    requires 0 < requests < window
    ensures var interval := Interval(window, requests);
            interval == window / requests && window == requests * interval + window % requests
                && window % requests < requests
  {
    assert window / requests >= 1 by {
      Quotient(window, requests);
      MulMonotone(window / requests, 0, requests);
    }
  }

  /** Calls that arrive just as the one before them has been served. */
  function Busy(interval: nat, n: nat): seq<Action> {
    if n == 0 then [] else Busy(interval, n - 1) + [Arrive((n - 1) * interval), Check(n - 1, (n - 1) * interval, false)]
  }

  function FullSpeed(interval: nat, n: nat): seq<Grant> {
    if n == 0 then [] else FullSpeed(interval, n - 1) + [Grant(n - 1, (n - 1) * interval)]
  }

  lemma {:induction false} AfterJoin(interval: nat, w: World, a: seq<Action>, b: seq<Action>)
    ensures After(interval, w, a + b) == After(interval, After(interval, w, a), b)
    ensures Trace(interval, w, a) && Trace(interval, After(interval, w, a), b) ==> Trace(interval, w, a + b)
    decreases |a|
  {
    if a == [] {
      assert a + b == b;
    } else {
      assert (a + b)[1..] == a[1..] + b;
      AfterJoin(interval, Next(interval, w, a[0]), a[1..], b);
    }
  }

  lemma {:induction false} BusyRuns(interval: nat, n: nat)
    requires 0 < interval
    ensures Trace(interval, NEW, Busy(interval, n))
    ensures var w := After(interval, NEW, Busy(interval, n));
            && w.grants == FullSpeed(interval, n) && w.queue.waiters == [] && w.arrived == n
            && w.clock == (if n == 0 then 0 else (n - 1) * interval)
    decreases n
  {
    hide Next, Inv, Trace;
    NewOk(interval);
    if n == 0 {
      NothingRuns(interval, NEW);
    } else {
      BusyRuns(interval, n - 1);
      var before := After(interval, NEW, Busy(interval, n - 1));
      var now := (n - 1) * interval;
      TraceKeeps(interval, NEW, Busy(interval, n - 1));
      if n > 1 {
        MulMonotone(n - 2, n - 1, interval);
        FullSpeedSize(interval, n - 2);
        NextOfLast(interval, before, (n - 2) * interval);
        assert (n - 2) * interval + interval == now;
      } else {
        NextOfNone(interval, before);
      }
      BusyStep(interval, before, now);
      AfterJoin(interval, NEW, Busy(interval, n - 1), [Arrive(now), Check(n - 1, now, false)]);
    }
  }

  lemma NothingRuns(interval: nat, w: World)
    ensures Trace(interval, w, [])
  {
  }

  lemma NextOfLast(interval: nat, w: World, at: Time)
    requires Inv(interval, w) && w.grants != [] && w.grants[|w.grants| - 1].at == at
    ensures w.queue.next == Some(at + interval)
  {
  }

  lemma NextOfNone(interval: nat, w: World)
    requires Inv(interval, w) && w.grants == []
    ensures w.queue.next == None
  {
  }

  lemma {:induction false} FullSpeedSize(interval: nat, n: nat)
    ensures |FullSpeed(interval, n)| == n
  {
    if n > 0 {
      FullSpeedSize(interval, n - 1);
    }
  }

  /** A call that arrives at an empty queue, when its time has come, is served at once. */
  lemma BusyStep(interval: nat, w: World, now: Time)
    requires Inv(interval, w) && w.queue.waiters == [] && w.clock <= now
        && (w.queue.next.Some? ==> w.queue.next.value <= now)
    ensures var actions := [Arrive(now), Check(w.arrived, now, false)];
            && Trace(interval, w, actions)
            && var w' := After(interval, w, actions);
               w'.grants == w.grants + [Grant(w.arrived, now)] && w'.queue.waiters == [] && w'.arrived == w.arrived + 1
                   && w'.clock == now
  {
    var actions := [Arrive(now), Check(w.arrived, now, false)];
    var w1 := Next(interval, w, actions[0]);
    ArriveKeeps(interval, w, now);
    assert w1.queue.waiters == [Waiter(w.arrived, now)];
    assert w.arrived in Tickets(w1.queue.waiters) by { assert Tickets(w1.queue.waiters)[0] == w.arrived; }
    assert actions[1..] == [actions[1]];
    var w2 := Next(interval, w1, actions[1]);
    assert w2.queue.waiters == [];
    assert actions[1..][1..] == [];
    assert After(interval, w1, actions[1..]) == After(interval, w2, []);
  }

  lemma {:induction false} FullSpeedInWindow(interval: nat, n: nat, length: nat)
    requires 0 < n ==> (n - 1) * interval < length
    ensures |InWindow(FullSpeed(interval, n), 0, length)| == n
    decreases n
  {
    if n > 0 {
      if n > 1 {
        MulMonotone(n - 2, n - 1, interval);
      }
      FullSpeedInWindow(interval, n - 1, length);
      var all := FullSpeed(interval, n);
      FullSpeedSize(interval, n);
      FullSpeedSize(interval, n - 1);
      assert all[..n - 1] == FullSpeed(interval, n - 1);
    }
  }

  ghost predicate KeepsLimit(window: nat, requests: nat)
    requires 0 < requests
  {
    var interval := Interval(window, requests);
    forall actions, from :: Trace(interval, NEW, actions)
        ==> |InWindow(After(interval, NEW, actions).grants, from, window)| <= requests
  }

  /** The bound is attained: over all runs, a window never holds more than the
      configured requests exactly under the condition of LimitIsExact. A limit of
      seven in a second, say, lets eight through. */
  lemma LimitKeptExactly(window: nat, requests: nat)
    requires 0 < requests && 0 < window
    ensures KeepsLimit(window, requests) <==> window % requests == 0 || window <= requests
  {
    var interval := Interval(window, requests);
    LimitIsExact(window, requests);
    if window % requests == 0 || window <= requests {
      forall actions, from | Trace(interval, NEW, actions)
        ensures |InWindow(After(interval, NEW, actions).grants, from, window)| <= requests
      {
        ThrottleIsSafe(interval, actions, from, window);
      }
    } else {
      var busy := Busy(interval, requests + 1);
      BusyRuns(interval, requests + 1);
      Euclid(window, requests);
      FullSpeedInWindow(interval, requests + 1, window);
      assert Trace(interval, NEW, busy) && |InWindow(After(interval, NEW, busy).grants, 0, window)| == requests + 1;
    }
  }

  // ---------------------------------------------------------------------
  // The object

  class Reservation {
    var target: Time
    ghost const ticket: nat

    constructor (ghost ticket: nat)
      ensures this.ticket == ticket && target == 0
    {
      this.ticket := ticket;
      target := 0;
    }
  }

  ghost function Values(waiters: seq<Reservation>): seq<Waiter>
    reads waiters
  {
    seq(|waiters|, i requires 0 <= i < |waiters| reads waiters => Waiter(waiters[i].ticket, waiters[i].target))
  }

  datatype Verdict = Go | Cancelled | Blocked | NotQueued

  class Limiter {
    const interval: nat
    var next: Option<Time>
    var waiters: seq<Reservation>

    ghost predicate Valid()
      reads this, waiters
    {
      Rises(Tickets(Values(waiters)))
    }

    ghost function View(): Queue
      reads this, waiters
    {
      Queue(next, Values(waiters))
    }

    constructor (window: nat, requests: nat)
      requires 0 < requests
      ensures Valid() && View() == Queue(None, []) && interval == Interval(window, requests)
    {
      var i := window / requests;
      if i < 1 {
        i := 1;
      }
      interval := i;
      next, waiters := None, [];
    }

    method Rebalance(now: Time)
      requires Valid()
      modifies waiters
      ensures Valid() && View() == Rebalanced(old(View()), interval, now)
    {
      var start := now;
      if next.Some? && next.value >= now {
        start := next.value;
      }
      assert forall i, j :: 0 <= i < j < |waiters| ==> waiters[i] != waiters[j] by { Distinct(); }
      for i := 0 to |waiters|
        invariant forall k :: 0 <= k < i ==> waiters[k].target == start + k * interval
        invariant forall k :: i <= k < |waiters| ==> waiters[k].target == old(waiters[k].target)
      {
        waiters[i].target := start + i * interval;
      }
      assert Tickets(Values(waiters)) == Tickets(old(Values(waiters)));
    }

    lemma Distinct()
      requires Valid()
      ensures forall i, j :: 0 <= i < j < |waiters| ==> waiters[i].ticket < waiters[j].ticket
    {
      var tickets := Tickets(Values(waiters));
      forall i, j | 0 <= i < j < |waiters| ensures waiters[i].ticket < waiters[j].ticket {
        assert tickets[i] == waiters[i].ticket && tickets[j] == waiters[j].ticket;
      }
    }

    method IndexOfReservation(r: Reservation) returns (index: int)
      requires Valid() && allocated(r)
      ensures index == -1 || 0 <= index < |waiters|
      ensures index >= 0 ==> waiters[index] == r
      ensures index < 0 <==> r !in waiters
    {
      for i := 0 to |waiters|
        invariant r !in waiters[..i]
      {
        if waiters[i] == r {
          return i;
        }
      }
      return -1;
    }

    method Enqueue(r: Reservation, now: Time)
      requires Valid() && forall w :: w in waiters ==> w.ticket < r.ticket
      modifies this`waiters, waiters, r
      ensures Valid() && waiters == old(waiters) + [r] && View() == Joined(old(View()), interval, r.ticket, now)
    {
      ghost var before := Values(waiters);
      Distinct();
      waiters := waiters + [r];
      r.target := 0;
      assert Values(waiters) == before + [Waiter(r.ticket, 0)];
      Rebalance(now);
    }

    method RemoveAt(i: nat, now: Time)
      requires Valid() && i < |waiters|
      modifies this`waiters, waiters
      ensures Valid() && waiters == old(waiters[..i] + waiters[i + 1..])
          && View() == Left(old(View()), interval, i, now)
    {
      ghost var before := Values(waiters);
      Distinct();
      waiters := waiters[..i] + waiters[i + 1..];
      assert Values(waiters) == before[..i] + before[i + 1..];
      Rebalance(now);
    }

    /** One look of a waiting call at the queue: it is let through, gives up, or
        waits on. */
    method TryServe(r: Reservation, now: Time, contextError: bool) returns (verdict: Verdict)
      requires Valid()
      modifies this`waiters, this`next, waiters
      ensures Valid()
      ensures verdict == NotQueued <==> r !in old(waiters)
      ensures verdict in {Go, Cancelled} <==> old(waiters) != [] && old(waiters)[0] == r && old(r.target) <= now
      ensures verdict == Cancelled ==> contextError && View() == Left(old(View()), interval, 0, now)
      ensures verdict == Go ==> !contextError && View() == Served(old(View()), interval, now)
      ensures verdict in {Blocked, NotQueued} ==> View() == old(View())
    {
      var index := IndexOfReservation(r);
      if index < 0 {
        return NotQueued;
      }
      if index == 0 && r.target <= now {
        if contextError {
          RemoveAt(0, now);
          return Cancelled;
        }
        ghost var before := Values(waiters);
        Distinct();
        waiters := waiters[1..];
        assert Values(waiters) == before[1..];
        next := Some(now + interval);
        Rebalance(now);
        return Go;
      }
      Distinct();
      return Blocked;
    }

    method Withdraw(r: Reservation, now: Time)
      requires Valid()
      modifies this`waiters, waiters
      ensures Valid() && r !in waiters
      ensures r !in old(waiters) ==> View() == old(View())
      ensures forall i :: 0 <= i < |old(waiters)| && old(waiters)[i] == r ==> View() == Left(old(View()),
          interval, i, now)
    {
      var index := IndexOfReservation(r);
      Distinct();
      if index >= 0 {
        RemoveAt(index, now);
      }
    }
  }
}
