/**
 Edge's fan-out of book status events to browser streams
 (services/edge-api/handler/book_events.go).

 A subscriber's bounded mailbox is proved to be a function of the unbounded log
 of the events published to it since it was last drained.
 */
module StatusHub {
  import opened Prelude

  /** `shown` stands for the fields that the hub only carries. */
  datatype StatusEvent = StatusEvent(id: Id, schema: nat, book: Id, version: int, shown: nat)

  datatype Mailbox = Mailbox(pending: map<Id, StatusEvent>, resync: bool)

  const EMPTY: Mailbox := Mailbox(map[], false)

  function Queue(m: Mailbox, e: StatusEvent, max: nat): Mailbox {
    if m.resync then m
    else if e.book in m.pending then
      if e.version <= m.pending[e.book].version then m else m.(pending := m.pending[e.book := e])
    else if |m.pending| >= max then Mailbox(map[], true)
    else m.(pending := m.pending[e.book := e])
  }

  // ---------------------------------------------------------------------
  // The unbounded log that a mailbox stands for

  function Books(log: seq<StatusEvent>): set<Id> {
    set i | 0 <= i < |log| :: log[i].book
  }

  /** The event is the first of the newest that the log holds for its book. */
  predicate Newest(log: seq<StatusEvent>, e: StatusEvent) {
    && e in log
    && (forall i :: 0 <= i < |log| && log[i].book == e.book ==> log[i].version <= e.version)
    && (forall i :: 0 <= i < |log| && log[i].book == e.book && log[i].version == e.version ==> e in log[..i + 1])
  }

  /** Every book of the log has its newest event pending, and no other book any. */
  predicate Holds(pending: map<Id, StatusEvent>, log: seq<StatusEvent>) {
    pending.Keys == Books(log) && forall b :: b in pending ==> pending[b].book == b && Newest(log, pending[b])
  }

  /** One resync once more than `max` books are outstanding; else, for every book
      in the log and no other, its newest event. */
  predicate Stands(m: Mailbox, log: seq<StatusEvent>, max: nat) {
    && m.resync == (|Books(log)| > max)
    && (m.resync ==> m.pending == map[])
    && (!m.resync ==> Holds(m.pending, log))
  }

  lemma BooksGrow(log: seq<StatusEvent>, e: StatusEvent)
    ensures Books(log + [e]) == Books(log) + {e.book}
  {
    forall b | b in Books(log) ensures b in Books(log + [e]) {
      var i :| 0 <= i < |log| && log[i].book == b;
      assert (log + [e])[i].book == b;
    }
    assert (log + [e])[|log|] == e;
  }

  lemma Prefix(log: seq<StatusEvent>, e: StatusEvent, i: nat)
    requires i <= |log|
    ensures (log + [e])[..i + 1] == if i < |log| then log[..i + 1] else log + [e]
  {
  }

  lemma NewestStays(log: seq<StatusEvent>, e: StatusEvent, old': StatusEvent)
    requires Newest(log, old') && (e.book == old'.book ==> e.version <= old'.version)
    ensures Newest(log + [e], old')
  {
    var grown := log + [e];
    forall i | 0 <= i < |grown| && grown[i].book == old'.book
        && grown[i].version == old'.version ensures old' in grown[..i + 1] {
      Prefix(log, e, i);
    }
    forall i | 0 <= i < |grown| && grown[i].book == old'.book ensures grown[i].version <= old'.version {
      assert i < |log| ==> grown[i] == log[i];
    }
  }

  lemma NewestArrives(log: seq<StatusEvent>, e: StatusEvent)
    requires forall i :: 0 <= i < |log| && log[i].book == e.book ==> log[i].version < e.version
    ensures Newest(log + [e], e)
  {
    var grown := log + [e];
    assert grown[|log|] == e;
    assert grown[..|log| + 1] == grown;
  }

  /** An event that the mailbox takes as its book's newest, or leaves for the one it has. */
  lemma PendingStays(m: Mailbox, log: seq<StatusEvent>, e: StatusEvent, b: Id)
    requires Holds(m.pending, log) && b in m.pending && (b == e.book ==> e.version <= m.pending[b].version)
    ensures m.pending[b].book == b && Newest(log + [e], m.pending[b])
  {
    NewestStays(log, e, m.pending[b]);
  }

  lemma PendingArrives(m: Mailbox, log: seq<StatusEvent>, e: StatusEvent)
    requires Holds(m.pending, log) && (e.book in m.pending ==> m.pending[e.book].version < e.version)
    ensures Newest(log + [e], e)
    ensures m.pending[e.book := e].Keys == Books(log + [e])
  {
    BooksGrow(log, e);
    forall i | 0 <= i < |log| && log[i].book == e.book ensures log[i].version < e.version {
      assert log[i].book in Books(log);
    }
    NewestArrives(log, e);
  }

  lemma AppendsHeld(m: Mailbox, log: seq<StatusEvent>, e: StatusEvent)
    requires Holds(m.pending, log) && (e.book in m.pending ==> m.pending[e.book].version < e.version)
    ensures Holds(m.pending[e.book := e], log + [e])
  {
    var taken := m.pending[e.book := e];
    PendingArrives(m, log, e);
    forall b | b in taken ensures taken[b].book == b && Newest(log + [e], taken[b]) {
      hide *;
      if b == e.book {
      } else {
        PendingStays(m, log, e, b);
      }
    }
    hide Newest, Books;
  }

  lemma AppendsTaken(m: Mailbox, log: seq<StatusEvent>, e: StatusEvent, max: nat)
    requires Stands(m, log, max) && !m.resync
    requires if e.book in m.pending then m.pending[e.book].version < e.version else |m.pending| < max
    ensures Stands(m.(pending := m.pending[e.book := e]), log + [e], max)
  {
    hide Holds, Books;
    AppendsHeld(m, log, e);
    BooksGrow(log, e);
    KeysOf(m.pending, log);
    SizeWith(Books(log), e.book);
  }

  lemma KeysOf(pending: map<Id, StatusEvent>, log: seq<StatusEvent>)
    requires Holds(pending, log)
    ensures |pending| == |Books(log)| && pending.Keys == Books(log)
  {
    assert |pending| == |pending.Keys|;
  }

  lemma AppendsIgnored(m: Mailbox, log: seq<StatusEvent>, e: StatusEvent, max: nat)
    requires Stands(m, log, max)
    requires m.resync || (e.book in m.pending && e.version <= m.pending[e.book].version)
    ensures Stands(m, log + [e], max)
  {
    hide Newest, Books;
    BooksGrow(log, e);
    if m.resync {
      SubsetSize(Books(log), Books(log + [e]));
    } else {
      assert Books(log + [e]) == Books(log);
      forall b | b in m.pending ensures Newest(log + [e], m.pending[b]) {
        PendingStays(m, log, e, b);
      }
    }
  }

  lemma SizeWith(s: set<Id>, x: Id)
    ensures |s + {x}| == if x in s then |s| else |s| + 1
  {
    assert x in s ==> s + {x} == s;
  }

  /** Refinement: queueing an event on the mailbox is appending it to the log. */
  lemma QueueAppends(m: Mailbox, log: seq<StatusEvent>, e: StatusEvent, max: nat)
    requires Stands(m, log, max)
    ensures Stands(Queue(m, e, max), log + [e], max)
  {
    hide Newest, Books;
    if m.resync || (e.book in m.pending && e.version <= m.pending[e.book].version) {
      AppendsIgnored(m, log, e, max);
    } else if e.book in m.pending || |m.pending| < max {
      AppendsTaken(m, log, e, max);
    } else {
      BooksGrow(log, e);
      SizeWith(Books(log), e.book);
      assert |m.pending| == |m.pending.Keys|;
    }
  }

  lemma MailboxIsBounded(m: Mailbox, log: seq<StatusEvent>, max: nat)
    requires Stands(m, log, max)
    ensures |m.pending| <= max && (m.resync ==> m.pending == map[])
  {
    assert |m.pending| == |m.pending.Keys|;
  }

  // ---------------------------------------------------------------------
  // Whole histories of one subscriber

  datatype Op = Published(event: StatusEvent) | TokenTaken | Drained

  /** `wake` is the token in the channel; `taken` is set between the writer's
      receive and its drain. `log` holds what was published since the last drain. */
  datatype Stream = Stream(box: Mailbox, wake: bool, taken: bool, log: seq<StatusEvent>)

  const OPENED: Stream := Stream(EMPTY, false, false, [])

  /** What a drain hands to the writer. */
  datatype Batch = Resync | Events(events: map<Id, StatusEvent>)

  function BatchOf(m: Mailbox): Batch {
    if m.resync then Resync else Events(m.pending)
  }

  function Drain(m: Mailbox): Mailbox {
    if m.resync then m.(resync := false) else m.(pending := map[])
  }

  predicate Allowed(s: Stream, op: Op) {
    match op
    case Published(_) => true
    case TokenTaken => s.wake && !s.taken
    case Drained => s.taken
  }

  function Act(s: Stream, op: Op, max: nat): Stream {
    match op
    case Published(e) =>
      var box := Queue(s.box, e, max);
      Stream(box, s.wake || box != s.box, s.taken, s.log + [e])
    case TokenTaken => s.(wake := false, taken := true)
    case Drained => Stream(Drain(s.box), s.wake, false, [])
  }

  predicate Trace(s: Stream, ops: seq<Op>, max: nat)
    decreases |ops|
  {
    ops == [] || (Allowed(s, ops[0]) && Trace(Act(s, ops[0], max), ops[1..], max))
  }

  function After(s: Stream, ops: seq<Op>, max: nat): Stream
    decreases |ops|
  {
    if ops == [] then s else After(Act(s, ops[0], max), ops[1..], max)
  }

  predicate Sound(s: Stream, max: nat) {
    Stands(s.box, s.log, max) && (s.box != EMPTY ==> s.wake || s.taken)
  }

  lemma ActSound(s: Stream, op: Op, max: nat)
    requires Sound(s, max) && Allowed(s, op)
    ensures Sound(Act(s, op, max), max)
  {
    match op
    case Published(e) => QueueAppends(s.box, s.log, e, max);
    case TokenTaken =>
    case Drained =>
      assert Books([]) == {};
      assert Drain(s.box) == EMPTY;
  }

  /** The event has reached the reader of `box`, or a newer one of its book has,
      or the reader is told to resynchronize. */
  predicate Carries(batch: Batch, e: StatusEvent) {
    batch.Resync? || (e.book in batch.events && e.version <= batch.events[e.book].version)
  }

  lemma StandingCarries(m: Mailbox, log: seq<StatusEvent>, max: nat, e: StatusEvent)
    requires Stands(m, log, max) && e in log
    ensures Carries(BatchOf(m), e)
  {
    var i :| 0 <= i < |log| && log[i] == e;
    assert e.book in Books(log);
  }

  /** Some drain of the history carries the event, or the mailbox still does. */
  predicate Reaches(s: Stream, ops: seq<Op>, max: nat, e: StatusEvent)
    decreases |ops|
  {
    if ops == [] then Carries(BatchOf(s.box), e)
    else (ops[0].Drained? && Carries(BatchOf(s.box), e)) || Reaches(Act(s, ops[0], max), ops[1..], max, e)
  }

  lemma {:induction false} LoggedReaches(s: Stream, ops: seq<Op>, max: nat, e: StatusEvent)
    requires Sound(s, max) && Trace(s, ops, max) && e in s.log
    ensures Reaches(s, ops, max, e)
    decreases |ops|
  {
    StandingCarries(s.box, s.log, max, e);
    if ops != [] && !ops[0].Drained? {
      ActSound(s, ops[0], max);
      LoggedReaches(Act(s, ops[0], max), ops[1..], max, e);
    }
  }

  lemma {:induction false} TraceSound(s: Stream, ops: seq<Op>, max: nat)
    requires Sound(s, max) && Trace(s, ops, max)
    ensures Sound(After(s, ops, max), max)
    decreases |ops|
  {
    if ops != [] {
      ActSound(s, ops[0], max);
      TraceSound(Act(s, ops[0], max), ops[1..], max);
    }
  }

  lemma OpenedSound(max: nat)
    ensures Sound(OPENED, max)
  {
    assert Books([]) == {};
  }

  /** No event is ever missed. Over every history of a live subscriber, an event
      published to it is at all later times drained, superseded or covered by a
      resync, or still in the mailbox so; the mailbox never exceeds its bound,
      and the writer is never left asleep beside a mailbox that is not empty. */
  lemma NothingIsMissed(before: seq<Op>, e: StatusEvent, after: seq<Op>, max: nat)
    requires Trace(OPENED, before, max) && Trace(Act(After(OPENED, before, max), Published(e), max), after, max)
    ensures var published := Act(After(OPENED, before, max), Published(e), max);
            var end := After(published, after, max);
            && Reaches(published, after, max, e)
            && |end.box.pending| <= max
            && (end.box.resync ==> end.box.pending == map[])
            && (end.box != EMPTY ==> end.wake || end.taken)
  {
    OpenedSound(max);
    TraceSound(OPENED, before, max);
    var s := After(OPENED, before, max);
    ActSound(s, Published(e), max);
    var published := Act(s, Published(e), max);
    LoggedReaches(published, after, max, e);
    TraceSound(published, after, max);
    var end := After(published, after, max);
    MailboxIsBounded(end.box, end.log, max);
  }

  // ---------------------------------------------------------------------
  // The hub

  class Subscriber {
    var wake: bool
    var closed: bool
    var pending: map<Id, StatusEvent>
    var resync: bool

    constructor ()
      ensures Box() == EMPTY && !wake && !closed
    {
      wake, closed, pending, resync := false, false, map[], false;
    }

    function Box(): Mailbox
      reads this
    {
      Mailbox(pending, resync)
    }
  }

  datatype Subscription = Subscription(session: Id, ip: Id)

  datatype Policy = Policy(maxSubscribers: nat, maxPerSession: nat, maxPerIp: nat, maxPending: nat)

  function Sessions(subscribers: map<Subscriber, Subscription>): map<Subscriber, Id> {
    map s | s in subscribers :: subscribers[s].session
  }

  function Addresses(subscribers: map<Subscriber, Subscription>): map<Subscriber, Id> {
    map s | s in subscribers :: subscribers[s].ip
  }

  function CountIn(counts: map<Id, nat>, key: Id): nat {
    if key in counts then counts[key] else 0
  }

  function Owned(owners: map<Subscriber, Id>, key: Id): set<Subscriber> {
    set s | s in owners && owners[s] == key
  }

  /** The tally counts, key by key, the subscribers of that key, and none has too many. */
  ghost predicate Tallied(counts: map<Id, nat>, owners: map<Subscriber, Id>, max: nat) {
    && (forall k :: CountIn(counts, k) == |Owned(owners, k)| <= max)
    && (forall k :: k in counts ==> 0 < counts[k])
  }

  function Released(counts: map<Id, nat>, key: Id): map<Id, nat> {
    if CountIn(counts, key) <= 1 then counts - {key} else counts[key := counts[key] - 1]
  }

  lemma TallyRelease(counts: map<Id, nat>, owners: map<Subscriber, Id>, max: nat, s: Subscriber)
    requires Tallied(counts, owners, max) && s in owners
    ensures Tallied(Released(counts, owners[s]), owners - {s}, max)
  {
    var left := owners - {s};
    forall k ensures CountIn(Released(counts, owners[s]), k) == |Owned(left, k)| <= max {
      assert CountIn(counts, k) == |Owned(owners, k)|;
      assert Owned(left, k) == Owned(owners, k) - {s};
    }
  }

  lemma OwnedMore(owners: map<Subscriber, Id>, s: Subscriber, key: Id, k: Id)
    requires s !in owners
    ensures |Owned(owners[s := key], k)| == |Owned(owners, k)| + if k == key then 1 else 0
  {
    assert Owned(owners[s := key], k) == if k == key then Owned(owners, k) + {s} else Owned(owners, k);
  }

  lemma TallyAdd(counts: map<Id, nat>, owners: map<Subscriber, Id>, max: nat, s: Subscriber, key: Id)
    requires Tallied(counts, owners, max) && s !in owners && CountIn(counts, key) < max
    ensures Tallied(counts[key := CountIn(counts, key) + 1], owners[s := key], max)
  {
    hide Owned;
    var more := owners[s := key];
    forall k ensures CountIn(counts[key := CountIn(counts, key) + 1], k) == |Owned(more, k)| <= max {
      assert CountIn(counts, k) == |Owned(owners, k)|;
      OwnedMore(owners, s, key, k);
    }
  }

  lemma Smaller(subscribers: map<Subscriber, Subscription>, s: Subscriber)
    requires s in subscribers
    ensures |subscribers - {s}| == |subscribers| - 1
    ensures Sessions(subscribers - {s}) == Sessions(subscribers) - {s}
    ensures Addresses(subscribers - {s}) == Addresses(subscribers) - {s}
  {
    assert (subscribers - {s}).Keys == subscribers.Keys - {s};
    assert |subscribers.Keys| == |subscribers|;
  }

  lemma Larger(subscribers: map<Subscriber, Subscription>, s: Subscriber, details: Subscription)
    requires s !in subscribers
    ensures |subscribers[s := details]| == |subscribers| + 1
    ensures Sessions(subscribers[s := details]) == Sessions(subscribers)[s := details.session]
    ensures Addresses(subscribers[s := details]) == Addresses(subscribers)[s := details.ip]
  {
    assert subscribers[s := details].Keys == subscribers.Keys + {s};
  }

  class Hub {
    const policy: Policy
    var subscribers: map<Subscriber, Subscription>
    var bySession: map<Id, nat>
    var byIp: map<Id, nat>
    var available: bool

    /** Within its limits, with the two tallies exact, and empty while the broker is away. */
    ghost predicate Valid()
      reads this, subscribers.Keys
    {
      && |subscribers| <= policy.maxSubscribers
      && Tallied(bySession, Sessions(subscribers), policy.maxPerSession)
      && Tallied(byIp, Addresses(subscribers), policy.maxPerIp)
      && (forall s :: s in subscribers ==> !s.closed)
      && (!available ==> subscribers == map[])
    }

    constructor (policy: Policy)
      ensures Valid() && this.policy == policy && subscribers == map[]
    {
      this.policy := policy;
      subscribers, bySession, byIp, available := map[], map[], map[], false;
    }

    /** Sends the token unless one is already waiting. */
    method Signal(subscriber: Subscriber)
      modifies subscriber`wake
      ensures subscriber.wake
    {
      if !subscriber.wake {
        subscriber.wake := true;
      }
    }

    method QueueEvent(subscriber: Subscriber, event: StatusEvent)
      modifies subscriber
      ensures subscriber.Box() == Queue(old(subscriber.Box()), event, policy.maxPending)
      ensures subscriber.wake == (old(subscriber.wake) || subscriber.Box() != old(subscriber.Box()))
      ensures subscriber.closed == old(subscriber.closed)
    {
      if subscriber.resync {
        return;
      }
      if event.book in subscriber.pending {
        if subscriber.pending[event.book].version >= event.version {
          return;
        }
        subscriber.pending := subscriber.pending[event.book := event];
        Signal(subscriber);
        return;
      }
      if |subscriber.pending| >= policy.maxPending {
        subscriber.pending := map[];
        subscriber.resync := true;
        Signal(subscriber);
        return;
      }
      subscriber.pending := subscriber.pending[event.book := event];
      assert event.book in subscriber.pending;
      Signal(subscriber);
    }

    /** Every live subscriber takes the Published step of its stream. */
    method Publish(event: StatusEvent)
      requires Valid()
      modifies subscribers.Keys
      ensures Valid()
      ensures forall s :: s in subscribers ==>
                s.Box() == Queue(old(s.Box()), event.(schema := 1), policy.maxPending)
                && s.wake == (old(s.wake) || s.Box() != old(s.Box()))
    {
      hide Tallied, Sessions, Addresses;
      if !available {
        return;
      }
      var tagged := event.(schema := 1);
      var todo := subscribers.Keys;
      while todo != {}
        invariant todo <= subscribers.Keys
        invariant forall s :: s in subscribers ==> s.closed == old(s.closed)
        invariant forall s :: s in todo ==> s.Box() == old(s.Box()) && s.wake == old(s.wake)
        invariant forall s :: s in subscribers && s !in todo ==>
                    s.Box() == Queue(old(s.Box()), tagged, policy.maxPending)
                    && s.wake == (old(s.wake) || s.Box() != old(s.Box()))
        decreases |todo|
      {
        var s :| s in todo;
        todo := todo - {s};
        QueueEvent(s, tagged);
      }
    }

    /** Removes a live subscriber and closes its channel; a second call does nothing. */
    method Remove(s: Subscriber)
      requires Valid()
      modifies this, s
      ensures Valid() && available == old(available)
      ensures subscribers == old(subscribers) - {s}
      ensures s.closed == (old(s.closed) || s in old(subscribers))
      ensures s.Box() == old(s.Box())
    {
      hide Tallied;
      if s in subscribers {
        var details := subscribers[s];
        TallyRelease(bySession, Sessions(subscribers), policy.maxPerSession, s);
        TallyRelease(byIp, Addresses(subscribers), policy.maxPerIp, s);
        Smaller(subscribers, s);
        subscribers := subscribers - {s};
        bySession := Released(bySession, details.session);
        byIp := Released(byIp, details.ip);
        s.closed := true;
      }
    }

    method SetAvailable(on: bool)
      requires Valid()
      modifies this, subscribers.Keys
      ensures Valid() && available == on
      ensures on || !old(available) ==> subscribers == old(subscribers)
      ensures !on ==> subscribers == map[]
      ensures !on && old(available) ==> forall s :: s in old(subscribers) ==> s.closed
    {
      hide Tallied, Sessions, Addresses;
      if available == on {
        return;
      }
      if on {
        available := on;
        return;
      }
      ghost var all := subscribers.Keys;
      while |subscribers| > 0
        invariant Valid() && available && subscribers.Keys <= all
        invariant forall s :: s in all && s !in subscribers ==> s.closed
        decreases |subscribers|
      {
        var s :| s in subscribers;
        Remove(s);
      }
      available := on;
    }

    method Subscribe(session: Id, ip: Id) returns (subscriber: Subscriber?)
      requires Valid()
      modifies this
      ensures Valid() && available == old(available)
      ensures (subscriber == null) == (!old(available) || |old(subscribers)| >= policy.maxSubscribers
                || CountIn(old(bySession), session) >= policy.maxPerSession
                     || CountIn(old(byIp), ip) >= policy.maxPerIp)
      ensures subscriber == null ==> subscribers == old(subscribers)
      ensures subscriber != null
          ==> fresh(subscriber) && subscribers == old(subscribers)[subscriber := Subscription(session, ip)]
      ensures subscriber != null ==> subscriber.Box() == OPENED.box && subscriber.wake == OPENED.wake
    {
      hide Tallied;
      if !available || |subscribers| >= policy.maxSubscribers
         || CountIn(bySession, session) >= policy.maxPerSession || CountIn(byIp, ip) >= policy.maxPerIp {
        return null;
      }
      var s := new Subscriber();
      TallyAdd(bySession, Sessions(subscribers), policy.maxPerSession, s, session);
      TallyAdd(byIp, Addresses(subscribers), policy.maxPerIp, s, ip);
      Larger(subscribers, s, Subscription(session, ip));
      subscribers := subscribers[s := Subscription(session, ip)];
      bySession := bySession[session := CountIn(bySession, session) + 1];
      byIp := byIp[ip := CountIn(byIp, ip) + 1];
      return s;
    }

    /** The Drained step of a stream: the batch goes out and the mailbox is empty. */
    method DrainSubscriber(s: Subscriber) returns (events: seq<StatusEvent>, resync: bool, subscribed: bool)
      requires Valid()
      modifies s`pending, s`resync
      ensures Valid() && subscribed == (s in subscribers)
      ensures !subscribed ==> s.Box() == old(s.Box()) && events == [] && !resync
      ensures subscribed ==> s.Box() == Drain(old(s.Box())) && resync == BatchOf(old(s.Box())).Resync?
      ensures subscribed && resync ==> events == []
      ensures subscribed && !resync ==>
                |events| == |old(s.pending)| && forall e :: e in events <==> e in old(s.pending).Values
    {
      if s !in subscribers {
        return [], false, false;
      }
      if s.resync {
        s.resync := false;
        return [], true, true;
      }
      events := [];
      var left := s.pending.Keys;
      while left != {}
        invariant left <= s.pending.Keys
        invariant |events| + |left| == |s.pending.Keys|
        invariant forall e :: e in events <==> exists b :: b in s.pending && b !in left && s.pending[b] == e
        decreases |left|
      {
        var b :| b in left;
        left := left - {b};
        events := events + [s.pending[b]];
      }
      s.pending := map[];
      return events, false, true;
    }
  }
}
