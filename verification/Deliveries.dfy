/**
 Consuming processing events with bounded retries
 (services/catalog-service/processing/consumer.go).
 */
module Deliveries {
  import opened Prelude

  /** Integer headers have a width on the wire; other types are not counts. */
  datatype HeaderValue = Int64(value: int) | Int32(value: int) | OtherValue

  /** The application's delivery count, the quorum queue's, and any other header,
      among them those by which a sender can add queues. */
  datatype Headers = Headers(application: Option<HeaderValue>, broker: Option<HeaderValue>, others: set<Id>)

  /** `content` stands for the type, identifiers, timestamps and priority. */
  datatype Message = Message(protobuf: bool, bodySize: nat, body: Id, content: Id, headers: Headers)

  datatype Policy = Policy(retryLimit: nat)

  const MAXIMUM_BROKER_MESSAGE_BYTES := 262144

  datatype HandleResult = Handled | InvalidEvent | NotFound | EventConflict | FactConflict | OtherFailure

  function BoundedDeliveryAttempt(value: HeaderValue): nat {
    match value
    case Int64(count) => if count >= 0 then count else 5
    case Int32(count) => if count >= 0 then count else 5
    case OtherValue => 5
  }

  function DeliveryAttempt(headers: Headers): nat {
    if headers.application.Some? then BoundedDeliveryAttempt(headers.application.value)
    else if headers.broker.Some? then BoundedDeliveryAttempt(headers.broker.value)
    else 0
  }

  function RetryMessage(m: Message, attempt: nat): Message {
    m.(headers := Headers(Some(Int64(attempt)), None, {}))
  }

  predicate WellFormed(m: Message) {
    m.protobuf && 0 < m.bodySize <= MAXIMUM_BROKER_MESSAGE_BYTES
  }

  // ---------------------------------------------------------------------
  // The retry channel

  datatype Confirm = Acknowledged | Rejected | Expired

  /** What becomes of one publication: whether it was sent, whether the broker found
      its queue, and what it confirmed in time. */
  datatype Attempt = Attempt(sent: bool, routed: bool, confirm: Confirm)

  /** The copy found no queue, and the publisher did not wait for the confirmation
      behind the return. However late the return, it is there by the time of the
      channel's next confirmation, before which the broker sends it. */
  predicate LeavesReturn(a: Attempt) {
    a.sent && !a.routed && a.confirm != Acknowledged
  }

  /** Only a confirmed publication looks for a return, and so takes one out. */
  predicate TakesReturn(a: Attempt) {
    a.sent && a.confirm == Acknowledged
  }

  /** A return waits in the channel for the next confirmation. */
  predicate ReturnWaits(before: bool, a: Attempt) {
    !TakesReturn(a) && (before || LeavesReturn(a))
  }

  predicate Succeeds(returnWaits: bool, a: Attempt) {
    a.sent && a.routed && a.confirm == Acknowledged && !returnWaits
  }

  /** The channel that receives returns holds one; nobody empties it before a
      publication. A return comes before the confirmation of its message. */
  class RetryPublisher {
    var returned: bool

    constructor ()
      ensures !returned
    {
      returned := false;
    }

    method PublishRetry(a: Attempt) returns (ok: bool)
      modifies this
      ensures ok == Succeeds(old(returned), a) && returned == ReturnWaits(old(returned), a)
    {
      if !a.sent {
        return false;
      }
      if !a.routed {
        returned := true;
      }
      if a.confirm != Acknowledged {
        return false;
      }
      if returned {
        returned := false;
        return false;
      }
      return true;
    }
  }

  /** Whether a return waits after these publications on a fresh channel. */
  predicate WaitsAfter(attempts: seq<Attempt>) {
    attempts != [] && ReturnWaits(WaitsAfter(attempts[..|attempts| - 1]), attempts[|attempts| - 1])
  }

  /** The publication left a return, and no later one has taken it out. */
  predicate Unclaimed(attempts: seq<Attempt>, i: nat)
    requires i < |attempts|
  {
    LeavesReturn(attempts[i]) && forall j :: i < j < |attempts| ==> !TakesReturn(attempts[j])
  }

  lemma {:induction false} WaitsExactly(attempts: seq<Attempt>)
    ensures WaitsAfter(attempts) <==> exists i :: 0 <= i < |attempts| && Unclaimed(attempts, i)
    decreases |attempts|
  {
    if attempts != [] {
      var n := |attempts| - 1;
      var init := attempts[..n];
      WaitsExactly(init);
      if WaitsAfter(attempts) {
        if LeavesReturn(attempts[n]) {
          assert Unclaimed(attempts, n);
        } else {
          var i :| 0 <= i < n && Unclaimed(init, i);
          assert forall j :: i < j < n ==> init[j] == attempts[j];
          assert Unclaimed(attempts, i);
        }
      }
      if i :| 0 <= i <= n && Unclaimed(attempts, i) && i < n {
        assert forall j :: i < j < n ==> init[j] == attempts[j];
        assert Unclaimed(init, i);
      }
    }
  }

  /** A copy that was confirmed and routed passes for lost exactly when an earlier
      copy on the channel was neither routed nor acknowledged in time, and no copy in
      between was. */
  lemma {:induction false} LostOrFound(attempts: seq<Attempt>, a: Attempt)
    requires a.sent && a.routed && a.confirm == Acknowledged
    ensures !Succeeds(WaitsAfter(attempts), a) <==>
            exists i :: 0 <= i < |attempts|
              && attempts[i].sent && !attempts[i].routed && attempts[i].confirm != Acknowledged
              && forall j :: i < j < |attempts| ==> !(attempts[j].sent && attempts[j].confirm == Acknowledged)
  {
    WaitsExactly(attempts);
    if WaitsAfter(attempts) {
      var i :| 0 <= i < |attempts| && Unclaimed(attempts, i);
      assert attempts[i].sent && !attempts[i].routed;
    }
    if i :| 0 <= i < |attempts| && attempts[i].sent && !attempts[i].routed && attempts[i].confirm != Acknowledged
            && forall j :: i < j < |attempts| ==> !(attempts[j].sent && attempts[j].confirm == Acknowledged) {
      assert Unclaimed(attempts, i);
    }
  }

  // ---------------------------------------------------------------------
  // One delivery

  datatype Settlement = Acked | DeadLettered | Unsettled

  /** All that a delivery meets outside: the handler's result, a shutdown while it
      waits or after its publication failed, and the fate of the copy. */
  datatype Surrounding = Surrounding(result: HandleResult, shutdownInWait: bool, shutdownAtPublish: bool,
      attempt: Attempt)

  datatype Outcome = Outcome(settlement: Settlement, handled: bool, published: Option<Message>)

  /** The declared outcome; `staleReturn` is the state of the retry channel. */
  function Delivered(policy: Policy, m: Message, s: Surrounding, staleReturn: bool): Outcome {
    if !WellFormed(m) then Outcome(DeadLettered, false, None)
    else if s.result == Handled then Outcome(Acked, true, None)
    else if s.result != OtherFailure || DeliveryAttempt(m.headers) >= policy.retryLimit
        then Outcome(DeadLettered, true, None)
    else if s.shutdownInWait then Outcome(Unsettled, true, None)
    else
      var copy := RetryMessage(m, DeliveryAttempt(m.headers) + 1);
      Outcome(if Succeeds(staleReturn, s.attempt) then Acked
              else if s.shutdownAtPublish then Unsettled
              else DeadLettered,
              true, Some(copy))
  }

  datatype Counters = Counters(rejected: nat, conflicts: nat, failures: nat)

  class Consumer {
    const policy: Policy
    const retry: RetryPublisher
    var rejected: nat
    var conflicts: nat
    var failures: nat

    constructor (policy: Policy, retry: RetryPublisher)
      ensures this.policy == policy && this.retry == retry && Recorded() == Counters(0, 0, 0)
    {
      this.policy, this.retry := policy, retry;
      rejected, conflicts, failures := 0, 0, 0;
    }

    function Recorded(): Counters
      reads this
    {
      Counters(rejected, conflicts, failures)
    }

    method HandleDelivery(m: Message, s: Surrounding) returns (outcome: Outcome)
      modifies this, retry
      ensures outcome == Delivered(policy, m, s, old(retry.returned))
      ensures retry.returned == if outcome.published == None then old(retry.returned)
          else ReturnWaits(old(retry.returned), s.attempt)
      ensures var before := old(Recorded());
              Recorded() ==
              if !WellFormed(m) || s.result in {InvalidEvent, NotFound} then before.(rejected := before.rejected + 1)
              else if s.result in {EventConflict, FactConflict} then before.(conflicts := before.conflicts + 1)
              else if s.result == OtherFailure then before.(failures := before.failures + 1)
              else before
    {
      if !m.protobuf || m.bodySize == 0 || m.bodySize > MAXIMUM_BROKER_MESSAGE_BYTES {
        rejected := rejected + 1;
        return Outcome(DeadLettered, false, None);
      }
      match s.result {
        case Handled =>
          return Outcome(Acked, true, None);
        case InvalidEvent =>
          rejected := rejected + 1;
          return Outcome(DeadLettered, true, None);
        case NotFound =>
          rejected := rejected + 1;
          return Outcome(DeadLettered, true, None);
        case EventConflict =>
          conflicts := conflicts + 1;
          return Outcome(DeadLettered, true, None);
        case FactConflict =>
          conflicts := conflicts + 1;
          return Outcome(DeadLettered, true, None);
        case OtherFailure =>
          failures := failures + 1;
          var attempt := DeliveryAttempt(m.headers);
          if attempt >= policy.retryLimit {
            return Outcome(DeadLettered, true, None);
          }
          if s.shutdownInWait {
            return Outcome(Unsettled, true, None);
          }
          var copy := RetryMessage(m, attempt + 1);
          var ok := retry.PublishRetry(s.attempt);
          if !ok {
            return Outcome(if s.shutdownAtPublish then Unsettled else DeadLettered, true, Some(copy));
          }
          return Outcome(Acked, true, Some(copy));
      }
    }
  }

  // ---------------------------------------------------------------------
  // The queue

  datatype Place = Ready | Done | Dead

  /** One copy of a message; `origin` is the first of its line, `next` a copy that
      the broker has taken in its place, `served` whether the handler succeeded. */
  datatype Copy = Copy(message: Message, place: Place, origin: nat, handled: nat, served: bool, next: Option<nat>)

  /** Every connection of a consumer has a retry channel of its own; `returned` are
      those in which a return waits. */
  datatype Broker = Broker(queue: seq<Copy>, returned: set<Id>)

  const EMPTY: Broker := Broker([], {})

  /** `settles`: the settlement reached the broker. Otherwise, as after a shutdown,
      the broker delivers the copy again, and may count that in its own header. */
  datatype Action =
    | Send(message: Message)
    | Deliver(at: nat, consumer: Id, s: Surrounding, settles: bool, recount: Option<HeaderValue>)
    | Reconnect(who: Id)

  predicate Enabled(b: Broker, a: Action) {
    a.Deliver? ==> a.at < |b.queue| && b.queue[a.at].place == Ready
  }

  predicate Stale(b: Broker, a: Action) {
    a.Deliver? && a.consumer in b.returned
  }

  /** The broker has the copy, whether or not the publisher learns of it. */
  predicate Taken(a: Attempt) {
    a.sent && a.routed && a.confirm != Rejected
  }

  function Served(c: Copy, o: Outcome): Copy {
    c.(handled := c.handled + (if o.handled then 1 else 0),
        served := c.served || (o.settlement == Acked && o.published == None))
  }

  function Settled(c: Copy, o: Outcome, a: Action, size: nat): Copy
    requires a.Deliver?
  {
    var next := if o.published.Some? && Taken(a.s.attempt) then Some(size) else c.next;
    if o.settlement == Unsettled || !a.settles
    then c.(message := c.message.(headers := c.message.headers.(broker := a.recount)), next := next)
    else c.(place := if o.settlement == Acked then Done else Dead, next := next)
  }

  function NextQueue(policy: Policy, queue: seq<Copy>, a: Action, stale: bool): seq<Copy>
    requires a.Deliver? ==> a.at < |queue|
  {
    match a
    case Send(message) => queue + [Copy(message, Ready, |queue|, 0, false, None)]
    case Deliver(at, _, s, _, _) =>
      var c := queue[at];
      var o := Delivered(policy, c.message, s, stale);
      var queue1 := queue[at := Settled(Served(c, o), o, a, |queue|)];
      if o.published.Some? && Taken(s.attempt)
          then queue1 + [Copy(o.published.value, Ready, c.origin, 0, false, None)] else queue1
    case Reconnect(_) => queue
  }

  function NextReturned(policy: Policy, b: Broker, a: Action): set<Id>
    requires Enabled(b, a)
  {
    match a
    case Send(_) => b.returned
    case Deliver(at, consumer, s, _, _) =>
      var stale := consumer in b.returned;
      if Delivered(policy, b.queue[at].message, s, stale).published.None? then b.returned
      else if ReturnWaits(stale, s.attempt) then b.returned + {consumer}
      else b.returned - {consumer}
    case Reconnect(who) => b.returned - {who}
  }

  function Next(policy: Policy, b: Broker, a: Action): Broker
    requires Enabled(b, a)
  {
    Broker(NextQueue(policy, b.queue, a, Stale(b, a)), NextReturned(policy, b, a))
  }

  predicate Trace(policy: Policy, b: Broker, actions: seq<Action>)
    decreases |actions|
  {
    actions == [] || (Enabled(b, actions[0]) && Trace(policy, Next(policy, b, actions[0]), actions[1..]))
  }

  function After(policy: Policy, b: Broker, actions: seq<Action>): Broker
    requires Trace(policy, b, actions)
    decreases |actions|
  {
    if actions == [] then b else After(policy, Next(policy, b, actions[0]), actions[1..])
  }

  // ---------------------------------------------------------------------
  // No message is lost

  predicate SameBody(a: Message, b: Message) {
    a.protobuf == b.protobuf && a.bodySize == b.bodySize && a.body == b.body && a.content == b.content
  }

  /** A copy that is done was served, or a later copy of the same line and content
      has taken its place; and copies carry no header that a sender chose. */
  predicate CopyOk(queue: seq<Copy>, n: nat)
    requires n < |queue|
  {
    var c := queue[n];
    && c.origin <= n && queue[c.origin].origin == c.origin
    && SameBody(c.message, queue[c.origin].message)
    && (c.place == Done ==> c.served || c.next.Some?)
    && (c.next.Some? ==> n < c.next.value < |queue| && queue[c.next.value].origin == c.origin)
    && (c.origin < n ==> c.message.headers.application.Some? && c.message.headers.others == {})
  }

  predicate QueueOk(queue: seq<Copy>) {
    forall n :: 0 <= n < |queue| ==> CopyOk(queue, n)
  }

  lemma NextOk(policy: Policy, queue: seq<Copy>, a: Action, stale: bool)
    requires QueueOk(queue) && (a.Deliver? ==> a.at < |queue|)
    ensures QueueOk(NextQueue(policy, queue, a, stale))
  {
    var queue' := NextQueue(policy, queue, a, stale);
    hide WellFormed, DeliveryAttempt;
    forall n | 0 <= n < |queue'| ensures CopyOk(queue', n) {
      if n < |queue| {
        assert CopyOk(queue, n);
      }
      if a.Deliver? {
        assert CopyOk(queue, a.at);
      }
    }
  }

  lemma {:induction false} TraceOk(policy: Policy, b: Broker, actions: seq<Action>)
    requires QueueOk(b.queue) && Trace(policy, b, actions)
    ensures QueueOk(After(policy, b, actions).queue)
    decreases |actions|
  {
    hide QueueOk, NextQueue, NextReturned;
    if actions != [] {
      NextOk(policy, b.queue, actions[0], Stale(b, actions[0]));
      TraceOk(policy, Next(policy, b, actions[0]), actions[1..]);
    }
  }

  /** Where a message has got to: waiting, dead-lettered or served. */
  predicate Accounted(c: Copy) {
    c.place == Ready || c.place == Dead || c.served
  }

  lemma {:induction false} LineIsAccounted(queue: seq<Copy>, n: nat) returns (m: nat)
    requires QueueOk(queue) && n < |queue|
    ensures n <= m < |queue| && queue[m].origin == queue[n].origin && Accounted(queue[m])
    ensures SameBody(queue[m].message, queue[n].message)
    decreases |queue| - n
  {
    assert CopyOk(queue, n);
    m := n;
    if !Accounted(queue[n]) {
      m := LineIsAccounted(queue, queue[n].next.value);
    }
    assert CopyOk(queue, m);
  }

  /** Conservation, in every run with crashes, lost settlements and redeliveries: of
      each message that was sent, some copy with its content is waiting in the
      queue, dead-lettered, or has been served. */
  lemma MessagesAreConserved(policy: Policy, actions: seq<Action>, n: nat) returns (m: nat)
    requires Trace(policy, EMPTY, actions) && n < |After(policy, EMPTY, actions).queue|
    ensures var queue := After(policy, EMPTY, actions).queue;
            m < |queue| && queue[m].origin == queue[n].origin && Accounted(queue[m])
                && SameBody(queue[m].message, queue[n].message)
  {
    hide After;
    TraceOk(policy, EMPTY, actions);
    m := LineIsAccounted(After(policy, EMPTY, actions).queue, n);
  }

  // ---------------------------------------------------------------------
  // Why a copy is where it is

  predicate Delivers(a: Action, n: nat) {
    a.Deliver? && a.at == n
  }

  /** The handler saw the message and was content with it. */
  predicate Serves(policy: Policy, b: Broker, a: Action, n: nat) {
    Delivers(a, n) && n < |b.queue| && WellFormed(b.queue[n].message) && a.s.result == Handled
  }

  /** The handler failed in a way that may pass, on an attempt before the last. */
  predicate TriesAgain(policy: Policy, b: Broker, a: Action, n: nat) {
    Delivers(a, n) && n < |b.queue| && WellFormed(b.queue[n].message) && a.s.result == OtherFailure
    && DeliveryAttempt(b.queue[n].message.headers) < policy.retryLimit
  }

  /** Its retry copy was sent, routed and confirmed, and no return was found. */
  predicate HandsOn(policy: Policy, b: Broker, a: Action, n: nat) {
    && TriesAgain(policy, b, a, n) && !a.s.shutdownInWait
    && a.s.attempt == GOOD && a.consumer !in b.returned
  }

  /** The message is malformed, or the handler's result is final, or this was the
      last attempt, or the retry copy failed outside of a shutdown. */
  predicate GivesUp(policy: Policy, b: Broker, a: Action, n: nat) {
    Delivers(a, n) && n < |b.queue|
    && (|| !WellFormed(b.queue[n].message)
        || a.s.result in {InvalidEvent, NotFound, EventConflict, FactConflict}
        || (a.s.result == OtherFailure && policy.retryLimit <= DeliveryAttempt(b.queue[n].message.headers))
        || (a.s.result == OtherFailure && !a.s.shutdownInWait && !a.s.shutdownAtPublish
            && (a.s.attempt != GOOD || a.consumer in b.returned)))
  }

  function At(policy: Policy, actions: seq<Action>, i: nat): Broker
    requires Trace(policy, EMPTY, actions) && i <= |actions|
    ensures Trace(policy, EMPTY, actions[..i])
  {
    PrefixIsTrace(policy, EMPTY, actions, i);
    After(policy, EMPTY, actions[..i])
  }

  lemma {:induction false} PrefixIsTrace(policy: Policy, b: Broker, actions: seq<Action>, i: nat)
    requires Trace(policy, b, actions) && i <= |actions|
    ensures Trace(policy, b, actions[..i])
    ensures i < |actions| ==>
              var there := After(policy, b, actions[..i]);
              && Enabled(there, actions[i])
              && Trace(policy, b, actions[..i + 1])
              && After(policy, b, actions[..i + 1]) == Next(policy, there, actions[i])
    decreases |actions|
  {
    hide Enabled, NextQueue, NextReturned;
    if i > 0 {
      assert actions[..i][1..] == actions[1..][..i - 1];
      PrefixIsTrace(policy, Next(policy, b, actions[0]), actions[1..], i - 1);
      if i < |actions| {
        assert actions[..i + 1][1..] == actions[1..][..i];
      }
    } else if actions != [] {
      assert actions[..1][1..] == [];
    }
  }

  /** What one step does to the place of one copy. */
  lemma StepMoves(policy: Policy, b: Broker, a: Action, n: nat)
    requires Enabled(b, a) && n < |Next(policy, b, a).queue|
    ensures var c' := Next(policy, b, a).queue[n];
            if n < |b.queue| then
              var c := b.queue[n];
              && (c'.place == Dead <==> c.place == Dead || (a.Deliver? && a.settles && GivesUp(policy, b, a, n)))
              && (c'.place == Done <==>
                  c.place == Done
                  || (a.Deliver? && a.settles && (Serves(policy, b, a, n) || HandsOn(policy, b, a, n))))
              && (c'.served <==> c.served || Serves(policy, b, a, n))
            else
              c'.place == Ready && !c'.served
  {
    hide DeliveryAttempt, WellFormed;
  }

  predicate ServedAt(policy: Policy, actions: seq<Action>, i: nat, n: nat)
    requires Trace(policy, EMPTY, actions) && i < |actions|
  {
    Serves(policy, At(policy, actions, i), actions[i], n)
  }

  predicate DoneAt(policy: Policy, actions: seq<Action>, i: nat, n: nat)
    requires Trace(policy, EMPTY, actions) && i < |actions|
  {
    && actions[i].Deliver? && actions[i].settles
    && (ServedAt(policy, actions, i, n) || HandsOn(policy, At(policy, actions, i), actions[i], n))
  }

  predicate GivenUpAt(policy: Policy, actions: seq<Action>, i: nat, n: nat)
    requires Trace(policy, EMPTY, actions) && i < |actions|
  {
    actions[i].Deliver? && actions[i].settles && GivesUp(policy, At(policy, actions, i), actions[i], n)
  }

  lemma AtPrefix(policy: Policy, actions: seq<Action>, i: nat, k: nat)
    requires Trace(policy, EMPTY, actions) && i <= k <= |actions| && Trace(policy, EMPTY, actions[..k])
    ensures At(policy, actions[..k], i) == At(policy, actions, i)
  {
    assert actions[..k][..i] == actions[..i];
  }

  /** Over every run: a copy is dead-lettered exactly if a delivery of it that was
      settled had to give it up, done exactly if one was served or handed on to a
      retry copy, and served exactly if a handler was content with it. */
  lemma {:induction false} PlacesAreEarned(policy: Policy, actions: seq<Action>, n: nat)
    requires Trace(policy, EMPTY, actions) && n < |After(policy, EMPTY, actions).queue|
    ensures var c := After(policy, EMPTY, actions).queue[n];
            && (c.place == Dead <==> exists i :: 0 <= i < |actions| && GivenUpAt(policy, actions, i, n))
            && (c.place == Done <==> exists i :: 0 <= i < |actions| && DoneAt(policy, actions, i, n))
            && (c.served <==> exists i :: 0 <= i < |actions| && ServedAt(policy, actions, i, n))
    decreases |actions|
  {
    hide Next, After, Trace, Serves, GivesUp, HandsOn;
    if actions == [] {
      NothingAfterNothing(policy);
    } else {
      var k := |actions| - 1;
      var init := actions[..k];
      PrefixIsTrace(policy, EMPTY, actions, k);
      assert actions[..k + 1] == actions;
      var b := At(policy, actions, k);
      StepMoves(policy, b, actions[k], n);
      forall i | 0 <= i < k
        ensures GivenUpAt(policy, actions, i, n) == GivenUpAt(policy, init, i, n)
        ensures DoneAt(policy, actions, i, n) == DoneAt(policy, init, i, n)
        ensures ServedAt(policy, actions, i, n) == ServedAt(policy, init, i, n)
      {
        AtPrefix(policy, actions, i, k);
      }
      if n < |b.queue| {
        PlacesAreEarned(policy, init, n);
        if i :| 0 <= i < k && GivenUpAt(policy, init, i, n) { assert GivenUpAt(policy, actions, i, n); }
        if i :| 0 <= i < k && DoneAt(policy, init, i, n) { assert DoneAt(policy, actions, i, n); }
        if i :| 0 <= i < k && ServedAt(policy, init, i, n) { assert ServedAt(policy, actions, i, n); }
        assert GivesUp(policy, b, actions[k], n) && actions[k].Deliver? && actions[k].settles
            <==> GivenUpAt(policy, actions, k, n);
        assert Serves(policy, b, actions[k], n) <==> ServedAt(policy, actions, k, n);
        assert actions[k].Deliver? && actions[k].settles
            && (Serves(policy, b, actions[k], n) || HandsOn(policy, b, actions[k], n))
            <==> DoneAt(policy, actions, k, n);
      } else {
        NotYetThere(policy, actions, n);
      }
    }
  }

  lemma NothingAfterNothing(policy: Policy)
    ensures After(policy, EMPTY, []) == EMPTY
  {
  }

  lemma NotYetThere(policy: Policy, actions: seq<Action>, n: nat)
    requires Trace(policy, EMPTY, actions) && actions != [] && |At(policy, actions, |actions| - 1).queue| <= n
    ensures forall i :: 0 <= i < |actions| ==>
              && !GivenUpAt(policy, actions, i, n) && !DoneAt(policy, actions, i, n) && !ServedAt(policy, actions, i, n)
  {
    hide Next, After, Trace, WellFormed, DeliveryAttempt;
    forall i | 0 <= i < |actions| ensures |At(policy, actions, i).queue| <= n {
      QueueOnlyGrows(policy, actions, i, |actions| - 1);
    }
  }

  lemma {:induction false} QueueOnlyGrows(policy: Policy, actions: seq<Action>, i: nat, j: nat)
    requires Trace(policy, EMPTY, actions) && i <= j <= |actions|
    ensures |At(policy, actions, i).queue| <= |At(policy, actions, j).queue|
    decreases j - i
  {
    hide After, Trace;
    if i < j {
      QueueOnlyGrows(policy, actions, i, j - 1);
      PrefixIsTrace(policy, EMPTY, actions, j - 1);
      StepGrows(policy, At(policy, actions, j - 1), actions[j - 1]);
    }
  }

  lemma StepGrows(policy: Policy, b: Broker, a: Action)
    requires Enabled(b, a)
    ensures |b.queue| <= |Next(policy, b, a).queue|
  {
    hide Delivered, Settled, Served;
  }

  /** So a message that was handled with success and acknowledged is done and served,
      and never dead-lettered, whatever comes after. */
  lemma ServedIsDone(policy: Policy, actions: seq<Action>, i: nat, n: nat)
    requires Trace(policy, EMPTY, actions) && i < |actions| && n < |At(policy, actions, i).queue|
    requires actions[i].Deliver? && actions[i].at == n && actions[i].settles && actions[i].s.result == Handled
    requires WellFormed(At(policy, actions, i).queue[n].message)
    ensures var end := After(policy, EMPTY, actions).queue;
            n < |end| && end[n].place == Done && end[n].served
  {
    hide Next, After, Trace, WellFormed, DeliveryAttempt;
    QueueOnlyGrows(policy, actions, i, |actions|);
    assert actions[..|actions|] == actions;
    PlacesAreEarned(policy, actions, n);
    assert ServedAt(policy, actions, i, n) && DoneAt(policy, actions, i, n);
  }

  // ---------------------------------------------------------------------
  // What retry copies carry

  /** A retry copy carries the application's count, one more than its parent's if
      that is a retry copy too, and no broker's count stands above it. */
  predicate CountOk(policy: Policy, queue: seq<Copy>, n: nat)
    requires n < |queue|
  {
    var c := queue[n];
    c.origin != n ==>
      && c.message.headers.application.Some? && c.message.headers.application.value.Int64?
      && 1 <= c.message.headers.application.value.value <= policy.retryLimit
      && (c.next.Some? && c.next.value < |queue| ==>
            queue[c.next.value].message.headers.application ==
            Some(Int64(c.message.headers.application.value.value + 1)))
  }

  predicate CountsOk(policy: Policy, queue: seq<Copy>) {
    QueueOk(queue) && forall n :: 0 <= n < |queue| ==> CountOk(policy, queue, n)
  }

  lemma NextCounts(policy: Policy, b: Broker, a: Action)
    requires CountsOk(policy, b.queue) && Enabled(b, a)
    ensures CountsOk(policy, Next(policy, b, a).queue)
  {
    hide WellFormed;
    var queue' := Next(policy, b, a).queue;
    NextOk(policy, b.queue, a, Stale(b, a));
    forall n | 0 <= n < |queue'| ensures CountOk(policy, queue', n) {
      if n < |b.queue| {
        assert CopyOk(b.queue, n) && CountOk(policy, b.queue, n);
      }
      if a.Deliver? {
        assert CopyOk(b.queue, a.at) && CountOk(policy, b.queue, a.at);
      }
    }
  }

  /** In every run the copies of a line count 1, 2, 3 and so on up to the limit, as
      long as the first attempt was the message's first. */
  lemma {:induction false} CopiesCountUp(policy: Policy, b: Broker, actions: seq<Action>)
    requires CountsOk(policy, b.queue) && Trace(policy, b, actions)
    ensures CountsOk(policy, After(policy, b, actions).queue)
    decreases |actions|
  {
    hide CountsOk, NextQueue, NextReturned;
    if actions != [] {
      NextCounts(policy, b, actions[0]);
      CopiesCountUp(policy, Next(policy, b, actions[0]), actions[1..]);
    }
  }

  // ---------------------------------------------------------------------
  // Why a return waits

  predicate Publishes(policy: Policy, b: Broker, a: Action, consumer: Id) {
    a.Deliver? && a.consumer == consumer && TriesAgain(policy, b, a, a.at) && !a.s.shutdownInWait
  }

  predicate LeavesAt(policy: Policy, actions: seq<Action>, i: nat, consumer: Id)
    requires Trace(policy, EMPTY, actions) && i < |actions|
  {
    && Publishes(policy, At(policy, actions, i), actions[i], consumer)
    && actions[i].s.attempt.sent && !actions[i].s.attempt.routed && actions[i].s.attempt.confirm != Acknowledged
  }

  predicate TakesAt(policy: Policy, actions: seq<Action>, i: nat, consumer: Id)
    requires Trace(policy, EMPTY, actions) && i < |actions|
  {
    || actions[i] == Reconnect(consumer)
    || (Publishes(policy, At(policy, actions, i), actions[i], consumer)
        && actions[i].s.attempt.sent && actions[i].s.attempt.confirm == Acknowledged)
  }

  predicate LeftSince(policy: Policy, actions: seq<Action>, i: nat, consumer: Id)
    requires Trace(policy, EMPTY, actions) && i < |actions|
  {
    && LeavesAt(policy, actions, i, consumer)
    && forall j :: i < j < |actions| ==> !TakesAt(policy, actions, j, consumer)
  }

  lemma StepReturns(policy: Policy, b: Broker, a: Action, consumer: Id)
    requires Enabled(b, a)
    ensures consumer in Next(policy, b, a).returned <==>
            || (Publishes(policy, b, a, consumer) && LeavesReturn(a.s.attempt))
            || (consumer in b.returned && a != Reconnect(consumer)
                && !(Publishes(policy, b, a, consumer) && TakesReturn(a.s.attempt)))
  {
    hide DeliveryAttempt, WellFormed;
  }

  /** Over every run: a return waits on a consumer's channel exactly if a publication
      on it was neither routed nor acknowledged in time, and since then none was
      acknowledged and the consumer did not connect anew. */
  lemma {:induction false} ReturnsAreLeft(policy: Policy, actions: seq<Action>, consumer: Id)
    requires Trace(policy, EMPTY, actions)
    ensures consumer in After(policy, EMPTY, actions).returned <==>
            exists i :: 0 <= i < |actions| && LeftSince(policy, actions, i, consumer)
    decreases |actions|
  {
    hide Next, After, Trace, Publishes;
    if actions == [] {
      NothingAfterNothing(policy);
    } else {
      var k := |actions| - 1;
      var init := actions[..k];
      PrefixIsTrace(policy, EMPTY, actions, k);
      assert actions[..k + 1] == actions;
      StepReturns(policy, At(policy, actions, k), actions[k], consumer);
      ReturnsAreLeft(policy, init, consumer);
      forall i | 0 <= i < k
        ensures LeavesAt(policy, actions, i, consumer) == LeavesAt(policy, init, i, consumer)
        ensures TakesAt(policy, actions, i, consumer) == TakesAt(policy, init, i, consumer)
      {
        AtPrefix(policy, actions, i, k);
      }
      if i :| 0 <= i < k && LeftSince(policy, init, i, consumer) && !TakesAt(policy, actions, k, consumer) {
        assert LeftSince(policy, actions, i, consumer);
      }
      if i :| 0 <= i < |actions| && LeftSince(policy, actions, i, consumer) && i < k {
        assert LeftSince(policy, init, i, consumer);
      }
      if LeavesAt(policy, actions, k, consumer) {
        assert LeftSince(policy, actions, k, consumer);
      }
    }
  }

  // ---------------------------------------------------------------------
  // Retries are bounded

  /** How often a message that waits can still be handled. */
  function Remaining(policy: Policy, m: Message): nat {
    if policy.retryLimit <= DeliveryAttempt(m.headers) then 1 else policy.retryLimit - DeliveryAttempt(m.headers) + 1
  }

  function Weight(policy: Policy, c: Copy): nat {
    c.handled + if c.place == Ready then Remaining(policy, c.message) else 0
  }

  /** Over the line of one message: how often it was handled, and can still be. */
  function Total(policy: Policy, queue: seq<Copy>, origin: nat): nat {
    if queue == [] then 0
    else
      var n := |queue| - 1;
      Total(policy, queue[..n], origin) + if queue[n].origin == origin then Weight(policy, queue[n]) else 0
  }

  function TimesHandled(queue: seq<Copy>, origin: nat): nat {
    if queue == [] then 0
    else
      var n := |queue| - 1;
      TimesHandled(queue[..n], origin) + if queue[n].origin == origin then queue[n].handled else 0
  }

  lemma {:induction false} HandledWithinTotal(policy: Policy, queue: seq<Copy>, origin: nat)
    ensures TimesHandled(queue, origin) <= Total(policy, queue, origin)
    decreases |queue|
  {
    if queue != [] {
      HandledWithinTotal(policy, queue[..|queue| - 1], origin);
    }
  }

  lemma {:induction false} TotalUpdate(policy: Policy, queue: seq<Copy>, at: nat, c: Copy, origin: nat)
    requires at < |queue| && c.origin == queue[at].origin
    ensures Total(policy, queue[at := c], origin) ==
            Total(policy, queue, origin) + if c.origin == origin
                then Weight(policy, c) - Weight(policy, queue[at]) else 0
    decreases |queue|
  {
    hide Weight;
    var n := |queue| - 1;
    if at == n {
      assert queue[at := c][..n] == queue[..n];
    } else {
      assert queue[at := c][..n] == queue[..n][at := c];
      TotalUpdate(policy, queue[..n], at, c, origin);
    }
  }

  lemma TotalOneMore(policy: Policy, queue: seq<Copy>, c: Copy, origin: nat)
    ensures Total(policy, queue + [c], origin) == Total(policy, queue, origin) + if c.origin == origin
        then Weight(policy, c) else 0
  {
    assert (queue + [c])[..|queue|] == queue;
  }

  /** No delivery is repeated by the broker. */
  predicate Settling(policy: Policy, b: Broker, a: Action) {
    a.Deliver? && a.at < |b.queue| ==>
      a.settles && Delivered(policy, b.queue[a.at].message, a.s, Stale(b, a)).settlement != Unsettled
  }

  predicate SettlingTrace(policy: Policy, b: Broker, actions: seq<Action>)
    requires Trace(policy, b, actions)
    decreases |actions|
  {
    actions == [] || (Settling(policy, b, actions[0])
        && SettlingTrace(policy, Next(policy, b, actions[0]), actions[1..]))
  }

  /** A delivery spends at least what the copy it publishes may use. */
  lemma DeliverySpends(policy: Policy, b: Broker, a: Action)
    requires Enabled(b, a) && a.Deliver? && Settling(policy, b, a)
    ensures var c := b.queue[a.at];
            var o := Delivered(policy, c.message, a.s, Stale(b, a));
            var settled := Settled(Served(c, o), o, a, |b.queue|);
            && settled.origin == c.origin
            && Weight(policy, settled) + (if o.published.Some? && Taken(a.s.attempt)
                 then Remaining(policy, o.published.value) else 0)
               <= Weight(policy, c)
  {
  }

  lemma DeliveryKeepsTotal(policy: Policy, b: Broker, a: Action, origin: nat)
    requires Enabled(b, a) && a.Deliver? && Settling(policy, b, a)
    ensures Total(policy, Next(policy, b, a).queue, origin) <= Total(policy, b.queue, origin)
  {
    hide Weight, Remaining, Delivered, Settled, Served, Total, NextReturned;
    DeliverySpends(policy, b, a);
    var c := b.queue[a.at];
    var o := Delivered(policy, c.message, a.s, Stale(b, a));
    var settled := Settled(Served(c, o), o, a, |b.queue|);
    TotalUpdate(policy, b.queue, a.at, settled, origin);
    if o.published.Some? && Taken(a.s.attempt) {
      var copy := Copy(o.published.value, Ready, c.origin, 0, false, None);
      TotalOneMore(policy, b.queue[a.at := settled], copy, origin);
      assert Weight(policy, copy) == Remaining(policy, o.published.value) by { WeightOfNew(policy, copy); }
    }
  }

  lemma WeightOfNew(policy: Policy, c: Copy)
    requires c.handled == 0 && c.place == Ready
    ensures Weight(policy, c) == Remaining(policy, c.message)
  {
  }

  /** Lines that are there already only shrink. */
  lemma {:induction false} TraceKeepsTotal(policy: Policy, b: Broker, actions: seq<Action>, origin: nat)
    requires Trace(policy, b, actions) && SettlingTrace(policy, b, actions) && origin < |b.queue|
    ensures origin < |After(policy, b, actions).queue|
    ensures Total(policy, After(policy, b, actions).queue, origin) <= Total(policy, b.queue, origin)
    decreases |actions|
  {
    hide Total, Weight, Delivered, Settled, Served, NextReturned;
    if actions != [] {
      var a := actions[0];
      if a.Send? {
        TotalOneMore(policy, b.queue, Copy(a.message, Ready, |b.queue|, 0, false, None), origin);
      } else if a.Deliver? {
        DeliveryKeepsTotal(policy, b, a, origin);
      }
      TraceKeepsTotal(policy, Next(policy, b, a), actions[1..], origin);
    }
  }

  lemma {:induction false} NoneYet(policy: Policy, queue: seq<Copy>, origin: nat)
    requires forall n :: 0 <= n < |queue| ==> queue[n].origin != origin
    ensures Total(policy, queue, origin) == 0
    decreases |queue|
  {
    if queue != [] {
      NoneYet(policy, queue[..|queue| - 1], origin);
    }
  }

  lemma NothingOk()
    ensures QueueOk(EMPTY.queue)
  {
  }

  /** A message just sent has its whole budget before it. */
  lemma SentTotal(policy: Policy, b: Broker, message: Message)
    requires QueueOk(b.queue)
    ensures var sent := Next(policy, b, Send(message));
            |sent.queue| == |b.queue| + 1 && Total(policy, sent.queue, |b.queue|) == Remaining(policy, message)
  {
    hide Total;
    forall n | 0 <= n < |b.queue| ensures b.queue[n].origin != |b.queue| {
      assert CopyOk(b.queue, n);
    }
    NoneYet(policy, b.queue, |b.queue|);
    TotalOneMore(policy, b.queue, Copy(message, Ready, |b.queue|, 0, false, None), |b.queue|);
  }

  /** The count that a message comes with: the application's before the broker's, 5 if
      it is negative or not a number, and 0 if there is none. */
  predicate ComesWith(headers: Headers, count: nat) {
    || Reads(headers.application, count)
    || (headers.application.None? && Reads(headers.broker, count))
    || (headers.application.None? && headers.broker.None? && count == 0)
  }

  predicate Reads(header: Option<HeaderValue>, count: nat) {
    || header in {Some(Int64(count)), Some(Int32(count))}
    || (count == 5
        && (header == Some(OtherValue) || (header.Some? && !header.value.OtherValue? && header.value.value < 0)))
  }

  /** Without redelivery a message is handled at most once for every attempt from
      the one it comes with up to the limit: RetryLimit + 1 times if it comes
      without a count. */
  lemma HandlingIsBounded(policy: Policy, before: seq<Action>, message: Message, after: seq<Action>, count: nat)
    requires ComesWith(message.headers, count)
    requires Trace(policy, EMPTY, before)
    requires var sent := Next(policy, After(policy, EMPTY, before), Send(message));
             Trace(policy, sent, after) && SettlingTrace(policy, sent, after)
    ensures var b := After(policy, EMPTY, before);
            var sent := Next(policy, b, Send(message));
            TimesHandled(After(policy, sent, after).queue, |b.queue|) <= RetriesLeft(policy, count) + 1
  {
    hide QueueOk, After, Trace, SettlingTrace, NextQueue, NextReturned, Total, TimesHandled;
    NothingOk();
    TraceOk(policy, EMPTY, before);
    var b := After(policy, EMPTY, before);
    var sent := Next(policy, b, Send(message));
    SentTotal(policy, b, message);
    TraceKeepsTotal(policy, sent, after, |b.queue|);
    HandledWithinTotal(policy, After(policy, sent, after).queue, |b.queue|);
  }

  /** Deliveries of one copy after the other, that fail and are handed on. */
  function FailingRun(from: nat, more: nat): seq<Action>
    decreases more
  {
    [Failing(from, GOOD)] + if more == 0 then [] else FailingRun(from + 1, more - 1)
  }

  /** From its n-th copy on, the last then, the message was handed on, and has died. */
  predicate UsedUp(queue: seq<Copy>, n: nat, more: nat, end: seq<Copy>) {
    && n <= |queue| && |end| == n + more + 1
    && end[..n] == queue[..n]
    && (forall i :: n <= i < n + more ==> end[i].place == Done && end[i].next == Some(i + 1))
    && end[n + more].place == Dead
  }

  function RetriesLeft(policy: Policy, count: nat): nat {
    if count <= policy.retryLimit then policy.retryLimit - count else 0
  }

  /** And it can come to that: a message whose handling always fails, and whose copies
      are all confirmed, is handed on until the limit, and its last copy dies. */
  lemma {:induction false} RetriesAreUsed(policy: Policy, b: Broker, count: nat)
    requires b.queue != [] && 0 !in b.returned
    requires var last := b.queue[|b.queue| - 1];
             last.place == Ready && WellFormed(last.message) && ComesWith(last.message.headers, count)
    ensures var run := FailingRun(|b.queue| - 1, RetriesLeft(policy, count));
            && Trace(policy, b, run)
            && UsedUp(b.queue, |b.queue| - 1, RetriesLeft(policy, count), After(policy, b, run).queue)
    decreases RetriesLeft(policy, count)
  {
    hide *;
    var n := |b.queue| - 1;
    var a := Failing(n, GOOD);
    FailingStep(policy, b, count);
    RunOfFailures(policy, n, count);
    var next := Next(policy, b, a);
    if policy.retryLimit <= count {
      NothingMore(policy, next);
      RunOpens(policy, b, a, []);
      DiesAtOnce(b.queue, n, next.queue);
    } else {
      RetriesAreUsed(policy, next, count + 1);
      var rest := FailingRun(n + 1, RetriesLeft(policy, count + 1));
      RunOpens(policy, b, a, rest);
      HandedOnOnce(b.queue, next.queue, n, RetriesLeft(policy, count + 1), After(policy, next, rest).queue);
    }
  }

  lemma RunOfFailures(policy: Policy, n: nat, count: nat)
    ensures var left := RetriesLeft(policy, count);
            if policy.retryLimit <= count then left == 0 && FailingRun(n, left) == [Failing(n, GOOD)] + []
            else
              && left == RetriesLeft(policy, count + 1) + 1
              && FailingRun(n, left) == [Failing(n, GOOD)] + FailingRun(n + 1, RetriesLeft(policy, count + 1))
  {
  }

  lemma DiesAtOnce(queue: seq<Copy>, n: nat, end: seq<Copy>)
    requires n <= |queue| && |end| == n + 1 && end[..n] == queue[..n] && end[n].place == Dead
    ensures UsedUp(queue, n, 0, end)
  {
  }

  lemma HandedOnOnce(queue: seq<Copy>, next: seq<Copy>, n: nat, more: nat, end: seq<Copy>)
    requires n <= |queue| && n < |next| && next[..n] == queue[..n]
    requires next[n].place == Done && next[n].next == Some(n + 1)
    requires UsedUp(next, n + 1, more, end)
    ensures UsedUp(queue, n, more + 1, end)
  {
    assert end[n] == end[..n + 1][n] == next[..n + 1][n];
    assert end[..n] == end[..n + 1][..n] == next[..n + 1][..n];
  }

  lemma NothingMore(policy: Policy, b: Broker)
    ensures Trace(policy, b, []) && After(policy, b, []) == b
  {
  }

  lemma FailingStep(policy: Policy, b: Broker, count: nat)
    requires b.queue != [] && 0 !in b.returned
    requires var last := b.queue[|b.queue| - 1];
             last.place == Ready && WellFormed(last.message) && ComesWith(last.message.headers, count)
    ensures var n := |b.queue| - 1;
            Enabled(b, Failing(n, GOOD))
    ensures var n := |b.queue| - 1;
            var next := Next(policy, b, Failing(n, GOOD));
            && 0 !in next.returned && |next.queue| > n && next.queue[..n] == b.queue[..n]
            && if policy.retryLimit <= count then |next.queue| == n + 1 && next.queue[n].place == Dead
               else
                 && |next.queue| == n + 2 && next.queue[n].place == Done && next.queue[n].next == Some(n + 1)
                 && next.queue[n + 1].place == Ready && WellFormed(next.queue[n + 1].message)
                 && ComesWith(next.queue[n + 1].message.headers, count + 1)
  {
    CountsAre(b.queue[|b.queue| - 1].message.headers, count);
    hide ComesWith, DeliveryAttempt;
    ComesWithOwn(count + 1);
  }

  lemma CountsAre(headers: Headers, count: nat)
    requires ComesWith(headers, count)
    ensures DeliveryAttempt(headers) == count
  {
  }

  lemma ComesWithOwn(count: nat)
    ensures ComesWith(Headers(Some(Int64(count)), None, {}), count)
  {
  }

  // ---------------------------------------------------------------------
  // A copy beside its dead original

  /** A delivery gives up its message although the broker has the copy exactly when
      the copy was routed, and the confirmation was late or another's return waited. */
  lemma DeadBesideCopy(policy: Policy, m: Message, s: Surrounding, stale: bool)
    requires Delivered(policy, m, s, stale).published.Some?
    ensures Delivered(policy, m, s, stale).settlement != Acked && Taken(s.attempt)
            <==>
            s.attempt.sent && s.attempt.routed
            && (s.attempt.confirm == Expired || (s.attempt.confirm == Acknowledged && stale))
  {
  }

  const LOST: Attempt := Attempt(true, false, Expired)
  const GOOD: Attempt := Attempt(true, true, Acknowledged)

  function Failing(at: nat, a: Attempt): Action {
    Deliver(at, 0, Surrounding(OtherFailure, false, false, a), true, None)
  }

  /** Two messages on one connection whose handling fails: the first one's copy is
      not routed, and its return comes late; the second one's copy is routed and
      confirmed. */
  function LateReturnRun(first: Message, second: Message): seq<Action> {
    [Send(first), Send(second), Failing(0, LOST), Failing(1, GOOD)]
  }

  predicate Retries(policy: Policy, m: Message) {
    WellFormed(m) && DeliveryAttempt(m.headers) < policy.retryLimit
  }

  /** It ends with the second original dead and its copy waiting. */
  lemma LateReturnMisleads(policy: Policy, first: Message, second: Message)
    requires Retries(policy, first) && Retries(policy, second)
    ensures Trace(policy, EMPTY, LateReturnRun(first, second))
    ensures var queue := After(policy, EMPTY, LateReturnRun(first, second)).queue;
            && |queue| == 3
            && queue[1].message == second && queue[1].place == Dead && queue[1].next == Some(2)
            && queue[2].place == Ready && queue[2].origin == 1
            && queue[2].message == RetryMessage(second, DeliveryAttempt(second.headers) + 1)
  {
    hide WellFormed, DeliveryAttempt;
    var run := LateReturnRun(first, second);
    var b1 := Next(policy, EMPTY, run[0]);
    var b2 := Next(policy, b1, run[1]);
    assert b2 == Broker([Copy(first, Ready, 0, 0, false, None), Copy(second, Ready, 1, 0, false, None)], {});
    var b3 := Next(policy, b2, run[2]);
    assert b3 == Broker([Copy(first, Dead, 0, 1, false, None), Copy(second, Ready, 1, 0, false, None)], {0});
    var b4 := Next(policy, b3, run[3]);
    RunOpens(policy, b3, run[3], []);
    RunOpens(policy, b2, run[2], [run[3]] + []);
    RunOpens(policy, b1, run[1], [run[2]] + ([run[3]] + []));
    RunOpens(policy, EMPTY, run[0], [run[1]] + ([run[2]] + ([run[3]] + [])));
    assert run == [run[0]] + ([run[1]] + ([run[2]] + ([run[3]] + [])));
  }

  lemma RunOpens(policy: Policy, b: Broker, a: Action, rest: seq<Action>)
    requires Enabled(b, a) && Trace(policy, Next(policy, b, a), rest)
    ensures Trace(policy, b, [a] + rest) && After(policy, b, [a] + rest) == After(policy, Next(policy, b, a), rest)
  {
    assert ([a] + rest)[1..] == rest;
  }
}
