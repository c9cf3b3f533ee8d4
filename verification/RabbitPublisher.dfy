/**
 Confirmed publication over one channel, and its replacement after every failure
 (services/catalog-service/outbox/rabbit_publisher.go).
 */
module RabbitPublisher {

  /** One publication and what the broker makes of it. A message that no queue takes
      is returned only if it is mandatory; otherwise it is dropped, and acknowledged. */
  datatype Publication = Publication(mandatory: bool, routed: bool, acked: bool)

  /** What a caller takes a success for. */
  predicate Delivered(p: Publication) {
    p.acked && (p.mandatory ==> p.routed)
  }

  /** What arrives on a channel's two notification channels. */
  datatype Notice = Returned | Confirmation(tag: nat, ack: bool) | ReturnsClosed | ConfirmationsClosed

  predicate ForReturns(n: Notice) {
    n.Returned? || n.ReturnsClosed?
  }

  predicate Closing(n: Notice) {
    n.ReturnsClosed? || n.ConfirmationsClosed?
  }

  predicate Closings(notices: seq<Notice>) {
    forall i :: 0 <= i < |notices| ==> Closing(notices[i])
  }

  /** The broker's notices of one publication: the return before the confirmation. */
  function Emitted(p: Publication, tag: nat): seq<Notice> {
    (if p.mandatory && !p.routed then [Returned] else []) + [Confirmation(tag, p.acked)]
  }

  /** What has arrived so far: the first k notices, and perhaps the end of the channels. */
  predicate Heard(notices: seq<Notice>, p: Publication, tag: nat, k: nat) {
    && k <= |notices| && k <= |Emitted(p, tag)|
    && notices[..k] == Emitted(p, tag)[..k] && Closings(notices[k..])
  }

  function FirstReturn(notices: seq<Notice>): (n: seq<Notice>)
    ensures |n| <= 1
    ensures n != [] ==> n[0] in notices && ForReturns(n[0])
    ensures n == [] ==> forall i :: 0 <= i < |notices| ==> !ForReturns(notices[i])
  {
    if notices == [] then []
    else if ForReturns(notices[0]) then [notices[0]]
    else FirstReturn(notices[1..])
  }

  function FirstConfirmation(notices: seq<Notice>): (n: seq<Notice>)
    ensures |n| <= 1
    ensures n != [] ==> n[0] in notices && !ForReturns(n[0])
  {
    if notices == [] then []
    else if !ForReturns(notices[0]) then [notices[0]]
    else FirstConfirmation(notices[1..])
  }

  lemma {:induction false} FirstOfMore(a: seq<Notice>, b: seq<Notice>)
    ensures FirstConfirmation(a) != [] ==> FirstConfirmation(a + b) == FirstConfirmation(a)
    ensures FirstReturn(a) != [] ==> FirstReturn(a + b) == FirstReturn(a)
    decreases |a|
  {
    if a != [] {
      FirstOfMore(a[1..], b);
      assert (a + b)[1..] == a[1..] + b;
    }
  }

  lemma HeardAt(notices: seq<Notice>, p: Publication, tag: nat, k: nat, i: nat)
    requires Heard(notices, p, tag, k) && i < |notices|
    ensures if i < k then notices[i] == Emitted(p, tag)[i] else Closing(notices[i])
  {
    if i < k {
      assert notices[..k][i] == notices[i];
    } else {
      assert notices[k..][i - k] == notices[i];
    }
  }

  /** A confirmation that was heard is the broker's, and was not overtaken by a return. */
  lemma HeardConfirmation(notices: seq<Notice>, p: Publication, tag: nat, k: nat)
    requires Heard(notices, p, tag, k)
    ensures var first := FirstConfirmation(notices);
            first != [] && first[0].Confirmation? ==>
              && first[0] == Confirmation(tag, p.acked) && k == |Emitted(p, tag)|
              && (FirstReturn(notices) == [] ==> (p.mandatory ==> p.routed))
  {
    var first := FirstConfirmation(notices);
    if first != [] && first[0].Confirmation? {
      var i :| 0 <= i < |notices| && notices[i] == first[0];
      HeardAt(notices, p, tag, k, i);
      HeardAt(notices, p, tag, k, 0);
    }
  }

  /** A return that was heard is that of this publication. */
  lemma HeardReturn(notices: seq<Notice>, p: Publication, tag: nat, k: nat)
    requires Heard(notices, p, tag, k)
    ensures FirstReturn(notices) == [Returned] ==> p.mandatory && !p.routed
  {
    if FirstReturn(notices) == [Returned] {
      assert FirstReturn(notices)[0] in notices;
      var i :| 0 <= i < |notices| && notices[i] == Returned;
      HeardAt(notices, p, tag, k, i);
    }
  }

  /** How an attempt to publish ended. Broken: the deadline came first, or the
      message was not sent, or the channel or connection failed. */
  datatype Result = Success | Refusal | Broken

  /** A channel in confirm mode. `unread` holds both notification channels in
      arrival order, and `coming` what the broker has sent and has not arrived:
      each side reads its own first notice. */
  class RabbitPublisher {
    var unread: seq<Notice>
    var coming: seq<Notice>
    var nextTag: nat

    /** Between publications nothing is left but perhaps the end of the channels. */
    predicate Idle()
      reads this
    {
      coming == [] && Closings(unread)
    }

    constructor ()
      ensures Idle() && unread == [] && nextTag == 1
    {
      unread, coming, nextTag := [], [], 1;
    }

    ghost predicate Waits(p: Publication, tag: nat, k: nat)
      reads this
    {
      Heard(unread, p, tag, k) && (coming == [] || (coming == Emitted(p, tag)[k..] && k == |unread|))
    }

    /** The connection has ended. */
    predicate Ended()
      reads this
    {
      exists i :: 0 <= i < |unread| && Closing(unread[i])
    }

    method Arrive(n: nat, ghost p: Publication, ghost tag: nat, ghost k: nat) returns (ghost k': nat)
      requires Waits(p, tag, k) && 0 < n <= |coming|
      modifies this`unread, this`coming
      ensures Waits(p, tag, k') && old(unread) <= unread
    {
      hide Emitted;
      assert unread + coming[..n] == Emitted(p, tag)[..k + n];
      k' := k + n;
      unread, coming := unread + coming[..n], coming[n..];
      assert unread[k'..] == [];
    }

    method End(closing: seq<Notice>, ghost p: Publication, ghost tag: nat, ghost k: nat)
      requires Waits(p, tag, k) && Closings(closing)
      modifies this`unread, this`coming
      ensures Waits(p, tag, k) && old(unread) <= unread
    {
      hide Emitted;
      assert (unread + closing)[..k] == unread[..k];
      assert (unread + closing)[k..] == unread[k..] + closing;
      unread, coming := unread + closing, [];
    }

    /** More may arrive whenever the publisher waits, and the connection may end. */
    method Dispatch(ghost p: Publication, ghost tag: nat, ghost k: nat) returns (ghost k': nat)
      requires Waits(p, tag, k)
      modifies this`unread, this`coming
      ensures Waits(p, tag, k') && old(unread) <= unread
    {
      k' := k;
      var n: nat := *;
      if 0 < n <= |coming| {
        k' := Arrive(n, p, tag, k);
      }
      var ends, returnsFirst := *, *;
      if ends {
        End(if returnsFirst then [ReturnsClosed, ConfirmationsClosed]
            else [ConfirmationsClosed, ReturnsClosed], p, tag, k');
      }
    }

    /** The first of the notices for returns, if there is any. */
    method DrainReturn() returns (returned: bool, open: bool)
      ensures returned == (FirstReturn(unread) == [Returned])
      ensures open == (FirstReturn(unread) != [ReturnsClosed])
    {
      for i := 0 to |unread|
        invariant FirstReturn(unread[i..]) == FirstReturn(unread)
      {
        assert unread[i..][1..] == unread[i + 1..];
        if unread[i].Returned? {
          return true, true;
        }
        if unread[i].ReturnsClosed? {
          return false, false;
        }
      }
      return false, true;
    }

    /** Success means acknowledged, and routed if mandatory; refusal means not so;
        and only the deadline or the end of the connection leaves it open. */
    method AwaitRoutedConfirmation(tag: nat, ghost p: Publication) returns (result: Result, expired: bool)
      requires Waits(p, tag, 0)
      modifies this`unread, this`coming
      ensures result == Success ==> Delivered(p) && Idle()
      ensures result == Refusal ==> !Delivered(p)
      ensures result == Broken ==> expired || Ended()
    {
      hide Heard, Emitted, FirstReturn, FirstConfirmation;
      expired := false;
      ghost var k := Dispatch(p, tag, 0);
      HeardReturn(unread, p, tag, k);
      var returned, open := DrainReturn();
      if !open {
        return Broken, false;
      }
      if returned {
        return Refusal, false;
      }
      k := Dispatch(p, tag, k);
      HeardReturn(unread, p, tag, k);
      HeardConfirmation(unread, p, tag, k);
      returned, open := DrainReturn();
      var confirmation := FirstConfirmation(unread);
      var takesReturn := *;
      expired := *;
      if expired || (confirmation == [] && !returned && open) {
        return Broken, true;
      }
      if (returned || !open) && (takesReturn || confirmation == []) {
        return if open then Refusal else Broken, false;
      }
      var first := confirmation[0];
      if first.ConfirmationsClosed? {
        return Broken, false;
      }
      if first.tag != tag || !first.ack {
        return Refusal, false;
      }
      ghost var before := unread;
      k := Dispatch(p, tag, k);
      assert unread == before + unread[|before|..];
      FirstOfMore(before, unread[|before|..]);
      HeardReturn(unread, p, tag, k);
      HeardConfirmation(unread, p, tag, k);
      returned, open := DrainReturn();
      if !open {
        return Broken, false;
      }
      if returned {
        return Refusal, false;
      }
      OneConfirmation(unread, p, tag, k);
      unread := unread[1..];
      return Success, false;
    }

    /** `excused`: the message was not sent, or the deadline came first. */
    method PublishWithContext(p: Publication) returns (result: Result, excused: bool)
      requires Idle()
      modifies this
      ensures result == Success ==> Delivered(p) && Idle()
      ensures result == Refusal ==> !Delivered(p)
      ensures result == Broken ==> excused || Ended()
    {
      var tag := nextTag;
      nextTag := nextTag + 1;
      var sent := *;
      if !sent {
        return Broken, true;
      }
      if unread == [] {
        coming := Emitted(p, tag);
      }
      result, excused := AwaitRoutedConfirmation(tag, p);
    }
  }

  /** Without a return, the confirmation comes first and closings follow. */
  lemma OneConfirmation(notices: seq<Notice>, p: Publication, tag: nat, k: nat)
    requires Heard(notices, p, tag, k) && k == |Emitted(p, tag)| && FirstReturn(notices) == []
    ensures notices != [] && Closings(notices[1..]) && k == 1
  {
    HeardAt(notices, p, tag, k, 0);
  }

  /** Keeps one channel until something fails. */
  class ReconnectingPublisher {
    var publisher: RabbitPublisher?

    predicate Valid()
      reads this, publisher
    {
      publisher != null ==> publisher.Idle()
    }

    constructor ()
      ensures Valid() && publisher == null
    {
      publisher := null;
    }

    /** Any failure discards the channel, so that no later message can be confirmed
        or refused by an old notice. */
    method PublishWithContext(p: Publication) returns (result: Result)
      requires Valid()
      modifies this, publisher
      ensures Valid()
      ensures result == Success ==> Delivered(p) && publisher != null
      ensures result == Refusal ==> !Delivered(p)
      ensures result != Success ==> publisher == null
      ensures publisher == null || publisher == old(publisher) || fresh(publisher)
    {
      if publisher == null {
        var dialed := *;
        if !dialed {
          return Broken;
        }
        publisher := new RabbitPublisher();
      }
      var excused;
      result, excused := publisher.PublishWithContext(p);
      if result != Success {
        publisher := null;
      }
    }
  }
}
