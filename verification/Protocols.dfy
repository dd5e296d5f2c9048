/** The protocol layer over a context: Req0, Rep0 and Respondent0 sessions, and the survey stream. */
module Protocols {
  import opened Options
  import opened Endpoints
  import opened Contexts
  import EndpointRuns
  import Errors

  /** The context is between calls and accounts for everything NNG accepted for it. */
  ghost predicate AtRest(c: ContextfulSocket)
    reads c
  {
    && c.Valid() && c.State().pc == Resting && EndpointRuns.Idle(c.State())
    && c.State().accepted == c.State().delivered + AsSeq(c.recovered) + c.queue
  }

  lemma RestingIsAtRest(c: ContextfulSocket)
    requires c.Valid() && c.State().pc == Resting
    ensures AtRest(c)
  {
    c.RestingState();
  }

  // `kept`: the program does not drop the future.

  // ----- Req0 -----

  /** `request` up to the reply future: the send; the future is `RecvMsg` on the same context. */
  method Request(c: ContextfulSocket, m: Msg, kept: bool) returns (r: Sent)
    requires AtRest(c)
    modifies c
    ensures kept ==> !r.SendDropped?
    ensures AtRest(c) && c.State().delivered == old(c.State().delivered)
    ensures c.recovered == old(c.recovered)  // a stashed reply to an earlier request stays
    ensures old(c.run) + [CallSend(m), StartSend] <= c.run
    ensures match r
            case Accepted => EndsWith(c.run, Return) && c.State().result == 0
            case NotSent(e, back) => c.State().result == e != 0 && back == m
            case SendDropped => EndsWith(c.run, CancelTable)
  {
    r := c.SendMsg(m, kept);
    RestingIsAtRest(c);
  }

  // ----- Rep0 and Respondent0 -----

  datatype ReplyEnd = Replied | Retry(responder: Responder, errno: nat, m: Msg) | ReplyDropped

  class Responder {
    const contextful: ContextfulSocket
    var sent: bool

    constructor (c: ContextfulSocket)
      ensures contextful == c && !sent
    {
      contextful := c;
      sent := false;
    }

    /** `reply`: on failure the caller gets this responder and the same message back. */
    method Reply(m: Msg, kept: bool) returns (r: ReplyEnd)
      requires AtRest(contextful)
      modifies this, contextful
      ensures kept ==> !r.ReplyDropped?
      ensures AtRest(contextful) && contextful.State().delivered == old(contextful.State().delivered)
      ensures sent
      ensures old(contextful.run) + [CallSend(m), StartSend] <= contextful.run
      ensures match r
              case Replied => EndsWith(contextful.run, Return) && contextful.State().result == 0
              case Retry(responder, e, back) => responder == this && back == m && contextful.State().result == e != 0
              case ReplyDropped => EndsWith(contextful.run, CancelTable)
    {
      sent := true;
      var s := contextful.SendMsg(m, kept);
      RestingIsAtRest(contextful);
      match s {
        case Accepted => r := Replied;
        case NotSent(e, back) => r := Retry(this, e, back);
        case SendDropped => r := ReplyDropped;
      }
    }
  }

  datatype Incoming = Asked(m: Msg, responder: Responder) | NoRequest(errno: nat) | ReceiveCancelled

  /** `receive` and `next_survey`: a message comes with a fresh responder for the same context. */
  method Receive(c: ContextfulSocket, kept: bool) returns (r: Incoming)
    requires AtRest(c)
    modifies c
    ensures kept ==> !r.ReceiveCancelled?
    ensures AtRest(c) && old(c.run) + [CallRecv] <= c.run
    ensures r.Asked? ==> fresh(r.responder) && r.responder.contextful == c && !r.responder.sent
    ensures c.State().delivered == old(c.State().delivered) + (if r.Asked? then [r.m] else [])
    ensures old(c.recovered).None? ==>
              match r
              case Asked(_, _) => EndsWith(c.run, Return) && c.State().result == 0
              case NoRequest(e) => EndsWith(c.run, Return) && c.State().result == e != 0
              case ReceiveCancelled => EndsWith(c.run, OuterGuard)
    ensures old(c.recovered).Some? ==> r.Asked? && r.m == old(c.recovered).value && c.run == old(c.run) + [CallRecv]
  {
    var got := c.RecvMsg(kept);
    RestingIsAtRest(c);
    match got {
      case Got(m) =>
        var responder := new Responder(c);
        r := Asked(m, responder);
      case Failed(e) => r := NoRequest(e);
      case ReceiveDropped => r := ReceiveCancelled;
    }
  }

  datatype TryIncoming =
    | AskedNow(m: Msg, responder: Responder) | NothingNow | TryError(errno: nat) | TryPanic(errno: nat)

  /** `try_receive`: a queued or stashed request with a fresh responder, without waiting. */
  method TryReceive(c: ContextfulSocket) returns (r: TryIncoming)
    requires AtRest(c)
    modifies c
    ensures c.Valid() && (r.TryPanic? <==> c.State().pc == Panicked)
    ensures !r.TryPanic? ==> AtRest(c)
    ensures c.State().delivered == old(c.State().delivered) + (if r.AskedNow? then [r.m] else [])
    ensures r.AskedNow? ==> fresh(r.responder) && r.responder.contextful == c && !r.responder.sent
    ensures r == NothingNow <==> c.run == old(c.run) + [CallTryRecv(8)]
    ensures r.TryError? ==>
              (r.errno == 5 || r.errno == 9 || r.errno == 11) && c.run == old(c.run) + [CallTryRecv(r.errno)]
    ensures old(c.recovered).Some? ==> r.AskedNow? && r.m == old(c.recovered).value
  {
    var got := c.TryRecvMsg();
    match got {
      case TryGot(m) =>
        var responder := new Responder(c);
        r := AskedNow(m, responder);
      case WouldBlock => r := NothingNow;
      case TryFailed(e) => r := TryError(e);
      case TryPanicked(e) => r := TryPanic(e);
    }
  }

  // ----- Surveyor0 -----

  /** `SurveyResponses::next`; None when the future was dropped. `kindOf` is the table of OS error kinds. */
  method Next(c: ContextfulSocket, kindOf: nat -> Errors.OsKind, kept: bool) returns (r: Option<Errors.StreamItem>)
    requires AtRest(c)
    modifies c
    ensures kept ==> r.Some?
    ensures AtRest(c)
    ensures r == Some(Errors.Item) <==> |c.State().delivered| == |old(c.State().delivered)| + 1
    ensures r != Some(Errors.Item) ==> c.State().delivered == old(c.State().delivered)
    ensures AtRest(c) && old(c.run) + [CallRecv] <= c.run
    ensures r == Some(Errors.End) ==>
              c.State().result == Errors.Number(Errors.ETIMEDOUT) || c.State().result == Errors.Number(Errors.ESTATE)
    ensures r != Some(Errors.NotYet)
    ensures old(c.recovered).None? ==>
              match r
              case None => EndsWith(c.run, OuterGuard)
              case Some(item) =>
                && EndsWith(c.run, Return)
                && (item == Errors.Item <==> c.State().result == 0)
                && (c.State().result > 0 ==>
                      item == Errors.NextOnError(Errors.WaitError(kindOf, c.State().result)))
    ensures old(c.recovered).Some? ==>
              r == Some(Errors.Item) && c.State().delivered == old(c.State().delivered + [c.recovered.value])
  {
    var got := c.RecvMsg(kept);
    RestingIsAtRest(c);
    match got {
      case Got(_) => r := Some(Errors.Item);
      case Failed(e) =>
        Errors.StreamEnds(kindOf, e);
        r := Some(Errors.NextOnError(Errors.WaitError(kindOf, e)));
      case ReceiveDropped => r := None;
    }
  }

  /** `try_next`; None stands for a panic of `try_recv_msg`. */
  method TryNext(c: ContextfulSocket, kindOf: nat -> Errors.OsKind) returns (r: Option<Errors.StreamItem>)
    requires AtRest(c)
    modifies c
    ensures c.Valid() && (r == None <==> c.State().pc == Panicked)
    ensures r.Some? ==> AtRest(c)
    ensures r == Some(Errors.Item) <==> |c.State().delivered| == |old(c.State().delivered)| + 1
    ensures r != Some(Errors.Item) ==> c.State().delivered == old(c.State().delivered)
    ensures r == Some(Errors.NotYet) <==> c.run == old(c.run) + [CallTryRecv(8)]
    ensures r == Some(Errors.End) <==> c.run == old(c.run) + [CallTryRecv(11)]
    ensures r.Some? && r.value.Trouble? ==>
              || (c.run == old(c.run) + [CallTryRecv(5)] && r.value.error == Errors.WaitError(kindOf, 5))
              || (c.run == old(c.run) + [CallTryRecv(9)] && r.value.error == Errors.WaitError(kindOf, 9))
    ensures old(c.recovered).Some? ==>
              r == Some(Errors.Item) && c.State().delivered == old(c.State().delivered + [c.recovered.value])
  {
    var got := c.TryRecvMsg();
    r := TryNextOf(got);
    ghost var e := ResultOf(got);
    assert c.run[|c.run| - 1] == CallTryRecv(e);
    Errors.TryRecvHandles(e);
    Errors.TryRecvAgreesWithWait(kindOf, e);
    if Handled(e) { Errors.TryNextAnswers(e); }
  }

  /** The match of `try_next` on what `try_recv_msg` returned. */
  function TryNextOf(got: Tried): Option<Errors.StreamItem> {
    match got
    case TryGot(_) => Some(Errors.TryNextOn(Errors.Message))
    case WouldBlock => Some(Errors.TryNextOn(Errors.WouldBlock))
    case TryFailed(e) =>
      var outcome := Errors.TryRecvOutcome(e);
      if outcome.Panics? then None else Some(Errors.TryNextOn(outcome))
    case TryPanicked(_) => None
  }
}
