/**
 * Rep0 and Respondent0 contexts: the answering side of a session, over the endpoint machine.
 *
 * NNG's part of the contract: handing out a request makes it the one a reply is routed to, and an
 * accepted reply uses it up. The API's part: a reply needs a responder, a receive drops the previous
 * one, and a failed reply gives it back for a retry.
 */
module Repliers {
  import opened Options
  import opened Endpoints

  /** NNG accepted `reply` and routed it to request `to`, if it had one; the responder used was that of `meant`. */
  datatype Route = Route(reply: Msg, to: Option<Msg>, meant: Option<Msg>)

  datatype Replier = Replier(
    ep: Endpoint, seen: set<Msg>,
    pending: Option<Msg>,     // the request NNG would route a reply to
    responder: Option<Msg>,   // the request whose responder the user holds
    replyingTo: Option<Msg>,  // the request whose responder a running reply() consumed
    routed: seq<Route>)

  const NewReplier: Replier := Replier(Fresh, {}, None, None, None, [])

  predicate Accepts(s: Replier, l: Label) {
    l.Complete? && l.errno == 0 && s.ep.phase == Pending(Sending)
  }

  /** NNG hands the head of its queue to this endpoint. */
  predicate Pops(s: Replier, l: Label) {
    || (l.Complete? && l.errno == 0 && s.ep.phase == Pending(Receiving))
    || (l.CallTryRecv? && l.errno == 0 && s.ep.stash.None?)
  }

  predicate Allowed(s: Replier, l: Label) {
    && Enabled(s.ep, l)
    && match l
       case CallSend(_) => s.responder.Some?
       case Arrive(m) => m !in s.seen
       case _ => true
  }

  function Serve(s: Replier, l: Label): Replier
    requires Allowed(s, l)
  {
    var t := s.(ep := Apply(s.ep, l), pending := if Pops(s, l) then Some(s.ep.queue[0]) else s.pending);
    match l
    case Arrive(m) => t.(seen := s.seen + {m})
    case CallSend(_) => t.(replyingTo := s.responder, responder := None)
    case CallRecv => t.(responder := Delivers(s.ep, l))
    case CallTryRecv(_) => t.(responder := Delivers(s.ep, l))
    case Return =>
      if s.ep.pc == Settled(Receiving) then t.(responder := Delivers(s.ep, l))
      else t.(responder := if s.ep.result == 0 then None else s.replyingTo, replyingTo := None)
    case CancelTable => if s.ep.pc == Deciding(Sending) then t.(replyingTo := None) else t
    case Complete(_, _, _) =>
      if Accepts(s, l)
      then t.(pending := None, routed := s.routed + [Route(s.ep.slot.value, s.pending, s.replyingTo)])
      else t
    case _ => t
  }

  function Session(ls: seq<Label>): Option<Replier> {
    if ls == [] then Some(NewReplier)
    else
      match Session(ls[..|ls| - 1])
      case None => None
      case Some(t) => if Allowed(t, ls[|ls| - 1]) then Some(Serve(t, ls[|ls| - 1])) else None
  }

  predicate Distinct(q: seq<Msg>) {
    forall i, j | 0 <= i < j < |q| :: q[i] != q[j]
  }

  /** The requests NNG has handed out: delivered, stashed, or in the AIO of a running receive. */
  function HandedOut(e: Endpoint): seq<Msg> {
    e.delivered + AsSeq(e.stash) + Carried(e)
  }

  /** Nothing arrives twice. */
  predicate ArrivalInv(s: Replier) {
    Distinct(s.ep.accepted) && (forall i | 0 <= i < |s.ep.accepted| :: s.ep.accepted[i] in s.seen)
  }

  /** Every request that somebody on this side has, and has not answered, is the one NNG routes to. */
  predicate TurnInv(s: Replier) {
    && (s.responder.Some? ==> Op(s.ep) == None && s.responder == s.pending && s.responder.value in s.ep.delivered)
    && (s.replyingTo.Some? <==> Op(s.ep) == Some(Sending))
    && (s.replyingTo.Some? ==> s.replyingTo.value in s.ep.delivered)
    && (s.replyingTo.Some? && s.ep.owns.Some? ==> s.replyingTo == s.pending)
    && (s.ep.stash.Some? ==> s.ep.stash == s.pending && s.responder == None && s.replyingTo == None)
    && (Carried(s.ep) != [] ==> s.ep.owns == s.pending)
    && (s.pending.Some? ==> s.pending.value in HandedOut(s.ep))
  }

  /** The route went to a request that the user was given, and to the one the responder stood for. */
  predicate GoodRoute(s: Replier, r: Route) {
    r.to.Some? && r.to == r.meant && r.to.value in s.ep.delivered
  }

  predicate RouteInv(s: Replier) {
    && (forall i | 0 <= i < |s.routed| :: GoodRoute(s, s.routed[i]) && s.routed[i].to != s.pending)
    && (forall i, j | 0 <= i < j < |s.routed| :: s.routed[i].to != s.routed[j].to)
  }

  predicate ReplierInv(s: Replier) {
    Inv(s.ep) && (s.ep.pc != Gone ==> ArrivalInv(s) && TurnInv(s)) && RouteInv(s)
  }

  lemma KeepsArrivals(s: Replier, l: Label)
    requires ReplierInv(s) && Allowed(s, l) && l != Close
    ensures ArrivalInv(Serve(s, l))
  {
    StepAccepted(s.ep, l);
    ArrivalsMove(s, l);
  }

  lemma ArrivalsMove(s: Replier, l: Label)
    requires Allowed(s, l) && |s.ep.queue| <= |s.ep.accepted| && ArrivalInv(s)
    ensures ArrivalInv(Serve(s, l))
  {
    LogMoves(s.ep, l);
    var was, now := s.ep.accepted, Serve(s, l).ep.accepted;
    assert now == (if l.Arrive? then was + [l.m] else was[..|now|]);
  }

  lemma NngKeepsTurns(s: Replier, l: Label)
    requires ReplierInv(s) && Allowed(s, l) && IsNng(l)
    ensures TurnInv(Serve(s, l))
  {
    StepMoves(s.ep, l);
  }

  /** Steps that hand a message or a responder to the caller. */
  predicate HandsOver(l: Label) {
    l.CallRecv? || l.CallTryRecv? || l.Return?
  }

  lemma HandOverKeepsTurns(s: Replier, l: Label)
    requires ReplierInv(s) && Allowed(s, l) && HandsOver(l)
    ensures TurnInv(Serve(s, l))
  {
    StepMoves(s.ep, l);
    StepDelivered(s.ep, l);
  }

  lemma SlotKeepsTurns(s: Replier, l: Label)
    requires ReplierInv(s) && Allowed(s, l) && (l.CallSend? || l == CancelTable || l == OuterGuard)
    ensures TurnInv(Serve(s, l))
  {
    StepMoves(s.ep, l);
  }

  lemma FutureKeepsTurns(s: Replier, l: Label)
    requires ReplierInv(s) && Allowed(s, l) && !IsNng(l) && !HandsOver(l) && l != Close
    ensures TurnInv(Serve(s, l))
  {
    if l.CallSend? || l == CancelTable || l == OuterGuard {
      SlotKeepsTurns(s, l);
    } else {
      StepMoves(s.ep, l);
    }
  }

  /** The head of NNG's queue has not been handed out before, so it has not been answered. */
  lemma HeadIsNew(s: Replier, r: Route)
    requires ReplierInv(s) && s.ep.pc != Gone && s.ep.queue != [] && GoodRoute(s, r)
    ensures r.to != Some(s.ep.queue[0])
  {
    var j :| 0 <= j < |s.ep.delivered| && s.ep.delivered[j] == r.to.value;
    var k := |s.ep.accepted| - |s.ep.queue|;
    assert s.ep.accepted[j] == s.ep.delivered[j] && s.ep.accepted[k] == s.ep.queue[0];
  }

  lemma AcceptKeepsRoutes(s: Replier, l: Label)
    requires ReplierInv(s) && Allowed(s, l) && Accepts(s, l)
    ensures RouteInv(Serve(s, l))
  {
    var t := Serve(s, l);
    assert s.replyingTo == s.pending && t.ep.delivered == s.ep.delivered;
    forall i | 0 <= i < |s.routed|
      ensures GoodRoute(t, s.routed[i])
    {
      assert GoodRoute(s, s.routed[i]);
    }
  }

  lemma OtherKeepsRoutes(s: Replier, l: Label)
    requires ReplierInv(s) && Allowed(s, l) && !Accepts(s, l)
    ensures RouteInv(Serve(s, l))
  {
    StepDelivered(s.ep, l);
    var t := Serve(s, l);
    assert t.routed == s.routed;
    forall i | 0 <= i < |s.routed|
      ensures GoodRoute(t, s.routed[i]) && s.routed[i].to != t.pending
    {
      assert GoodRoute(s, s.routed[i]);
      if Pops(s, l) { HeadIsNew(s, s.routed[i]); }
    }
  }

  lemma ServeKeeps(s: Replier, l: Label)
    requires ReplierInv(s) && Allowed(s, l)
    ensures ReplierInv(Serve(s, l))
  {
    StepInv(s.ep, l);
    if Accepts(s, l) { AcceptKeepsRoutes(s, l); } else { OtherKeepsRoutes(s, l); }
    if l != Close {
      KeepsArrivals(s, l);
      if IsNng(l) { NngKeepsTurns(s, l); }
      else if HandsOver(l) { HandOverKeepsTurns(s, l); }
      else { FutureKeepsTurns(s, l); }
    }
  }

  lemma {:induction false} SessionKeeps(ls: seq<Label>)
    requires Session(ls).Some?
    ensures ReplierInv(Session(ls).value)
  {
    if ls != [] {
      SessionKeeps(ls[..|ls| - 1]);
      ServeKeeps(Session(ls[..|ls| - 1]).value, ls[|ls| - 1]);
    }
  }

  /**
   * Every request is answered at most once, over any run with failed, retried and dropped replies; every
   * answered request was returned by a receive; and NNG routes each reply to the request whose responder
   * was used.
   */
  lemma AtMostOneReplyAndToItsRequest(ls: seq<Label>)
    requires Session(ls).Some?
    ensures var s := Session(ls).value;
            && (forall i, j | 0 <= i < j < |s.routed| :: s.routed[i].to != s.routed[j].to)
            && (forall i | 0 <= i < |s.routed| :: GoodRoute(s, s.routed[i]))
  {
    SessionKeeps(ls);
  }

  /** A responder that the user holds is still good: its request is pending in NNG and unanswered. */
  lemma ResponderIsLive(ls: seq<Label>)
    requires Session(ls).Some? && Session(ls).value.responder.Some? && Session(ls).value.ep.pc != Gone
    ensures var s := Session(ls).value;
            && s.pending == s.responder && s.responder.value in s.ep.delivered
            && (forall i | 0 <= i < |s.routed| :: s.routed[i].to != s.responder)
  {
    SessionKeeps(ls);
  }

  /**
   * How a `reply` ends. A failed one gives the responder back, its request is still the one NNG expects an
   * answer to, and any message may be sent as the answer again; a successful one uses the responder up.
   */
  lemma FailedReplyGivesResponderBack(ls: seq<Label>)
    requires Session(ls).Some? && Session(ls).value.ep.pc == Settled(Sending)
    ensures var s := Session(ls).value;
            var t := Serve(s, Return);
            && t.ep.pc == Resting && t.replyingTo == None
            && (if s.ep.result == 0 then t.responder == None
                else && t.responder.Some? && t.responder == s.replyingTo == t.pending
                     && forall m :: Allowed(t, CallSend(m)))
  {
    SessionKeeps(ls);
  }

  /** NNG routes the message of the running reply, to the request it has pending; every other step routes nothing. */
  lemma AcceptedReplyIsRouted(ls: seq<Label>, l: Label)
    requires Session(ls).Some? && Allowed(Session(ls).value, l)
    ensures var s := Session(ls).value;
            var t := Serve(s, l);
            if Accepts(s, l)
            then && s.ep.owns.Some? && s.pending.Some? && t.pending == None
                 && t.routed == s.routed + [Route(s.ep.owns.value, s.pending, s.replyingTo)]
            else t.routed == s.routed
  {
    SessionKeeps(ls);
  }

  /** A dropped `reply` uses the responder up, whether NNG accepted the reply or not. */
  lemma DroppedReplyUsesResponderUp(ls: seq<Label>)
    requires Session(ls).Some? && Session(ls).value.ep.pc == Deciding(Sending)
    ensures var t := Serve(Session(ls).value, CancelTable);
            t.ep.pc == Resting && t.responder == None && t.replyingTo == None
  {
    SessionKeeps(ls);
  }

  /** A receive that returns a request returns a responder for it, and any other receive returns none. */
  lemma ReceiveGivesResponder(ls: seq<Label>, l: Label)
    requires Session(ls).Some? && Allowed(Session(ls).value, l)
    requires l.CallRecv? || l.CallTryRecv? || (l == Return && Session(ls).value.ep.pc == Settled(Receiving))
    ensures var s := Session(ls).value;
            var t := Serve(s, l);
            && t.ep.delivered == s.ep.delivered + AsSeq(t.responder)
            && (t.responder.Some? ==> t.responder == t.pending && forall m :: Allowed(t, CallSend(m)))
  {
    SessionKeeps(ls);
    StepDelivered(Session(ls).value.ep, l);
    ServeKeeps(Session(ls).value, l);
  }

  /**
   * A request captured by a dropped `receive` is still the one NNG expects an answer to, and the next
   * `receive` or `try_receive` returns it with its responder, without taking anything else from NNG.
   */
  lemma DroppedReceiveIsResumed(ls: seq<Label>, l: Label)
    requires Session(ls).Some? && Session(ls).value.ep.stash.Some?
    requires (l.CallRecv? || l.CallTryRecv?) && Allowed(Session(ls).value, l)
    ensures var s := Session(ls).value;
            var t := Serve(s, l);
            && t.responder == s.ep.stash == s.pending == t.pending
            && t.ep.delivered == s.ep.delivered + [s.ep.stash.value]
            && t.ep.phase == Quiet && t.ep.queue == s.ep.queue && t.ep.stash == None
  {
    SessionKeeps(ls);
  }
}
