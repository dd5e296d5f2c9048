/**
 * Req0 and Surveyor0 contexts: the asking side of a session, over the endpoint machine.
 *
 * NNG's part of the contract: accepting a new request (or survey) discards queued answers to the old
 * one, an answer is queued only while its request is the current one and its window is open, and a
 * receive reports ETIMEDOUT or ESTATE only when the window is closed.
 */
module Requesters {
  import opened Options
  import opened Endpoints
  import EndpointRuns
  import Errors

  const ETIMEDOUT: nat := 5
  const ESTATE: nat := 11

  /**
   * `current` is the request NNG accepted last, `asked` all it ever accepted, `about` which request a
   * queued answer is for. `base` is how much had been delivered when the current request was accepted,
   * `clean` whether the stash was empty then. `ended`: the answer stream reported its end since then.
   */
  datatype Requester = Requester(
    ep: Endpoint, current: Option<Msg>, open: bool, asked: set<Msg>, about: map<Msg, Msg>,
    base: nat, clean: bool, ended: bool)

  const NewRequester: Requester := Requester(Fresh, None, false, {}, map[], 0, true, false)

  /** NNG accepts the outgoing message of this endpoint. */
  predicate Accepts(s: Requester, l: Label) {
    l.Complete? && l.errno == 0 && s.ep.phase == Pending(Sending)
  }

  predicate Allowed(s: Requester, l: Label) {
    && Enabled(s.ep, l)
    && match l
       case CallSend(m) => m !in s.asked
       case Arrive(m) => s.open && s.current.Some? && m !in s.about
       case Complete(e, _, flush) =>
         && (Accepts(s, l) ==> flush)
         && (s.ep.phase == Pending(Receiving) && (e == ETIMEDOUT || e == ESTATE) ==> !s.open)
       case CallTryRecv(e) => s.ep.stash.None? && (e == ETIMEDOUT || e == ESTATE) ==> !s.open
       case _ => true
  }

  /** `SurveyResponses::next` maps the error to None. */
  predicate EndsNext(errno: nat) {
    errno == ETIMEDOUT || errno == ESTATE
  }

  /** `SurveyResponses::try_next` maps the error to Some(Ok(None)). */
  predicate EndsTryNext(errno: nat) {
    errno == ESTATE
  }

  /** Both are what the stream's own code makes of the result. */
  lemma EndsAreTheStreams(kindOf: nat -> Errors.OsKind, errno: nat)
    requires errno > 0
    ensures EndsNext(errno) <==> Errors.NextOnError(Errors.WaitError(kindOf, errno)) == Errors.End
    ensures Handled(errno) ==>
              (EndsTryNext(errno) <==> Errors.TryNextOn(Errors.TryRecvOutcome(errno)) == Errors.End)
    ensures EndsTryNext(errno) ==> Handled(errno)
  {
    Errors.StreamEnds(kindOf, errno);
  }

  /** The step reports the end of the answer stream to the caller. */
  predicate ReportsEnd(s: Requester, l: Label) {
    || (l == Return && s.ep.pc == Settled(Receiving) && EndsNext(s.ep.result))
    || (l.CallTryRecv? && s.ep.stash.None? && EndsTryNext(l.errno))
  }

  function Ask(s: Requester, l: Label): Requester
    requires Allowed(s, l)
  {
    var t := s.(ep := Apply(s.ep, l), ended := s.ended || ReportsEnd(s, l));
    match l
    case Arrive(m) => t.(about := s.about[m := s.current.value])
    case Complete(e, _, _) =>
      if Accepts(s, l)
      then t.(current := s.ep.slot, open := true, asked := s.asked + {s.ep.slot.value},
              base := |s.ep.delivered|, clean := s.ep.stash.None?, ended := false)
      else t
    case Flush => t.(open := false)
    case _ => t
  }

  function Session(s: Requester, ls: seq<Label>): Option<Requester> {
    if ls == [] then Some(s)
    else
      match Session(s, ls[..|ls| - 1])
      case None => None
      case Some(t) => if Allowed(t, ls[|ls| - 1]) then Some(Ask(t, ls[|ls| - 1])) else None
  }

  /** The i-th accepted answer is for the current request, unless it is the first one and was stashed before. */
  predicate Answered(s: Requester, i: nat)
    requires i < |s.ep.accepted|
  {
    var m := s.ep.accepted[i];
    && m in s.about && s.about[m] in s.asked
    && (Some(s.about[m]) == s.current <==> i > s.base || s.clean)
  }

  /** What the log says: from `base` on, every accepted message but a stale first one answers the current request. */
  predicate LogInv(s: Requester) {
    && s.base <= |s.ep.delivered| && (s.ep.pc == Gone ==> |s.ep.delivered| <= |s.ep.accepted|)
    && (forall i | s.base <= i < |s.ep.accepted| :: Answered(s, i))
    && (s.current.None? ==> s.ep.accepted == [] && s.clean && s.base == 0)
    && (s.current.Some? ==> s.current.value in s.asked)
    && (!s.clean && s.ep.pc != Gone ==> s.base < |s.ep.delivered| || s.ep.stash.Some?)
  }

  predicate WindowInv(s: Requester) {
    && (s.open ==> s.current.Some?)
    && (!s.open ==> s.ep.queue == [])
    && (s.ended ==> !s.open && Backlog(s.ep) == [])
    && (Op(s.ep) == Some(Receiving) && !s.ep.phase.Pending? && EndsNext(s.ep.result) ==> !s.open)
    && (Op(s.ep) == Some(Sending) && s.ep.owns.Some? ==> s.ep.owns.value !in s.asked)
  }

  predicate SessionInv(s: Requester) {
    Inv(s.ep) && LogInv(s) && WindowInv(s)
  }

  lemma AcceptCutsLog(s: Requester, l: Label)
    requires SessionInv(s) && Allowed(s, l) && Accepts(s, l)
    ensures var t := Ask(s, l).ep;
            && t.delivered == s.ep.delivered && t.stash == s.ep.stash && t.queue == [] && t.pc == s.ep.pc
            && t.accepted == s.ep.accepted[..|s.ep.accepted| - |s.ep.queue|] == s.ep.delivered + AsSeq(s.ep.stash)
  {
    assert Carried(s.ep) == [];
  }

  lemma AcceptKeepsLog(s: Requester, l: Label)
    requires SessionInv(s) && Allowed(s, l) && Accepts(s, l)
    ensures LogInv(Ask(s, l))
  {
    AcceptCutsLog(s, l);
    var t := Ask(s, l);
    if |t.ep.accepted| > t.base {
      assert Answered(s, t.base);
      assert Answered(t, t.base);
    }
  }

  lemma AcceptKeepsWindow(s: Requester, l: Label)
    requires SessionInv(s) && Allowed(s, l) && Accepts(s, l)
    ensures WindowInv(Ask(s, l))
  {
  }

  lemma ArriveKeepsLog(s: Requester, l: Label)
    requires SessionInv(s) && Allowed(s, l) && l.Arrive?
    ensures LogInv(Ask(s, l))
  {
    var t := Ask(s, l);
    assert !s.clean ==> s.base < |s.ep.accepted|;
    forall i | t.base <= i < |t.ep.accepted|
      ensures Answered(t, i)
    {
      if i < |s.ep.accepted| { assert Answered(s, i); }
    }
  }

  lemma OtherKeepsLog(s: Requester, l: Label)
    requires SessionInv(s) && Allowed(s, l) && !Accepts(s, l) && l != Close && !l.Arrive?
    ensures LogInv(Ask(s, l))
  {
    StepMoves(s.ep, l);
    StepAccepted(s.ep, l);
    StepDelivered(s.ep, l);
    OtherKeepsAnswers(s, l);
  }

  lemma OtherKeepsAnswers(s: Requester, l: Label)
    requires Allowed(s, l) && !Accepts(s, l) && !l.Arrive? && |s.ep.queue| <= |s.ep.accepted|
    requires forall i | s.base <= i < |s.ep.accepted| :: Answered(s, i)
    ensures forall i | Ask(s, l).base <= i < |Ask(s, l).ep.accepted| :: Answered(Ask(s, l), i)
  {
    var t := Ask(s, l);
    LogMoves(s.ep, l);
    assert |t.ep.accepted| <= |s.ep.accepted| && t.ep.accepted == s.ep.accepted[..|t.ep.accepted|];
    forall i | t.base <= i < |t.ep.accepted|
      ensures Answered(t, i)
    {
      assert Answered(s, i);
    }
  }

  lemma NngKeepsWindow(s: Requester, l: Label)
    requires SessionInv(s) && Allowed(s, l) && !Accepts(s, l) && IsNng(l)
    ensures WindowInv(Ask(s, l))
  {
    StepMoves(s.ep, l);
  }

  lemma FutureKeepsWindow(s: Requester, l: Label)
    requires SessionInv(s) && Allowed(s, l) && !IsNng(l) && l != Close
    ensures WindowInv(Ask(s, l))
  {
    StepInv(s.ep, l);
    StepMoves(s.ep, l);
  }

  lemma SessionStep(s: Requester, l: Label)
    requires SessionInv(s) && Allowed(s, l)
    ensures SessionInv(Ask(s, l))
  {
    StepInv(s.ep, l);
    if Accepts(s, l) {
      AcceptKeepsLog(s, l);
      AcceptKeepsWindow(s, l);
    } else {
      if l != Close {
        if l.Arrive? { ArriveKeepsLog(s, l); } else { OtherKeepsLog(s, l); }
        if IsNng(l) { NngKeepsWindow(s, l); } else { FutureKeepsWindow(s, l); }
      } else {
        assert forall i | s.base <= i < |s.ep.accepted| :: Answered(s, i) ==> Answered(Ask(s, l), i);
      }
    }
  }

  lemma {:induction false} SessionKeeps(s: Requester, ls: seq<Label>)
    requires SessionInv(s) && Session(s, ls).Some?
    ensures SessionInv(Session(s, ls).value)
  {
    if ls != [] {
      SessionKeeps(s, ls[..|ls| - 1]);
      SessionStep(Session(s, ls[..|ls| - 1]).value, ls[|ls| - 1]);
    }
  }

  // ----- while one request stays the current one -----

  /** `t` is later than `s`, and a new request was accepted in between or the session's marks are unchanged. */
  predicate Later(s: Requester, t: Requester) {
    && s.asked <= t.asked
    && |s.ep.delivered| <= |t.ep.delivered|
    && (|| (t.current.Some? && t.current.value !in s.asked)
        || (&& t.current == s.current && t.base == s.base && t.clean == s.clean
            && (s.ended ==> t.ended && t.ep.delivered == s.ep.delivered)))
  }

  lemma StepIsLater(s: Requester, t: Requester, l: Label)
    requires SessionInv(t) && Later(s, t) && Allowed(t, l)
    ensures Later(s, Ask(t, l))
  {
    StepDelivered(t.ep, l);
    if l != Close { StepRefinesQueue(t.ep, l); }
  }

  lemma {:induction false} RunIsLater(s: Requester, ls: seq<Label>)
    requires SessionInv(s) && Session(s, ls).Some?
    ensures Later(s, Session(s, ls).value)
  {
    if ls != [] {
      SessionKeeps(s, ls[..|ls| - 1]);
      RunIsLater(s, ls[..|ls| - 1]);
      StepIsLater(s, Session(s, ls[..|ls| - 1]).value, ls[|ls| - 1]);
    }
  }

  /** A state in which NNG has just accepted a request, after any run. */
  ghost predicate JustAsked(s: Requester, r: Msg, stashWasEmpty: bool) {
    exists ls: seq<Label>, l: Label ::
      && Session(NewRequester, ls).Some?
      && Allowed(Session(NewRequester, ls).value, l)
      && Accepts(Session(NewRequester, ls).value, l)
      && Session(NewRequester, ls).value.ep.slot == Some(r)
      && Session(NewRequester, ls).value.ep.stash.None? == stashWasEmpty
      && s == Ask(Session(NewRequester, ls).value, l)
  }

  lemma JustAskedMarks(s: Requester, r: Msg, stashWasEmpty: bool)
    requires JustAsked(s, r, stashWasEmpty)
    ensures SessionInv(s) && s.current == Some(r) && s.clean == stashWasEmpty && s.base == |s.ep.delivered|
    ensures r in s.asked && !s.ended
  {
    var ls, l :|
      && Session(NewRequester, ls).Some?
      && Allowed(Session(NewRequester, ls).value, l)
      && Accepts(Session(NewRequester, ls).value, l)
      && Session(NewRequester, ls).value.ep.slot == Some(r)
      && Session(NewRequester, ls).value.ep.stash.None? == stashWasEmpty
      && s == Ask(Session(NewRequester, ls).value, l);
    var s0 := Session(NewRequester, ls).value;
    SessionKeeps(NewRequester, ls);
    SessionStep(s0, l);
    StepDelivered(s0.ep, l);
  }

  /**
   * Reply correlation, exactly: the first message a receive returns after request `r` was accepted, and
   * before another one is, answers `r` if and only if the stash was empty when `r` was accepted.
   */
  lemma FirstReplyIsOwnIffStashWasEmpty(s: Requester, r: Msg, stashWasEmpty: bool, ls: seq<Label>, l: Label)
    requires JustAsked(s, r, stashWasEmpty) && Session(s, ls).Some?
    requires var t := Session(s, ls).value;
             && t.current == Some(r) && |t.ep.delivered| == |s.ep.delivered|
             && Allowed(t, l) && Delivers(t.ep, l).Some?
    ensures var t := Session(s, ls).value;
            var x := Delivers(t.ep, l).value;
            && x in t.about && t.about[x] in t.asked
            && (t.about[x] == r <==> stashWasEmpty)
  {
    JustAskedMarks(s, r, stashWasEmpty);
    SessionKeeps(s, ls);
    RunIsLater(s, ls);
    var t := Session(s, ls).value;
    StepRefinesQueue(t.ep, l);
    assert Answered(t, t.base);
  }

  /**
   * The answer stream: with the stash empty when the survey was accepted, what receives have returned
   * since then, followed by the backlog, is what NNG accepted since then, in order and once each, and
   * all of it answers this survey - however many `next` futures were dropped on the way.
   */
  lemma StreamYieldsAnswersInOrder(s: Requester, r: Msg, ls: seq<Label>)
    requires JustAsked(s, r, true) && Session(s, ls).Some?
    requires Session(s, ls).value.current == Some(r) && Session(s, ls).value.ep.pc != Gone
    ensures var t := Session(s, ls).value;
            var n := |s.ep.delivered|;
            && n <= |t.ep.delivered| && n <= |t.ep.accepted| && |s.ep.accepted| == n
            && t.ep.accepted[n..] == t.ep.delivered[n..] + Backlog(t.ep)
            && (forall i | n <= i < |t.ep.accepted| ::
                  t.ep.accepted[i] in t.about && t.about[t.ep.accepted[i]] == r)
  {
    JustAskedMarks(s, r, true);
    SessionKeeps(s, ls);
    RunIsLater(s, ls);
    var t := Session(s, ls).value;
    forall i | s.base <= i < |t.ep.accepted|
      ensures t.ep.accepted[i] in t.about && t.about[t.ep.accepted[i]] == r
    {
      assert Answered(t, i);
    }
    JustAskedHasNoBacklog(s, r);
    TailOf(t.ep.accepted, t.ep.delivered, Backlog(t.ep), |s.ep.delivered|);
  }

  lemma TailOf(log: seq<Msg>, done: seq<Msg>, b: seq<Msg>, n: nat)
    requires log == done + b && n <= |done|
    ensures log[n..] == done[n..] + b
  {
  }

  lemma JustAskedHasNoBacklog(s: Requester, r: Msg)
    requires JustAsked(s, r, true)
    ensures s.ep.accepted == s.ep.delivered
  {
    var ls, l :|
      && Session(NewRequester, ls).Some?
      && Allowed(Session(NewRequester, ls).value, l)
      && Accepts(Session(NewRequester, ls).value, l)
      && Session(NewRequester, ls).value.ep.stash.None?
      && s == Ask(Session(NewRequester, ls).value, l);
    SessionKeeps(NewRequester, ls);
    AcceptCutsLog(Session(NewRequester, ls).value, l);
  }

  /**
   * Once the stream has reported its end to the caller, no receive yields a message until another survey
   * is accepted.
   */
  lemma EndOfStreamIsFinal(s: Requester, end: Label, ls: seq<Label>, l: Label)
    requires SessionInv(s) && Allowed(s, end) && ReportsEnd(s, end)
    requires Session(Ask(s, end), ls).Some? && Session(Ask(s, end), ls).value.current == s.current
    requires Allowed(Session(Ask(s, end), ls).value, l)
    ensures var t := Session(Ask(s, end), ls).value;
            t.ep.delivered == s.ep.delivered && Delivers(t.ep, l) == None
  {
    var e := Ask(s, end);
    SessionStep(s, end);
    EndDeliversNothing(s, end);
    SessionKeeps(e, ls);
    RunIsLater(e, ls);
    EndedYieldsNothing(Session(e, ls).value, l);
  }

  lemma EndDeliversNothing(s: Requester, end: Label)
    requires SessionInv(s) && Allowed(s, end) && ReportsEnd(s, end)
    ensures var e := Ask(s, end);
            e.ended && e.current == s.current && e.asked == s.asked && e.ep.delivered == s.ep.delivered
  {
  }

  lemma EndedYieldsNothing(t: Requester, l: Label)
    requires SessionInv(t) && t.ended && Allowed(t, l)
    ensures Delivers(t.ep, l) == None
  {
    assert Backlog(t.ep) == [];
    if l != Close { StepRefinesQueue(t.ep, l); }
  }

  // ----- the documented discard does not happen to a stashed reply -----

  ghost predicate Reachable(s: Requester) {
    exists ls: seq<Label> :: Session(NewRequester, ls) == Some(s)
  }

  lemma ReachableInv(s: Requester)
    requires Reachable(s)
    ensures SessionInv(s)
  {
    var ls: seq<Label> :| Session(NewRequester, ls) == Some(s);
    SessionKeeps(NewRequester, ls);
  }

  lemma Go(s: Requester, l: Label) returns (t: Requester)
    requires Reachable(s) && Allowed(s, l)
    ensures t == Ask(s, l) && Reachable(t)
  {
    var ls: seq<Label> :| Session(NewRequester, ls) == Some(s);
    t := Ask(s, l);
    assert (ls + [l])[..|ls|] == ls;
    assert Session(NewRequester, ls + [l]) == Some(t);
  }

  lemma SendParks(s: Requester, r: Msg) returns (t: Requester)
    requires Reachable(s) && s.ep.pc == Resting && EndpointRuns.Idle(s.ep) && r !in s.asked
    ensures Reachable(t)
    ensures t == s.(ep := s.ep.(slot := Some(r), owns := Some(r), msgWasSet := true, phase := Pending(Sending),
                                pc := Parked(Sending), started := s.ep.started + 1))
  {
    t := Go(s, CallSend(r));
    t := Go(t, StartSend);
    t := Go(t, PollFirst);
  }

  lemma SendReturns(s: Requester) returns (t: Requester)
    requires Reachable(s) && s.ep.pc == Woken(Sending) && s.ep.phase.InCallback? && s.ep.result == 0
    ensures Reachable(t)
    ensures t == s.(ep := s.ep.(slot := None, msgWasSet := false, phase := Quiet, pc := Resting))
  {
    t := Go(s, CallbackReturn);
    t := Go(t, PollWoken);
    t := Go(t, Drained);
    t := Go(t, Return);
  }

  /** `request(r)`, sent with success, from any reachable resting state. */
  lemma RequestSucceeds(s: Requester, r: Msg) returns (t: Requester)
    requires Reachable(s) && s.ep.pc == Resting && r !in s.asked
    ensures Reachable(t) && t.ep.pc == Resting
    ensures t.current == Some(r) && t.open && t.asked == s.asked + {r} && t.about == s.about
    ensures t.ep.stash == s.ep.stash && t.ep.delivered == s.ep.delivered && t.ep.queue == []
  {
    ReachableInv(s);
    t := SendParks(s, r);
    t := Go(t, Complete(0, false, true));
    t := Go(t, Callback);
    t := SendReturns(t);
  }

  lemma ReceiveParks(s: Requester) returns (t: Requester)
    requires Reachable(s) && s.ep.pc == Resting && EndpointRuns.Idle(s.ep) && s.ep.stash == None
    ensures Reachable(t)
    ensures t == s.(ep := s.ep.(phase := Pending(Receiving), pc := Parked(Receiving), started := s.ep.started + 1))
  {
    t := Go(s, CallRecv);
    t := Go(t, PollFirst);
  }

  lemma ReceiveFails(s: Requester) returns (t: Requester)
    requires Reachable(s) && s.ep.pc == Woken(Receiving) && s.ep.phase.InCallback? && s.ep.result == ETIMEDOUT
    ensures Reachable(t)
    ensures t == s.(ep := s.ep.(phase := Quiet, pc := Resting), ended := true)
  {
    t := Go(s, CallbackReturn);
    t := Go(t, PollWoken);
    t := Go(t, Drained);
    t := Go(t, Return);
  }

  /** A stream does end: the survey is accepted, `next` waits, the window closes, and the wait times out. */
  lemma StreamCanEnd(r: Msg) returns (t: Requester)
    ensures Reachable(t) && t.current == Some(r) && t.ended && t.ep.pc == Resting
  {
    assert Session(NewRequester, []) == Some(NewRequester);
    t := RequestSucceeds(NewRequester, r);
    ReachableInv(t);
    t := ReceiveParks(t);
    t := WindowCloses(t);
    t := ReceiveFails(t);
  }

  lemma WindowCloses(s: Requester) returns (t: Requester)
    requires Reachable(s) && s.ep.pc == Parked(Receiving) && s.ep.phase == Pending(Receiving)
    ensures Reachable(t) && t.current == s.current && t.ep.pc == Woken(Receiving)
    ensures t.ep.phase.InCallback? && t.ep.result == ETIMEDOUT
  {
    t := Go(s, Flush);
    t := Go(t, Complete(ETIMEDOUT, false, false));
    t := Go(t, Callback);
  }

  lemma CancelReturns(s: Requester) returns (t: Requester)
    requires Reachable(s) && s.ep.pc == Cancelling(Receiving) && s.ep.phase == Finished(Receiving)
    ensures Reachable(t)
    ensures t == s.(ep := s.ep.(phase := Quiet, permit := true, fired := s.ep.fired + 1, pc := Eating(Receiving)))
  {
    t := Go(s, Callback);
    t := Go(t, CallbackReturn);
    t := Go(t, CancelWaited);
  }

  lemma GuardStashes(s: Requester, x: Msg) returns (t: Requester)
    requires Reachable(s) && s.ep.pc == Eating(Receiving) && s.ep.permit && s.ep.phase == Quiet
    requires s.ep.slot == Some(x) && s.ep.result == 0 && !s.ep.msgWasSet
    ensures Reachable(t)
    ensures t == s.(ep := s.ep.(permit := false, slot := None, owns := None, stash := Some(x), pc := Resting))
  {
    t := Go(s, EatPermit);
    t := Go(t, CancelTable);
    t := Go(t, OuterGuard);
  }

  /** The reply future is awaited, the reply `x` comes in, and the future is dropped before it is polled again. */
  lemma ReplyRacesDrop(s: Requester, x: Msg) returns (t: Requester)
    requires Reachable(s) && s.ep.pc == Resting && s.open && s.current.Some?
    requires s.ep.stash == None && s.ep.queue == [] && x !in s.about
    ensures Reachable(t) && t.ep.pc == Resting
    ensures t.ep.stash == Some(x) && t.about == s.about[x := s.current.value]
    ensures t.current == s.current && t.asked == s.asked && t.ep.delivered == s.ep.delivered
  {
    ReachableInv(s);
    t := ReceiveParks(s);
    t := Go(t, Arrive(x));
    t := Go(t, Complete(0, false, false));
    t := Go(t, DropFuture);
    t := CancelReturns(t);
    t := GuardStashes(t, x);
  }

  /**
   * The documentation of `request` says that a reply to a dropped reply future is discarded. It is not
   * when the reply wins the race against the drop: for any two requests there is a run in which the
   * second reply future returns the reply to the first request.
   */
  lemma DroppedReplyAnswersNextRequest(r1: Msg, r2: Msg, x: Msg) returns (t: Requester)
    requires r1 != r2
    ensures Reachable(t) && t.current == Some(r2) && t.ep.pc == Resting
    ensures Allowed(t, CallRecv) && Delivers(t.ep, CallRecv) == Some(x)
    ensures x in t.about && t.about[x] == r1
  {
    assert Session(NewRequester, []) == Some(NewRequester);
    t := RequestSucceeds(NewRequester, r1);
    t := ReplyRacesDrop(t, x);
    t := RequestSucceeds(t, r2);
  }
}
