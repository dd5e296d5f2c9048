/** What holds over every run of one endpoint, whatever NNG, the runtime and the caller do. */
module EndpointRuns {
  import opened Options
  import opened Endpoints

  lemma {:induction false} ExecInv(s: Endpoint, ls: seq<Label>)
    requires Inv(s) && Exec(s, ls).Some?
    ensures Inv(Exec(s, ls).value)
  {
    if ls != [] {
      ExecInv(s, ls[..|ls| - 1]);
      StepInv(Exec(s, ls[..|ls| - 1]).value, ls[|ls| - 1]);
    }
  }

  // ----- the receive side is an atomic queue -----

  /** What the peers sent to this endpoint, in order. */
  function Arrivals(ls: seq<Label>): seq<Msg> {
    if ls == [] then []
    else Arrivals(ls[..|ls| - 1]) + (match ls[|ls| - 1] case Arrive(m) => [m] case _ => [])
  }

  /** What the receive calls of the run returned, in order. */
  function Deliveries(s: Endpoint, ls: seq<Label>): seq<Msg>
    requires Exec(s, ls).Some?
  {
    if ls == [] then []
    else Deliveries(s, ls[..|ls| - 1]) + AsSeq(Delivers(Exec(s, ls[..|ls| - 1]).value, ls[|ls| - 1]))
  }

  predicate NngKeepsItsQueue(ls: seq<Label>) {
    forall i | 0 <= i < |ls| :: !Discards(ls[i]) && ls[i] != Close
  }

  /**
   * Nothing received is lost, duplicated or reordered: in every run of arrivals, receives,
   * try-receives, sends, dropped futures and completion/cancel races, what arrived is what was
   * returned, then the stash, then the AIO slot, then NNG's queue.
   */
  lemma {:induction false} ReceiveIsAQueue(ls: seq<Label>)
    requires Exec(Fresh, ls).Some? && NngKeepsItsQueue(ls)
    ensures Arrivals(ls) == Deliveries(Fresh, ls) + Backlog(Exec(Fresh, ls).value)
  {
    if ls != [] {
      var ks, l := ls[..|ls| - 1], ls[|ls| - 1];
      var s := Exec(Fresh, ks).value;
      ExecInv(Fresh, ks);
      assert NngKeepsItsQueue(ks);
      ReceiveIsAQueue(ks);
      StepRefinesQueue(s, l);
      LogFollows(s, l, Deliveries(Fresh, ks), AsSeq(Delivers(s, l)), Backlog(s), Backlog(Exec(Fresh, ls).value));
    }
  }

  /** The stash is never overwritten, and only a receive (or dropping the endpoint) empties it. */
  lemma StashPersists(s: Endpoint, l: Label)
    requires Inv(s) && Enabled(s, l) && s.stash.Some?
    requires !l.CallRecv? && !l.CallTryRecv? && l != Close
    ensures Apply(s, l).stash == s.stash
  {
    StepMoves(s, l);
  }

  predicate NoReceive(ls: seq<Label>) {
    forall i | 0 <= i < |ls| :: !ls[i].CallRecv? && !ls[i].CallTryRecv? && ls[i] != Close
  }

  /**
   * A message captured by a dropped receive is what the next receive returns, whatever happens in
   * between, and that receive does not start an NNG operation.
   */
  lemma {:induction false} NextReceiveReturnsStash(s: Endpoint, ls: seq<Label>, l: Label)
    requires Inv(s) && s.stash.Some? && Exec(s, ls).Some? && NoReceive(ls)
    requires l.CallRecv? || l.CallTryRecv?
    ensures var t := Exec(s, ls).value;
            && t.stash == s.stash
            && (Enabled(t, l) ==>
                  && Delivers(t, l) == s.stash
                  && Apply(t, l) == t.(stash := None, delivered := t.delivered + [s.stash.value]))
  {
    if ls != [] {
      var ks := ls[..|ls| - 1];
      assert NoReceive(ks);
      NextReceiveReturnsStash(s, ks, l);
      ExecInv(s, ks);
      StashPersists(Exec(s, ks).value, ls[|ls| - 1]);
    }
  }

  // ----- notifications, flag and slot -----

  /** An endpoint that no future uses: no permit left behind, no flag, no pointer, no message, nothing running. */
  predicate Idle(s: Endpoint) {
    && s.phase == Quiet && !s.permit && !s.msgWasSet
    && s.slot == None && s.owns == None && s.started == s.fired
  }

  /** The i-th step of the run is a try-receive with an empty stash and a result its match declares impossible. */
  ghost predicate UnforeseenAt(ls: seq<Label>, i: nat) {
    && i < |ls|
    && Exec(Fresh, ls[..i]).Some? && Unforeseen(Exec(Fresh, ls[..i]).value, ls[i])
  }

  /**
   * A run ends in a panic if and only if one of its try-receives found the stash empty and got a result
   * that its match declares impossible. So no run whatever reaches an `unreachable!`, a failing `expect`
   * or a failing assertion of `wait`, its guards, `set_message`, `send_msg` or `recv_msg`.
   */
  lemma {:induction false} PanicsIffUnforeseen(ls: seq<Label>)
    requires Exec(Fresh, ls).Some?
    ensures Exec(Fresh, ls).value.pc == Panicked <==> exists i: nat :: UnforeseenAt(ls, i)
  {
    if ls == [] {
      assert forall i: nat :: !UnforeseenAt(ls, i);
    } else {
      var n := |ls| - 1;
      PanicsIffUnforeseen(ls[..n]);
      LastStepPanics(ls, Exec(Fresh, ls[..n]).value);
      forall i: nat | UnforeseenAt(ls, i)
        ensures i == n
      {
        if i < n { EarlierStep(ls, n, i); }
      }
    }
  }

  lemma EarlierStep(ls: seq<Label>, n: nat, i: nat)
    requires i < n < |ls| && UnforeseenAt(ls, i)
    ensures UnforeseenAt(ls[..n], i)
  {
    assert ls[..n][..i] == ls[..i];
  }

  lemma LastStepPanics(ls: seq<Label>, s: Endpoint)
    requires ls != [] && Exec(Fresh, ls).Some? && Exec(Fresh, ls[..|ls| - 1]) == Some(s)
    ensures s.pc != Panicked
    ensures Exec(Fresh, ls).value.pc == Panicked <==> UnforeseenAt(ls, |ls| - 1)
  {
    ExecInv(Fresh, ls[..|ls| - 1]);
    StepPanicsIffUnforeseen(s, ls[|ls| - 1]);
  }

  /** Between calls, and after a panic too, the endpoint is idle. */
  lemma IdleBetweenCalls(ls: seq<Label>)
    requires Exec(Fresh, ls).Some?
    ensures var s := Exec(Fresh, ls).value;
            s.pc == Resting || s.pc == Gone || s.pc == Panicked ==> Idle(s)
  {
    ExecInv(Fresh, ls);
  }

  /**
   * While an operation is in progress the flag is set exactly for a send, NNG works on that same kind
   * of operation, and at most one callback is outstanding.
   */
  lemma FlagMatchesKind(ls: seq<Label>)
    requires Exec(Fresh, ls).Some?
    ensures var s := Exec(Fresh, ls).value;
            && s.fired <= s.started <= s.fired + 1
            && (Op(s).Some? ==> (s.msgWasSet <==> Op(s).value == Sending))
            && (s.phase != Quiet ==> Op(s) == Some(s.phase.kind))
            && (s.pc == Staged ==> s.slot.Some? && s.owns == s.slot)
  {
    ExecInv(Fresh, ls);
  }

  /** `wait` gets past its await only after the callback of its own operation, in both ways out. */
  lemma AwaitEndsAfterOwnCallback(ls: seq<Label>)
    requires Exec(Fresh, ls).Some?
    ensures var s := Exec(Fresh, ls).value;
            s.pc.Draining? || s.pc.Settled? || s.pc.Eating? || s.pc.Deciding? ==> s.fired == s.started
  {
    ExecInv(Fresh, ls);
  }

  /** What the operation means for the message, by its kind and result: the table the guard must agree with. */
  datatype Fate = NngTook | KeptForReceiver | GivenUp | NoMessage

  function Implication(k: Kind, errno: nat): Fate {
    match k
    case Sending => if errno == 0 then NngTook else GivenUp
    case Receiving => if errno == 0 then KeptForReceiver else NoMessage
  }

  /** The cancellation guard decides by `msg_was_set`; in every run that is the decision by kind. */
  lemma CancelTableFollowsKind(ls: seq<Label>)
    requires Exec(Fresh, ls).Some? && Exec(Fresh, ls).value.pc.Deciding?
    ensures var s := Exec(Fresh, ls).value;
            var t := Apply(s, CancelTable);
            match Implication(s.pc.kind, s.result)
            case NngTook => s.owns == None && t.slot == None && t.pc == Resting
            case GivenUp => s.slot.Some? && s.owns == s.slot && t.slot == None && t.owns == None && t.pc == Resting
            case KeptForReceiver => s.slot.Some? && s.owns == s.slot == t.slot && t.pc == Guarding
            case NoMessage => s.slot == None == t.slot && s.owns == None && t.pc == Guarding
  {
    ExecInv(Fresh, ls);
  }

  // ----- every operation can be brought to an end -----

  /** A step that brings a busy endpoint closer to rest; the future is dropped when it is suspended. */
  function Towards(s: Endpoint): Label {
    match s.pc
    case Staged => StartSend
    case Started(_) => PollFirst
    case Parked(_) => DropFuture
    case Woken(_) => DropFuture
    case Draining(_) => if s.phase == Quiet then Drained else CallbackReturn
    case Settled(_) => Return
    case Cancelling(_) =>
      (match s.phase
       case Quiet => CancelWaited
       case Pending(_) => Complete(20, false, false)
       case Finished(_) => Callback
       case InCallback(_) => CallbackReturn)
    case Eating(_) => EatPermit
    case Deciding(_) => CancelTable
    case _ => OuterGuard
  }

  function PhaseRank(p: Phase): nat {
    match p
    case Quiet => 0
    case InCallback(_) => 1
    case Finished(_) => 2
    case Pending(_) => 3
  }

  function Rank(s: Endpoint): nat {
    PhaseRank(s.phase) +
    match s.pc
    case Staged => 13
    case Started(_) => 9
    case Parked(_) => 8
    case Woken(_) => 8
    case Draining(_) => 6
    case Settled(_) => 5
    case Cancelling(_) => 7
    case Eating(_) => 6
    case Deciding(_) => 5
    case Guarding => 4
    case _ => 0
  }

  lemma TowardsDescends(s: Endpoint)
    requires Inv(s) && Op(s).Some?
    ensures Enabled(s, Towards(s)) && Rank(Apply(s, Towards(s))) < Rank(s)
  {
  }

  lemma ExecSnoc(s: Endpoint, ls: seq<Label>, l: Label)
    requires Exec(s, ls).Some? && Enabled(Exec(s, ls).value, l)
    ensures Exec(s, ls + [l]) == Some(Apply(Exec(s, ls).value, l))
  {
    assert (ls + [l])[..|ls|] == ls;
  }

  lemma {:induction false} FinishFrom(s: Endpoint, done: seq<Label>, t: Endpoint) returns (ls: seq<Label>)
    requires Exec(s, done) == Some(t) && Inv(t) && t.pc != Gone && t.pc != Panicked
    ensures done <= ls && Exec(s, ls).Some? && Exec(s, ls).value.pc == Resting && Idle(Exec(s, ls).value)
    decreases Rank(t)
  {
    if t.pc == Resting {
      ls := done;
    } else {
      var l := Towards(t);
      TowardsDescends(t);
      StepInv(t, l);
      StepPanicsIffUnforeseen(t, l);
      ExecSnoc(s, done, l);
      ls := FinishFrom(s, done + [l], Apply(t, l));
    }
  }

  /** No deadlock: from every reachable state some finite run ends the operation and leaves the endpoint idle. */
  lemma CanAlwaysFinish(done: seq<Label>) returns (ls: seq<Label>)
    requires Exec(Fresh, done).Some? && Exec(Fresh, done).value.pc != Gone && Exec(Fresh, done).value.pc != Panicked
    ensures done <= ls && Exec(Fresh, ls).Some?
    ensures Exec(Fresh, ls).value.pc == Resting && Idle(Exec(Fresh, ls).value)
  {
    ExecInv(Fresh, done);
    ls := FinishFrom(Fresh, done, Exec(Fresh, done).value);
  }
}
