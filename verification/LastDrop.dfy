/**
 * The end of a callback AIO: `Inner::drop` runs when the last handle is dropped, waits in nng_aio_stop for
 * the operation and its callback, and frees the `nng_aio` with whatever message is still in it.
 */
module LastDrop {
  import opened Options
  import opened SharedAio

  // ----- what can still happen without a handle -----

  lemma ExecSnoc(s: Shared, ls: seq<Label>, l: Label)
    requires Exec(s, ls).Some? && Enabled(Exec(s, ls).value, l)
    ensures Exec(s, ls + [l]) == Some(Apply(Exec(s, ls).value, l))
  {
    assert (ls + [l])[..|ls|] == ls;
  }

  /** Steps that need no handle. */
  predicate IsLate(l: Label) {
    l.Spawn? || l.Complete? || l.Upgrade? || l.CallbackReturns? || l.StopReturns?
  }

  lemma OnlyLateSteps(s: Shared, l: Label)
    requires Inv(s) && Enabled(s, l)
    ensures Alive(s) || IsLate(l)
  {
    if !IsLate(l) {
      assert Handles(s, l.t);
      assert s.threads[l.t].handles > 0;
    }
  }

  lemma StaysWithoutHandles(s: Shared, l: Label)
    requires Inv(s) && Enabled(s, l) && !Alive(s)
    ensures !Alive(Apply(s, l))
  {
    OnlyLateSteps(s, l);
    SameHandles(s, Apply(s, l));
  }

  // ----- counting handles -----

  function Total(ths: seq<Thread>): nat {
    if ths == [] then 0 else ths[0].handles + Total(ths[1..])
  }

  lemma {:induction false} TotalUpdate(ths: seq<Thread>, i: nat, th: Thread)
    requires i < |ths|
    ensures Total(ths[i := th]) + ths[i].handles == Total(ths) + th.handles
  {
    if i == 0 {
      assert ths[0 := th][1..] == ths[1..];
    } else {
      assert ths[i := th][1..] == ths[1..][i - 1 := th];
      TotalUpdate(ths[1..], i - 1, th);
    }
  }

  lemma {:induction false} TotalAppend(ths: seq<Thread>, th: Thread)
    ensures Total(ths + [th]) == Total(ths) + th.handles
  {
    if ths == [] {
      assert ([] + [th])[1..] == [];
    } else {
      assert (ths + [th])[1..] == ths[1..] + [th];
      TotalAppend(ths[1..], th);
    }
  }

  /** Clones and upgraded weak pointers add a handle, drops take one away, and nothing else changes their number. */
  function HandleChange(s: Shared, l: Label): int {
    match l
    case Clone(_, _) => 1
    case DropHandle(_) => -1
    case Upgrade(_) => if Alive(s) then 1 else 0
    case _ => 0
  }

  predicate ChangesHandles(l: Label) {
    l.Clone? || l.DropHandle? || l.Upgrade?
  }

  lemma SharingChangesTotal(s: Shared, l: Label)
    requires Inv(s) && Enabled(s, l) && ChangesHandles(l)
    ensures Total(Apply(s, l).threads) == Total(s.threads) + HandleChange(s, l)
  {
    match l
    case Clone(_, u) => TotalUpdate(s.threads, u, Apply(s, l).threads[u]);
    case DropHandle(t) =>
      assert Apply(s, l).threads == s.threads[t := Apply(s, l).threads[t]];
      TotalUpdate(s.threads, t, Apply(s, l).threads[t]);
    case Upgrade(t) =>
      assert Handles(s, t);
      TotalUpdate(s.threads, t, Apply(s, l).threads[t]);
  }

  lemma OneThreadMoves(s: Shared, l: Label)
    requires Enabled(s, l) && !ChangesHandles(l) && !l.Spawn? && !l.Complete?
    ensures l.t < |s.threads| == |Apply(s, l).threads|
    ensures var th := Apply(s, l).threads[l.t];
            Apply(s, l).threads == s.threads[l.t := th] && th.handles == s.threads[l.t].handles
  {
  }

  lemma OtherStepsKeepTotal(s: Shared, l: Label)
    requires Enabled(s, l) && !ChangesHandles(l)
    ensures Total(Apply(s, l).threads) == Total(s.threads)
  {
    var now := Apply(s, l).threads;
    if l.Spawn? || l.Complete? {
      TotalAppend(s.threads, now[|s.threads|]);
    } else {
      OneThreadMoves(s, l);
      TotalUpdate(s.threads, l.t, now[l.t]);
    }
  }

  /** Handles gained less handles dropped over the run. */
  function Gained(ls: seq<Label>): int
    requires Exec(Fresh, ls).Some?
  {
    if ls == [] then 0
    else Gained(ls[..|ls| - 1]) + HandleChange(Exec(Fresh, ls[..|ls| - 1]).value, ls[|ls| - 1])
  }

  lemma {:induction false} TotalZero(ths: seq<Thread>)
    ensures Total(ths) == 0 <==> forall i | 0 <= i < |ths| :: ths[i].handles == 0
  {
    if ths != [] {
      TotalZero(ths[1..]);
      if Total(ths) == 0 {
        forall i | 0 <= i < |ths|
          ensures ths[i].handles == 0
        {
          if i > 0 { assert ths[1..][i - 1] == ths[i]; }
        }
      }
    }
  }

  /** `Arc`: over any run the threads hold the first handle and those gained; the AIO is alive while any is left. */
  lemma {:induction false} HandlesAddUp(ls: seq<Label>)
    requires Exec(Fresh, ls).Some?
    ensures var s := Exec(Fresh, ls).value;
            Total(s.threads) == 1 + Gained(ls) && (Alive(s) <==> Total(s.threads) > 0)
  {
    var s := Exec(Fresh, ls).value;
    TotalZero(s.threads);
    if ls == [] {
      assert Fresh.threads[1..] == [];
    } else {
      var r, l := Exec(Fresh, ls[..|ls| - 1]).value, ls[|ls| - 1];
      HandlesAddUp(ls[..|ls| - 1]);
      ExecInv(ls[..|ls| - 1]);
      if ChangesHandles(l) { SharingChangesTotal(r, l); } else { OtherStepsKeepTotal(r, l); }
    }
  }

  predicate DropBegun(s: Shared) {
    s.freed || exists t | 0 <= t < |s.threads| :: s.threads[t].pc == Dropping
  }

  lemma StepBeginsDrop(s: Shared, l: Label)
    requires Inv(s) && Enabled(s, l) && (!Alive(s) ==> DropBegun(s)) && !Alive(Apply(s, l))
    ensures DropBegun(Apply(s, l))
  {
    var r := Apply(s, l);
    if Alive(s) {
      OnlyDropsEndLife(s, l);
      assert r.threads[l.t].pc == Dropping;
    } else if !s.freed {
      var t :| 0 <= t < |s.threads| && s.threads[t].pc == Dropping;
      OnlyLateSteps(s, l);
      DroppedFacts(s, t);
      assert r.freed || r.threads[t].pc == Dropping;
    }
  }

  lemma OnlyDropsEndLife(s: Shared, l: Label)
    requires Inv(s) && Enabled(s, l) && Alive(s)
    ensures l.DropHandle? || Alive(Apply(s, l))
  {
    var r := Apply(s, l);
    var i :| 0 <= i < |s.threads| && s.threads[i].handles > 0;
    if !l.DropHandle? {
      assert r.threads[i].handles > 0;
    }
  }

  /** `Inner::drop` begins with the drop of the last handle and no earlier: it has begun if and only if none is left. */
  lemma {:induction false} DropBeginsWithLastHandle(ls: seq<Label>)
    requires Exec(Fresh, ls).Some?
    ensures var s := Exec(Fresh, ls).value;
            DropBegun(s) <==> Total(s.threads) == 0
  {
    var s := Exec(Fresh, ls).value;
    HandlesAddUp(ls);
    ExecInv(ls);
    forall t | 0 <= t < |s.threads| && s.threads[t].pc == Dropping
      ensures !Alive(s)
    {
      DroppedFacts(s, t);
    }
    if ls != [] {
      DropBeginsWithLastHandle(ls[..|ls| - 1]);
      HandlesAddUp(ls[..|ls| - 1]);
      ExecInv(ls[..|ls| - 1]);
      if !Alive(s) { StepBeginsDrop(Exec(Fresh, ls[..|ls| - 1]).value, ls[|ls| - 1]); }
    }
  }

  // ----- does the drop return? -----

  /** Thread `t` dropped the last handle and has not returned from `Inner::drop`. */
  predicate Dropped(s: Shared, t: nat) {
    Inv(s) && t < |s.threads| && s.threads[t].pc == Dropping
  }

  lemma DroppedFacts(s: Shared, t: nat)
    requires Dropped(s, t)
    ensures !Alive(s) && !s.freed
  {
    assert Handles(s, t);
  }

  lemma SelfDropStays(s: Shared, t: nat, l: Label)
    requires Dropped(s, t) && s.threads[t].inCallback && Enabled(s, l)
    ensures Dropped(Apply(s, l), t) && Apply(s, l).threads[t].inCallback
  {
    DroppedFacts(s, t);
    OnlyLateSteps(s, l);
    StepInv(s, l);
  }

  /** A drop inside a callback waits for that very callback: in no continuation is the AIO ever freed. */
  lemma {:induction false} DropInsideCallbackNeverReturns(s: Shared, t: nat, ls: seq<Label>)
    requires Dropped(s, t) && s.threads[t].inCallback && Exec(s, ls).Some?
    ensures var r := Exec(s, ls).value;
            Dropped(r, t) && r.threads[t].inCallback && !r.freed
  {
    if ls == [] {
      DroppedFacts(s, t);
    } else {
      var r := Exec(s, ls[..|ls| - 1]).value;
      DropInsideCallbackNeverReturns(s, t, ls[..|ls| - 1]);
      SelfDropStays(r, t, ls[|ls| - 1]);
      DroppedFacts(Apply(r, ls[|ls| - 1]), t);
    }
  }

  predicate InCallback(th: Thread) {
    th.inCallback && th.pc != Returned
  }

  /** How many callbacks have not returned. */
  function Unreturned(ths: seq<Thread>): nat {
    if ths == [] then 0 else (if InCallback(ths[0]) then 1 else 0) + Unreturned(ths[1..])
  }

  lemma {:induction false} OneReturns(ths: seq<Thread>, i: nat, th: Thread)
    requires i < |ths| && InCallback(ths[i]) && !InCallback(th)
    ensures Unreturned(ths[i := th]) == Unreturned(ths) - 1
  {
    if i == 0 {
      assert ths[0 := th][1..] == ths[1..];
    } else {
      assert ths[i := th][1..] == ths[1..][i - 1 := th];
      OneReturns(ths[1..], i - 1, th);
    }
  }

  lemma {:induction false} SomeUnreturned(ths: seq<Thread>) returns (i: nat)
    requires Unreturned(ths) > 0
    ensures i < |ths| && InCallback(ths[i])
  {
    if InCallback(ths[0]) {
      i := 0;
    } else {
      i := SomeUnreturned(ths[1..]);
      i := i + 1;
    }
  }

  lemma {:induction false} NoneUnreturned(ths: seq<Thread>, i: nat)
    requires Unreturned(ths) == 0 && i < |ths|
    ensures !InCallback(ths[i])
  {
    if i > 0 { NoneUnreturned(ths[1..], i - 1); }
  }

  /** Without handles a callback that has not returned is about to find the weak pointer dead, or leaves user code. */
  lemma CallbackEnds(s: Shared, t: nat, i: nat) returns (l: Label)
    requires Dropped(s, t) && !s.threads[t].inCallback && i < |s.threads| && InCallback(s.threads[i])
    ensures (l == Upgrade(i) || l == CallbackReturns(i)) && Enabled(s, l) && i != t
    ensures Apply(s, l).running == s.running
    ensures Apply(s, l).threads == s.threads[i := s.threads[i].(pc := Returned)]
  {
    DroppedFacts(s, t);
    assert Handles(s, i) && Local(s, s.threads[i].pc);
    assert s.threads[i].handles == 0;
    l := if s.threads[i].pc.Entered? then Upgrade(i) else CallbackReturns(i);
  }

  /** After a drop outside all callbacks the running operation can end, then every callback, then the drop. */
  lemma {:induction false} DropReturns(s: Shared, done: seq<Label>, q: Shared, t: nat) returns (ls: seq<Label>)
    requires Exec(s, done) == Some(q) && Dropped(q, t) && !q.threads[t].inCallback
    ensures Exec(s, ls).Some? && Exec(s, ls).value.freed
    decreases if q.running.Some? then 1 else 0, Unreturned(q.threads)
  {
    var l: Label;
    if q.running.Some? {
      l := Complete(1, 0, false);
      StepInv(q, l);
      ExecSnoc(s, done, l);
      ls := DropReturns(s, done + [l], Apply(q, l), t);
    } else if Unreturned(q.threads) > 0 {
      var i := SomeUnreturned(q.threads);
      l := CallbackEnds(q, t, i);
      OneReturns(q.threads, i, q.threads[i].(pc := Returned));
      StepInv(q, l);
      ExecSnoc(s, done, l);
      ls := DropReturns(s, done + [l], Apply(q, l), t);
    } else {
      l := StopReturns(t);
      forall i | 0 <= i < |q.threads| && q.threads[i].inCallback
        ensures q.threads[i].pc == Returned
      {
        NoneUnreturned(q.threads, i);
      }
      DroppedFacts(q, t);
      ExecSnoc(s, done, l);
      ls := done + [l];
    }
  }

  /** The drop of the last handle can return, and free the AIO, if and only if it was not made inside a callback. */
  lemma DropReturnsIffOutsideCallback(s: Shared, t: nat)
    requires Dropped(s, t)
    ensures (exists ls :: Exec(s, ls).Some? && Exec(s, ls).value.freed) <==> !s.threads[t].inCallback
  {
    if s.threads[t].inCallback {
      forall ls | Exec(s, ls).Some?
        ensures !Exec(s, ls).value.freed
      {
        DropInsideCallbackNeverReturns(s, t, ls);
      }
    } else {
      assert Exec(s, []) == Some(s);
      var ls := DropReturns(s, [], s, t);
    }
  }

  ghost predicate Reachable(s: Shared) {
    exists ls: seq<Label> :: Exec(Fresh, ls) == Some(s)
  }

  lemma Go(s: Shared, l: Label) returns (r: Shared)
    requires Reachable(s) && Enabled(s, l)
    ensures r == Apply(s, l) && Reachable(r)
  {
    var ls: seq<Label> :| Exec(Fresh, ls) == Some(s);
    ExecSnoc(Fresh, ls, l);
    r := Apply(s, l);
  }

  /** The program sleeps, drops its handle, and the callback then drops the one it was given. */
  lemma DropInsideCallbackHappens() returns (s: Shared)
    ensures Reachable(s) && Dropped(s, 1) && s.threads[1].inCallback
  {
    assert Exec(Fresh, []) == Some(Fresh);
    s := Go(Fresh, CallSleep(0));
    s := Go(s, StartSleep(0));
    s := Go(s, Complete(0, 0, false));
    assert s.threads == [Thread(User, 1, false), Thread(Entered(SleepOp), 0, true)];
    s := CallbackReachesUser(s);
    s := BothDrop(s);
  }

  lemma CallbackReachesUser(s0: Shared) returns (s: Shared)
    requires Reachable(s0) && s0.threads == [Thread(User, 1, false), Thread(Entered(SleepOp), 0, true)]
    requires !s0.freed && s0.word == Sleeping
    ensures Reachable(s) && s.threads == [Thread(User, 1, false), Thread(User, 1, true)]
  {
    assert s0.threads[0].handles > 0;
    s := Go(s0, Upgrade(1));
    assert s == s0.(threads := [Thread(User, 1, false), Thread(Upgraded(SleepOp), 1, true)]);
    s := Go(s, Observe(1));
    assert s == s0.(threads := [Thread(User, 1, false), Thread(Observed(SleepOp, Sleeping), 1, true)]);
    s := Go(s, Judge(1));
    s := Go(s, Release(1));
  }

  lemma DropOfOneAmongOthers(s: Shared, t: nat, u: nat)
    requires Enabled(s, DropHandle(t)) && u < |s.threads| && u != t && s.threads[u].handles > 0
    ensures Apply(s, DropHandle(t)) == s.(threads := s.threads[t := s.threads[t].(handles := s.threads[t].handles - 1)])
  {
    var after := s.threads[t := s.threads[t].(handles := s.threads[t].handles - 1)];
    assert after[u].handles > 0;
  }

  lemma DropOfTheLast(s: Shared, t: nat)
    requires Enabled(s, DropHandle(t)) && s.threads[t].handles == 1
    requires forall i | 0 <= i < |s.threads| && i != t :: s.threads[i].handles == 0
    ensures Apply(s, DropHandle(t)).threads == s.threads[t := s.threads[t].(handles := 0, pc := Dropping)]
  {
  }

  lemma BothDrop(s0: Shared) returns (s: Shared)
    requires Reachable(s0) && s0.threads == [Thread(User, 1, false), Thread(User, 1, true)]
    ensures Reachable(s) && Dropped(s, 1) && s.threads[1].inCallback
  {
    DropOfOneAmongOthers(s0, 0, 1);
    s := Go(s0, DropHandle(0));
    DropOfTheLast(s, 1);
    s := Go(s, DropHandle(1));
    ReachableInv(s);
  }

  lemma ReachableInv(s: Shared)
    requires Reachable(s)
    ensures Inv(s)
  {
    var ls: seq<Label> :| Exec(Fresh, ls) == Some(s);
    ExecInv(ls);
  }

  // ----- what is left behind -----

  /** Freeing the AIO leaves behind what is under way; which that is, the holder and the result say. */
  lemma FreeingLosesWhatIsUnderWay(s: Shared, t: nat)
    requires Inv(s) && Enabled(s, StopReturns(t))
    ensures var r := Apply(s, StopReturns(t));
            && r.freed && r.lost == s.lost + AsSeq(Outgoing(s)) && r.missed == s.missed + AsSeq(Incoming(s))
    ensures Outgoing(s).Some? <==> s.holder == Orphan(SendOp) && s.result != 0
    ensures Incoming(s).Some? <==> s.holder == Orphan(RecvOp) && s.result == 0
  {
    StopFlow(s, t);
    assert Nngs(s) && Handles(s, t);
    forall i | 0 <= i < |s.threads|
      ensures !Holds(s.threads[i].pc)
    {
      assert Handles(s, i);
    }
  }

  lemma LogsChangeOnlyByFreeing(s: Shared, l: Label)
    requires Inv(s) && Enabled(s, l) && !l.StopReturns?
    ensures Apply(s, l).lost == s.lost && Apply(s, l).missed == s.missed && Apply(s, l).freed == s.freed
  {
  }

  /** Over any run at most one message is left behind, and none before the AIO is freed. */
  lemma {:induction false} AtMostOneIsLeftBehind(ls: seq<Label>)
    requires Exec(Fresh, ls).Some?
    ensures var s := Exec(Fresh, ls).value;
            |s.lost| + |s.missed| <= 1 && (!s.freed ==> s.lost == [] && s.missed == [])
  {
    if ls != [] {
      var s, l := Exec(Fresh, ls[..|ls| - 1]).value, ls[|ls| - 1];
      AtMostOneIsLeftBehind(ls[..|ls| - 1]);
      ExecInv(ls[..|ls| - 1]);
      if l.StopReturns? {
        DroppedFacts(s, l.t);
        FreeingLosesWhatIsUnderWay(s, l.t);
      } else {
        LogsChangeOnlyByFreeing(s, l);
      }
    }
  }

  /** What has become, in `q`, of the messages that were under way in `s`, after the last handle was dropped. */
  predicate Since(s: Shared, q: Shared) {
    && q.given == s.given && q.rejected == s.rejected && q.bounced == s.bounced && q.received == s.received
    && (q.running.Some? ==> q.running == s.running)
    && OutgoingSince(s, q) && IncomingSince(s, q)
  }

  predicate OutgoingSince(s: Shared, q: Shared) {
    && (if q.running == Some(SendOp)
        then q.consumed == s.consumed && Outgoing(q) == Outgoing(s)
        else && q.consumed == s.consumed + (if q.result == 0 then AsSeq(Outgoing(s)) else [])
             && (!q.freed ==> Outgoing(q) == if q.result == 0 then None else Outgoing(s)))
    && q.lost == s.lost + (if q.freed && q.result != 0 then AsSeq(Outgoing(s)) else [])
  }

  predicate IncomingSince(s: Shared, q: Shared) {
    && s.incoming <= q.incoming
    && var arrived := AsSeq(Incoming(s)) + q.incoming[|s.incoming|..];
       if q.freed then q.missed == s.missed + arrived
       else q.missed == s.missed && AsSeq(Incoming(q)) == arrived
  }

  lemma SinceStarts(s: Shared, t: nat)
    requires Dropped(s, t)
    ensures Since(s, s)
  {
    DroppedFacts(s, t);
    if s.holder.ByThread? {
      assert Handles(s, s.holder.t) && Local(s, s.threads[s.holder.t].pc);
      assert s.threads[s.holder.t].handles == 0;
    }
  }

  lemma SinceStep(s: Shared, q: Shared, l: Label)
    requires Inv(s) && Inv(q) && !Alive(q) && Since(s, q) && Enabled(q, l)
    ensures Since(s, Apply(q, l))
  {
    OnlyLateSteps(q, l);
    StepFlow(q, l);
    if l.StopReturns? {
      DroppedFacts(q, l.t);
      FreeingLosesWhatIsUnderWay(q, l.t);
    }
  }

  lemma {:induction false} SinceHolds(s: Shared, t: nat, ls: seq<Label>)
    requires Dropped(s, t) && Exec(s, ls).Some?
    ensures var q := Exec(s, ls).value;
            Inv(q) && !Alive(q) && Since(s, q)
  {
    if ls == [] {
      DroppedFacts(s, t);
      SinceStarts(s, t);
    } else {
      var q, l := Exec(s, ls[..|ls| - 1]).value, ls[|ls| - 1];
      SinceHolds(s, t, ls[..|ls| - 1]);
      StepInv(q, l);
      StaysWithoutHandles(q, l);
      SinceStep(s, q, l);
    }
  }

  /**
   * Which message the last drop loses: the one whose send was under way when the last handle was dropped,
   * and exactly if that send fails; if it succeeds, NNG has taken the message. Every message received for
   * the AIO and not yet read by its callback then, or received later, is left behind too.
   */
  lemma LastDropLosesItsFailedSend(s: Shared, t: nat, ls: seq<Label>)
    requires Dropped(s, t) && Exec(s, ls).Some? && Exec(s, ls).value.freed
    ensures var r := Exec(s, ls).value;
            && r.lost == s.lost + (if r.result != 0 then AsSeq(Outgoing(s)) else [])
            && r.consumed == s.consumed + (if r.result == 0 then AsSeq(Outgoing(s)) else [])
            && s.incoming <= r.incoming
            && r.missed == s.missed + (AsSeq(Incoming(s)) + r.incoming[|s.incoming|..])
            && r.bounced == s.bounced && r.received == s.received
  {
    SinceHolds(s, t, ls);
  }
}
