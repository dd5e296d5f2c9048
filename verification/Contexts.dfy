/**
 * The Rust side as code: `Aio`, `Context` and `Socket` methods over mutable fields, interleaved with NNG.
 *
 * The class stands for a `ContextfulSocket` (an `Aio` and a `Context`), and in the same way for a
 * `Socket`, whose methods are the same statements. `run` records the atomic steps taken so far; `Valid`
 * says that replaying them on the endpoint machine gives exactly the fields of the object, so whatever
 * is proved about runs of the machine holds here.
 */
module Contexts {
  import opened Options
  import opened Endpoints
  import EndpointRuns

  datatype WaitEnd = Ok | Err(errno: nat) | FutureDropped

  datatype Sent = Accepted | NotSent(errno: nat, m: Msg) | SendDropped

  datatype Received = Got(m: Msg) | Failed(errno: nat) | ReceiveDropped

  /** `TryPanicked`: the match of `try_recv_msg` declares the result impossible. */
  datatype Tried = TryGot(m: Msg) | WouldBlock | TryFailed(errno: nat) | TryPanicked(errno: nat)

  const ETIMEDOUT: nat := 5
  const EAGAIN: nat := 8
  const ENOTSUP: nat := 9
  const ESTATE: nat := 11

  /** The result code of the non-blocking receive that leads to `r`; 0 also for a message from the stash. */
  function ResultOf(r: Tried): nat {
    match r
    case TryGot(_) => 0
    case WouldBlock => EAGAIN
    case TryFailed(e) => e
    case TryPanicked(e) => e
  }

  /** Neither dropped nor unwound by a panic. */
  ghost predicate Live(s: Endpoint) {
    s.pc != Gone && s.pc != Panicked
  }

  /** What NNG's threads may have done to an endpoint between two steps of the future that uses it. */
  ghost predicate Served(s: Endpoint, t: Endpoint) {
    && (t.pc == s.pc || (s.pc.Parked? && t.pc == Woken(s.pc.kind)))
    && t.stash == s.stash && t.msgWasSet == s.msgWasSet && t.delivered == s.delivered
    && (Op(s) == Some(Sending) ==> t.owns == s.owns || t.owns == None)
    && (s.phase == Quiet ==> t.phase == Quiet && t.slot == s.slot && t.result == s.result && t.permit == s.permit)
  }

  /** The last step of the run `ls`. */
  ghost predicate EndsWith(ls: seq<Label>, l: Label) {
    exists ks :: ls == ks + [l]
  }

  class ContextfulSocket {
    // the nng_aio
    var phase: Phase
    var slot: Option<Msg>
    var result: nat
    // the Aio around it
    var permit: bool     // Notify: a stored notification
    var waiting: bool    // Notify: our waiter is registered
    var woken: bool      // Notify: our waiter was picked, and has not been polled since
    var msgWasSet: bool
    // the Context
    var recovered: Option<Msg>
    // what NNG has queued for it
    var queue: seq<Msg>

    ghost var run: seq<Label>

    ghost predicate Shows(e: Endpoint)
      reads this
    {
      && phase == e.phase && slot == e.slot && result == e.result && permit == e.permit
      && waiting == e.pc.Parked? && woken == e.pc.Woken?
      && msgWasSet == e.msgWasSet && recovered == e.stash && queue == e.queue
    }

    ghost predicate Valid()
      reads this
    {
      Exec(Fresh, run).Some? && Shows(Exec(Fresh, run).value)
    }

    ghost function State(): Endpoint
      reads this
      requires Exec(Fresh, run).Some?
    {
      Exec(Fresh, run).value
    }

    constructor ()
      ensures Valid() && State() == Fresh
    {
      phase, slot, result := Quiet, None, 0;
      permit, waiting, woken, msgWasSet := false, false, false, false;
      recovered := None;
      queue := [];
      run := [];
    }

    lemma StateInv()
      requires Exec(Fresh, run).Some?
      ensures Inv(State())
    {
      EndpointRuns.ExecInv(Fresh, run);
    }

    /** The fields have just been changed the way step `l` changes the machine. */
    ghost method Step(l: Label)
      requires Exec(Fresh, run).Some? && Enabled(State(), l) && Shows(Apply(State(), l))
      modifies this`run
      ensures Valid() && run == old(run) + [l] && State() == Apply(old(State()), l)
    {
      assert (run + [l])[..|run|] == run;
      run := run + [l];
    }

    // ----- NNG -----

    /** One step of NNG's threads, or none. */
    method NngStep()
      requires Valid() && Live(State())
      modifies this
      ensures Valid() && old(run) <= run && Served(old(State()), State())
    {
      StateInv();
      var choice: nat := *;
      if choice == 0 {
        var m: Msg := *;
        queue := queue + [m];
        Step(Arrive(m));
      } else if choice == 1 {
        queue := [];
        Step(Flush);
      } else if phase.Pending? {
        var errno: nat := *;
        NngCompletes(errno);
      } else if phase.Finished? {
        NngCallsBack();
      } else if phase.InCallback? {
        NngReturns();
      }
    }

    /** The operation completes, with success only where that is possible. */
    method NngCompletes(e: nat)
      requires Valid() && phase.Pending? && Live(State())
      modifies this
      ensures Valid() && old(run) <= run && Served(old(State()), State()) && phase.Finished?
    {
      if phase.kind == Sending {
        NngSends(e);
      } else {
        NngReceives(if e == 0 && queue == [] then 5 else e);
      }
    }

    /** A successful send may leave the pointer in the slot; a new request makes NNG drop older answers. */
    method NngSends(errno: nat)
      requires Valid() && phase == Pending(Sending) && Live(State())
      modifies this
      ensures Valid() && old(run) <= run && Served(old(State()), State()) && phase.Finished?
      ensures if errno == 0
              then State().owns == None && (slot == None || slot == old(slot)) && (queue == [] || queue == old(queue))
              else State().owns == old(State()).owns && slot == old(slot) && queue == old(queue)
      ensures result == errno && recovered == old(recovered) && msgWasSet == old(msgWasSet)
    {
      StateInv();
      var stale: bool := *;
      var flush: bool := *;
      phase := Finished(Sending);
      result := errno;
      if errno == 0 && !stale {
        slot := None;
      }
      if errno == 0 && flush {
        queue := [];
      }
      Step(Complete(errno, stale, flush && errno == 0));
    }

    method NngReceives(errno: nat)
      requires Valid() && phase == Pending(Receiving) && Live(State())
      requires errno == 0 ==> queue != []
      modifies this
      ensures if errno == 0 then slot == Some(old(queue)[0]) && queue == old(queue)[1..]
              else slot == old(slot) && queue == old(queue)
      ensures result == errno && recovered == old(recovered) && msgWasSet == old(msgWasSet)
      ensures Valid() && old(run) <= run && Served(old(State()), State()) && phase.Finished?
    {
      StateInv();
      phase := Finished(Receiving);
      result := errno;
      if errno == 0 {
        slot := Some(queue[0]);
        queue := queue[1..];
      }
      Step(Complete(errno, false, false));
    }

    /** The callback runs: `notify_on_call`. */
    method NngCallsBack()
      requires Valid() && phase.Finished? && Live(State())
      modifies this
      ensures if old(waiting) then woken && !waiting && permit == old(permit)
              else permit && woken == old(woken) && !waiting
      ensures Valid() && old(run) <= run && Served(old(State()), State()) && phase.InCallback?
    {
      StateInv();
      phase := InCallback(phase.kind);
      if waiting {
        waiting, woken := false, true;
      } else {
        permit := true;
      }
      Step(Callback);
    }

    method NngReturns()
      requires Valid() && phase.InCallback? && Live(State())
      modifies this
      ensures Valid() && old(run) <= run && Served(old(State()), State()) && phase == Quiet
    {
      StateInv();
      phase := Quiet;
      Step(CallbackReturn);
    }

    /** NNG's threads run for a while. */
    method Interfere()
      requires Valid() && Live(State())
      modifies this
      ensures Valid() && old(run) <= run && Served(old(State()), State())
    {
      var rounds: nat :| rounds >= 0;
      for i := 0 to rounds
        invariant Valid() && old(run) <= run && Served(old(State()), State())
      {
        NngStep();
      }
    }

    /** nng_aio_wait: returns when the operation has completed and its callback has returned. */
    method NngAioWait()
      requires Valid() && Live(State())
      modifies this
      ensures Valid() && old(run) <= run && Served(old(State()), State()) && phase == Quiet
    {
      Interfere();
      if phase.Pending? {
        var errno: nat := *;
        NngCompletes(errno);
      }
      NngDrains();
    }

    method NngDrains()
      requires Valid() && !phase.Pending? && Live(State())
      modifies this
      ensures Valid() && old(run) <= run && Served(old(State()), State()) && phase == Quiet
    {
      if phase.Finished? {
        NngCallsBack();
      }
      if phase.InCallback? {
        NngReturns();
      }
    }

    // ----- Aio -----

    /** `Aio::set_message` */
    method SetMessage(m: Msg) returns (prev: Option<Msg>)
      requires phase == Quiet && (!msgWasSet ==> slot == None)
      modifies this`slot, this`msgWasSet
      ensures slot == Some(m) && msgWasSet
      ensures prev == if old(msgWasSet) then old(slot) else None
    {
      prev := None;
      if msgWasSet {
        prev := slot;
      }
      slot := Some(m);
      msgWasSet := true;
    }

    /** `Aio::take_message` */
    method TakeMessage() returns (m: Option<Msg>)
      requires phase == Quiet
      modifies this`slot, this`msgWasSet
      ensures m == old(slot) && slot == None
      ensures msgWasSet == (old(slot).None? && old(msgWasSet))
    {
      m := slot;
      if m.None? {
        return;
      }
      slot := None;
      msgWasSet := false;
    }

    /** The first poll of `Notified`: takes a stored notification, or registers the waiter. */
    method PollNotified(k: Kind) returns (ready: bool)
      requires Valid() && State().pc == Started(k)
      modifies this
      ensures old(run) <= run
      ensures ready == old(permit) && !permit && waiting == !ready
      ensures Valid() && State() == old(State()).(permit := false, pc := if ready then Draining(k) else Parked(k))
    {
      StateInv();
      ready := permit;
      if permit {
        permit := false;
      } else {
        waiting := true;
      }
      Step(PollFirst);
    }

    /** Dropping the suspended future: a notification that was handed to it goes back. */
    method DropNotified(k: Kind)
      requires Valid() && (State().pc == Parked(k) || State().pc == Woken(k))
      modifies this
      ensures old(run) <= run
      ensures permit == (old(permit) || old(woken)) && !waiting && !woken
      ensures Valid() && State() == old(State()).(permit := permit, pc := Cancelling(k))
    {
      permit := permit || woken;
      waiting, woken := false, false;
      Step(DropFuture);
    }

    /** NNG finishes the operation of a suspended future: its callback wakes the waiter. */
    method NngWakes(k: Kind)
      requires Valid() && (State().pc == Parked(k) || State().pc == Woken(k))
      modifies this
      ensures Valid() && old(run) <= run && Served(old(State()), State()) && State().pc == Woken(k)
    {
      StateInv();
      if phase.Pending? {
        var errno: nat := *;
        NngCompletes(errno);
      }
      if phase.Finished? {
        NngCallsBack();
      }
      StateInv();
    }

    /** The poll after the waiter was woken. */
    method PollWokenWaiter(k: Kind)
      requires Valid() && State().pc == Woken(k)
      modifies this
      ensures run == old(run) + [PollWoken] && !woken
      ensures Valid() && State() == old(State()).(pc := Draining(k))
    {
      woken := false;
      Step(PollWoken);
    }

    /**
     * The await in `wait`: true when the notification came, false when the future was dropped while
     * suspended. A future that is kept is notified, once NNG has finished the operation.
     */
    method Await(k: Kind, kept: bool) returns (notified: bool)
      requires Valid() && State().pc == Started(k)
      modifies this
      ensures old(run) <= run && (kept ==> notified)
      ensures Valid() && State().stash == old(State().stash) && State().delivered == old(State().delivered)
      ensures k == Sending ==> State().owns == old(State().owns) || State().owns == None
      ensures State().pc == if notified then Draining(k) else Cancelling(k)
    {
      Interfere();
      notified := PollNotified(k);
      if !notified {
        Interfere();
        if kept {
          NngWakes(k);
        }
        var polledAgain: bool := *;
        if woken && (kept || polledAgain) {
          PollWokenWaiter(k);
          notified := true;
        } else {
          DropNotified(k);
        }
      }
    }

    /** A fresh `Notified` is polled once; it must be ready. */
    method EatNotification(k: Kind)
      requires Valid() && State().pc == Eating(k)
      modifies this
      ensures old(run) <= run
      ensures Valid() && State() == old(State()).(permit := false, pc := Deciding(k))
    {
      StateInv();
      assert permit;
      permit := false;
      Step(EatPermit);
    }

    /** The match on (msg_was_set, errno). */
    method Decide(k: Kind)
      requires Valid() && State().pc == Deciding(k)
      modifies this
      ensures run == old(run) + [CancelTable]
      ensures Valid() && State().pc == (if k == Receiving then Guarding else Resting)
      ensures State().stash == old(State().stash) && State().delivered == old(State().delivered)
    {
      StateInv();
      if msgWasSet && result == 0 {
        slot := None;
        msgWasSet := false;
      } else if msgWasSet {
        var _ := TakeMessage();
      }
      Step(CancelTable);
    }

    /** The cancellation guard of `wait`. */
    method CancelWait(k: Kind)
      requires Valid() && State().pc == Cancelling(k)
      modifies this
      ensures old(run) <= run && EndsWith(run, CancelTable)
      ensures Valid() && State().pc == (if k == Receiving then Guarding else Resting)
      ensures k == Sending ==> State().owns == None
      ensures State().stash == old(State().stash) && State().delivered == old(State().delivered)
    {
      NngAioWait();
      Step(CancelWaited);
      EatNotification(k);
      Decide(k);
      StateInv();
    }

    /** The end of `wait` after the notification: no operation runs any more, and its result is read. */
    method Settle(k: Kind) returns (r: WaitEnd)
      requires Valid() && State().pc == Draining(k)
      modifies this
      ensures old(run) <= run
      ensures Exec(Fresh, run).Some? && State().pc == Settled(k)
      ensures State().stash == old(State().stash) && State().delivered == old(State().delivered)
      ensures k == Sending ==> State().owns == old(State().owns) || State().owns == None
      ensures r == if State().result == 0 then Ok else Err(State().result)
      ensures if r.Ok? && k == Sending then Shows(State().(slot := None, msgWasSet := false)) else Valid()
    {
      NngAioWait();
      Step(Drained);
      if result == 0 {
        if k == Sending {
          slot := None;
          msgWasSet := false;
        }
        return Ok;
      }
      return Err(result);
    }

    /**
     * `Aio::wait`. A sent message leaves the slot at once; otherwise the caller still has to take what
     * there is to take, in the same step.
     */
    method Wait(k: Kind, kept: bool) returns (r: WaitEnd)
      requires Valid() && State().pc == Started(k)
      modifies this
      ensures old(run) <= run && (kept ==> !r.FutureDropped?)
      ensures Exec(Fresh, run).Some?
      ensures State().stash == old(State().stash) && State().delivered == old(State().delivered)
      ensures k == Sending ==> State().owns == old(State().owns) || State().owns == None
      ensures State().pc == if !r.FutureDropped? then Settled(k) else if k == Receiving then Guarding else Resting
      ensures if r.FutureDropped? then EndsWith(run, CancelTable)
              else r == if State().result == 0 then Ok else Err(State().result)
      ensures if r.Ok? && k == Sending then Shows(State().(slot := None, msgWasSet := false)) else Valid()
    {
      var notified := Await(k, kept);
      if notified {
        r := Settle(k);
      } else {
        CancelWait(k);
        r := FutureDropped;
      }
    }

    // ----- Context and Socket -----

    /** The first half of `send_msg`: the slot was empty, so `set_message` drops nothing. */
    method StageMessage(m: Msg) returns (prev: Option<Msg>)
      requires Valid() && State().pc == Resting
      modifies this
      ensures prev == None && slot == Some(m) && msgWasSet
      ensures run == old(run) + [CallSend(m)]
      ensures Valid() && State().pc == Staged && State().owns == Some(m)
      ensures State().delivered == old(State().delivered) && State().stash == old(State().stash)
    {
      StateInv();
      prev := SetMessage(m);
      Step(CallSend(m));
    }

    method StartStaged()
      requires Valid() && State().pc == Staged
      modifies this
      ensures run == old(run) + [StartSend]
      ensures Valid() && State().pc == Started(Sending) && State().owns == old(State().owns)
      ensures State().delivered == old(State().delivered) && State().stash == old(State().stash)
    {
      StateInv();
      phase := Pending(Sending);
      Step(StartSend);
    }

    /** After a send that `wait` reported as successful. */
    method SendSucceeds()
      requires Exec(Fresh, run).Some? && State().pc == Settled(Sending) && State().result == 0
      requires Shows(State().(slot := None, msgWasSet := false))
      modifies this
      ensures run == old(run) + [Return]
      ensures Valid() && State().pc == Resting && State().result == 0
      ensures State().delivered == old(State().delivered) && State().stash == old(State().stash)
    {
      StateInv();
      Step(Return);
    }

    /** After a failed send: the `expect` holds, and what comes back is the message that was put there. */
    method SendFails() returns (m: Msg)
      requires Valid() && State().pc == Settled(Sending) && State().result != 0
      modifies this
      ensures run == old(run) + [Return]
      ensures Valid() && State().pc == Resting && State().result == old(State().result)
      ensures old(State().owns) == Some(m)
      ensures State().delivered == old(State().delivered) && State().stash == old(State().stash)
    {
      StateInv();
      var taken := TakeMessage();
      assert taken == State().owns;
      m := taken.value;
      Step(Return);
    }

    /** `send_msg`: a failed send gives the same message back; a dropped one leaves nothing behind. */
    method SendMsg(m: Msg, kept: bool) returns (r: Sent)
      requires Valid() && State().pc == Resting
      modifies this
      ensures kept ==> !r.SendDropped?
      ensures Valid() && State().pc == Resting && EndpointRuns.Idle(State())
      ensures State().delivered == old(State().delivered) && recovered == old(recovered)
      ensures old(run) + [CallSend(m), StartSend] <= run
      ensures match r
              case Accepted => EndsWith(run, Return) && State().result == 0
              case NotSent(e, back) => EndsWith(run, Return) && State().result == e != 0 && back == m
              case SendDropped => EndsWith(run, CancelTable)
    {
      var _ := StageMessage(m);
      StartStaged();
      var w := Wait(Sending, kept);
      match w {
        case FutureDropped =>
          r := SendDropped;
        case Ok =>
          SendSucceeds();
          r := Accepted;
        case Err(e) =>
          var back := SendFails();
          r := NotSent(e, back);
      }
      RestingIdle();
    }

    /** Both receives begin with the stash. */
    method TakeStash(l: Label) returns (m: Msg)
      requires Valid() && State().pc == Resting && recovered.Some? && (l == CallRecv || l == CallTryRecv(0))
      modifies this
      ensures Valid() && State().pc == Resting && recovered == None && queue == old(queue)
      ensures m == old(recovered).value && run == old(run) + [l]
      ensures State().delivered == old(State().delivered) + [m]
    {
      m := recovered.value;
      recovered := None;
      Step(l);
    }

    /** After a receive that `wait` reported as successful: the `expect` holds. */
    method TakeReceived() returns (m: Msg)
      requires Valid() && State().pc == Settled(Receiving) && State().result == 0
      modifies this
      ensures run == old(run) + [Return]
      ensures Valid() && State().pc == Resting && recovered == None && State().result == 0
      ensures State().delivered == old(State().delivered) + [m]
    {
      StateInv();
      var taken := TakeMessage();
      assert taken.Some?;
      m := taken.value;
      Step(Return);
    }

    /** The guard of `recv_msg`, which runs after the guard of `wait`. */
    method StashReceived()
      requires Valid() && State().pc == Guarding
      modifies this
      ensures run == old(run) + [OuterGuard]
      ensures recovered == (if old(slot).Some? then old(slot) else old(recovered)) && slot == None
      ensures Valid() && State().pc == Resting && State().delivered == old(State().delivered)
    {
      StateInv();
      var taken := TakeMessage();
      if taken.Some? {
        recovered := taken;
      }
      Step(OuterGuard);
    }

    method ReceiveFails()
      requires Valid() && State().pc == Settled(Receiving) && State().result != 0
      modifies this
      ensures run == old(run) + [Return]
      ensures Valid() && State().pc == Resting && recovered == None && State().result == old(State().result)
      ensures State().delivered == old(State().delivered)
    {
      StateInv();
      Step(Return);
    }

    /** What `recv_msg` does with the outcome of `wait`, or its guard when there is none. */
    method FinishReceive(w: WaitEnd) returns (r: Received)
      requires Valid()
      requires State().pc == if w.FutureDropped? then Guarding else Settled(Receiving)
      requires !w.FutureDropped? ==> State().result == if w.Ok? then 0 else w.errno
      requires w.Err? ==> w.errno != 0
      modifies this
      ensures Valid() && State().pc == Resting && (!r.ReceiveDropped? ==> recovered == None)
      ensures run == old(run) + [if w.FutureDropped? then OuterGuard else Return]
      ensures State().delivered == old(State().delivered) + (if r.Got? then [r.m] else [])
      ensures match w
              case Ok => r.Got? && State().result == 0
              case Err(e) => r == Failed(e) && State().result == e
              case FutureDropped => r == ReceiveDropped
    {
      match w {
        case FutureDropped =>
          StashReceived();
          r := ReceiveDropped;
        case Err(e) =>
          ReceiveFails();
          r := Failed(e);
        case Ok =>
          var m := TakeReceived();
          r := Got(m);
      }
    }

    method StartReceive()
      requires Valid() && State().pc == Resting && recovered == None
      modifies this
      ensures run == old(run) + [CallRecv]
      ensures Valid() && State().pc == Started(Receiving) && State().delivered == old(State().delivered)
    {
      StateInv();
      phase := Pending(Receiving);
      Step(CallRecv);
    }

    lemma RestingIdle()
      requires Valid() && State().pc == Resting
      ensures EndpointRuns.Idle(State())
    {
      StateInv();
    }

    /** Between calls the endpoint is idle, and nothing that NNG accepted is missing. */
    lemma RestingState()
      requires Valid() && (State().pc == Resting || State().pc == Panicked)
      ensures EndpointRuns.Idle(State()) && State().accepted == State().delivered + AsSeq(recovered) + queue
    {
      StateInv();
      RestingBacklog(State());
    }

    /**
     * `recv_msg`: what was stashed comes back without an NNG operation; otherwise one message, an error, or
     * - when the future is dropped - nothing, and then a message that had arrived goes to the stash. In
     * every case what NNG accepted is what was delivered, then the stash, then NNG's queue.
     */
    method RecvMsg(kept: bool) returns (r: Received)
      requires Valid() && State().pc == Resting
      modifies this
      ensures kept ==> !r.ReceiveDropped?
      ensures Valid() && State().pc == Resting && EndpointRuns.Idle(State())
      ensures State().delivered == old(State().delivered) + (if r.Got? then [r.m] else [])
      ensures State().accepted == State().delivered + AsSeq(recovered) + queue
      ensures old(recovered).Some? ==>
                r == Got(old(recovered).value) && run == old(run) + [CallRecv] && queue == old(queue)
      ensures !r.ReceiveDropped? ==> recovered == None
      ensures old(run) + [CallRecv] <= run
      ensures old(recovered).None? ==>
                match r
                case Got(_) => EndsWith(run, Return) && State().result == 0
                case Failed(e) => EndsWith(run, Return) && State().result == e != 0
                case ReceiveDropped => EndsWith(run, OuterGuard)
    {
      if recovered.Some? {
        var m := TakeStash(CallRecv);
        RestingState();
        return Got(m);
      }
      StartReceive();
      var w := Wait(Receiving, kept);
      r := FinishReceive(w);
      RestingState();
    }

    /** The non-blocking receive of NNG, which gives a message only if one is queued, and the match on its result. */
    method NngTryRecv() returns (r: Tried)
      requires Valid() && State().pc == Resting && recovered == None
      modifies this
      ensures run == old(run) + [CallTryRecv(ResultOf(r))]
      ensures Valid() && recovered == None && State().pc == if r.TryPanicked? then Panicked else Resting
      ensures Handled(ResultOf(r)) <==> !r.TryPanicked?
      ensures r == WouldBlock <==> run == old(run) + [CallTryRecv(8)]
      ensures r.TryFailed? ==> r.errno == 5 || r.errno == 9 || r.errno == 11
      ensures if r.TryGot? then old(queue) == [r.m] + queue else queue == old(queue)
      ensures State().delivered == old(State().delivered) + (if r.TryGot? then [r.m] else [])
    {
      StateInv();
      var errno: nat := *;
      if errno == 0 && queue == [] {
        errno := EAGAIN;
      }
      if errno == 0 {
        r := TryGot(queue[0]);
        queue := queue[1..];
      } else if errno == EAGAIN {
        r := WouldBlock;
      } else if errno == ENOTSUP || errno == ESTATE || errno == ETIMEDOUT {
        r := TryFailed(errno);
      } else {
        r := TryPanicked(errno);
      }
      Step(CallTryRecv(errno));
    }

    /** `try_recv_msg`: the stash first, then NNG's queue, without waiting; a panic loses nothing either. */
    method TryRecvMsg() returns (r: Tried)
      requires Valid() && State().pc == Resting
      modifies this
      ensures Valid() && EndpointRuns.Idle(State()) && recovered == None
      ensures State().pc == if r.TryPanicked? then Panicked else Resting
      ensures State().delivered == old(State().delivered) + (if r.TryGot? then [r.m] else [])
      ensures State().accepted == State().delivered + AsSeq(recovered) + queue
      ensures old(recovered).Some? ==> r == TryGot(old(recovered).value) && queue == old(queue)
      ensures run == old(run) + [CallTryRecv(ResultOf(r))]
      ensures Handled(ResultOf(r)) <==> !r.TryPanicked?
      ensures r == WouldBlock <==> run == old(run) + [CallTryRecv(8)]
      ensures r.TryFailed? ==> r.errno == 5 || r.errno == 9 || r.errno == 11
    {
      if recovered.Some? {
        var m := TakeStash(CallTryRecv(0));
        r := TryGot(m);
      } else {
        r := NngTryRecv();
      }
      RestingState();
    }
  }
}
