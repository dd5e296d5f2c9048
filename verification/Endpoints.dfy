/**
 * The cancellation-safe AIO protocol of `anng`, one endpoint at a time.
 *
 * An endpoint is one `Aio` with the `recovered_msg` stash beside it (a `Context` with its AIO, or a
 * `Socket`) and the part of NNG that serves it. Everything the Rust side, the NNG worker threads and
 * the tokio runtime may do is a `Label`; `Enabled` says when, `Apply` says what changes.
 * `unreachable!`, `expect` and the `debug_assert`s lead to the program counter `Panicked`.
 */
module Endpoints {
  import opened Options

  /** The identity of one `nng_msg`. */
  type Msg = nat

  datatype Kind = Sending | Receiving

  /** NNG's view of the AIO: idle, working, completed with the callback still queued, or in the callback. */
  datatype Phase = Quiet | Pending(kind: Kind) | Finished(kind: Kind) | InCallback(kind: Kind)

  /** Where the future that uses the AIO is. `kind` is the operation whose code is being executed. */
  datatype Pc =
    | Resting                 // no future is using the AIO
    | Staged                  // send_msg: set_message done, nng_ctx_send comes next
    | Started(kind: Kind)     // operation started, `Notified` not polled yet
    | Parked(kind: Kind)      // suspended at the await, `Notified` registered as waiter
    | Woken(kind: Kind)       // suspended at the await, but notify_one has picked our waiter
    | Draining(kind: Kind)    // await over, guard forgotten, inside nng_aio_wait
    | Settled(kind: Kind)     // nng_aio_wait returned, about to read the result
    | Cancelling(kind: Kind)  // future dropped: nng_aio_cancel called, inside nng_aio_wait
    | Eating(kind: Kind)      // about to poll a fresh `Notified` to eat the notification
    | Deciding(kind: Kind)    // about to match on (msg_was_set, errno)
    | Guarding                // recv_msg's own guard is about to run
    | Gone                    // endpoint dropped
    | Panicked

  /**
   * `slot` is the pointer stored in the `nng_aio`; `owns` is the message the AIO is really responsible
   * for. The two differ when a sent message leaves a stale pointer behind. `accepted` logs what NNG
   * queued for this endpoint and did not discard, `delivered` what receive calls returned, `started`
   * and `fired` count operations and callbacks.
   */
  datatype Endpoint = Endpoint(
    phase: Phase, slot: Option<Msg>, owns: Option<Msg>, result: nat,
    permit: bool, msgWasSet: bool,
    stash: Option<Msg>,
    pc: Pc,
    queue: seq<Msg>, accepted: seq<Msg>, delivered: seq<Msg>,
    started: nat, fired: nat)

  const Fresh: Endpoint :=
    Endpoint(Quiet, None, None, 0, false, false, None, Resting, [], [], [], 0, 0)

  datatype Label =
    // the future
    | CallSend(m: Msg)
    | StartSend
    | CallRecv
    | CallTryRecv(errno: nat)
    | PollFirst
    | PollWoken
    | Drained
    | Return
    // dropping the future
    | DropFuture
    | CancelWaited
    | EatPermit
    | CancelTable
    | OuterGuard
    // dropping the endpoint
    | Close
    // NNG
    | Arrive(m: Msg)
    | Complete(errno: nat, stale: bool, flush: bool)
    | Callback
    | CallbackReturn
    | Flush

  /** The results of the non-blocking receive that `try_recv_msg` handles: ok, ETIMEDOUT, EAGAIN, ENOTSUP, ESTATE. */
  predicate Handled(errno: nat) {
    errno == 0 || errno == 5 || errno == 8 || errno == 9 || errno == 11
  }

  predicate Enabled(s: Endpoint, l: Label) {
    && s.pc != Panicked && s.pc != Gone
    && match l
       case CallSend(_) => s.pc == Resting
       case StartSend => s.pc == Staged
       case CallRecv => s.pc == Resting
       case CallTryRecv(e) => s.pc == Resting && (e == 0 ==> s.stash.Some? || s.queue != [])
       case PollFirst => s.pc.Started?
       case PollWoken => s.pc.Woken?
       case Drained => s.pc.Draining? && s.phase == Quiet
       case Return => s.pc.Settled?
       case DropFuture => s.pc.Parked? || s.pc.Woken?
       case CancelWaited => s.pc.Cancelling? && s.phase == Quiet
       case EatPermit => s.pc.Eating?
       case CancelTable => s.pc.Deciding?
       case OuterGuard => s.pc == Guarding
       case Close => s.pc == Resting
       case Arrive(_) => true
       case Complete(e, stale, flush) =>
         && s.phase.Pending?
         && (e == 0 && s.phase.kind == Receiving ==> s.queue != [])
         && (e == 0 && s.phase.kind == Sending ==> s.slot.Some?)
         && (flush ==> e == 0 && s.phase.kind == Sending)
       case Callback => s.phase.Finished?
       case CallbackReturn => s.phase.InCallback?
       case Flush => true
  }

  function Panic(s: Endpoint): Endpoint {
    s.(pc := Panicked)
  }

  /** `Aio::take_message`: empties the slot and clears the flag when there was a message. */
  function Take(s: Endpoint): Endpoint {
    if s.slot.None? then s else s.(slot := None, msgWasSet := false, owns := None)
  }

  /** A receive call hands `m` to its caller. */
  function Deliver(s: Endpoint, m: Msg): Endpoint {
    s.(delivered := s.delivered + [m], pc := Resting)
  }

  /** NNG throws away what is queued for the endpoint. */
  function Discard(s: Endpoint): Endpoint {
    s.(queue := [],
       accepted := if |s.queue| <= |s.accepted| then s.accepted[..|s.accepted| - |s.queue|] else [])
  }

  function Begin(s: Endpoint, k: Kind): Endpoint {
    if s.phase != Quiet then Panic(s)
    else s.(phase := Pending(k), pc := Started(k), started := s.started + 1)
  }

  /** The end of `wait` and of the send_msg or recv_msg around it. */
  function Returned(s: Endpoint, k: Kind): Endpoint {
    if s.phase != Quiet then Panic(s)
    else if s.result == 0 then
      match k
      case Sending => s.(slot := None, msgWasSet := false, pc := Resting)
      case Receiving => if s.slot.Some? then Deliver(Take(s), s.slot.value) else Panic(s)
    else
      match k
      case Sending => if s.slot.Some? then Take(s).(pc := Resting) else Panic(s)
      case Receiving => s.(pc := Resting)
  }

  /** The match on (msg_was_set, errno) in the cancellation guard: it looks at the flag, never at the kind. */
  function Decided(s: Endpoint, k: Kind): Endpoint {
    var after := if k == Receiving then Guarding else Resting;
    if s.phase != Quiet then Panic(s)
    else if s.msgWasSet && s.result == 0 then s.(slot := None, msgWasSet := false, pc := after)
    else if s.msgWasSet then Take(s).(pc := after)
    else s.(pc := after)
  }

  function Completed(s: Endpoint, k: Kind, e: nat, stale: bool): Endpoint
    requires e == 0 && k == Receiving ==> s.queue != []
  {
    var t := s.(phase := Finished(k), result := e);
    if e != 0 then t
    else if k == Receiving then t.(slot := Some(s.queue[0]), owns := Some(s.queue[0]), queue := s.queue[1..])
    else t.(slot := if stale then s.slot else None, owns := None)
  }

  function Apply(s: Endpoint, l: Label): Endpoint
    requires Enabled(s, l)
  {
    match l
    case CallSend(m) =>
      if s.phase != Quiet || (!s.msgWasSet && s.slot.Some?) then Panic(s)
      else s.(slot := Some(m), owns := Some(m), msgWasSet := true, pc := Staged)
    case StartSend => Begin(s, Sending)
    case CallRecv =>
      if s.stash.Some? then Deliver(s.(stash := None), s.stash.value) else Begin(s, Receiving)
    case CallTryRecv(e) =>
      if s.stash.Some? then Deliver(s.(stash := None), s.stash.value)
      else if e == 0 then Deliver(s.(queue := s.queue[1..]), s.queue[0])
      else if Handled(e) then s
      else Panic(s)
    case PollFirst =>
      if s.permit then s.(permit := false, pc := Draining(s.pc.kind)) else s.(pc := Parked(s.pc.kind))
    case PollWoken => s.(pc := Draining(s.pc.kind))
    case Drained => s.(pc := Settled(s.pc.kind))
    case Return => Returned(s, s.pc.kind)
    case DropFuture => s.(permit := s.permit || s.pc.Woken?, pc := Cancelling(s.pc.kind))
    case CancelWaited => s.(pc := Eating(s.pc.kind))
    case EatPermit => if s.permit then s.(permit := false, pc := Deciding(s.pc.kind)) else Panic(s)
    case CancelTable => Decided(s, s.pc.kind)
    case OuterGuard =>
      if s.phase != Quiet then Panic(s)
      else if s.slot.Some? then Take(s).(stash := s.slot, pc := Resting)
      else s.(pc := Resting)
    case Close => s.(stash := None, queue := [], pc := Gone)
    case Arrive(m) => s.(queue := s.queue + [m], accepted := s.accepted + [m])
    case Complete(e, stale, flush) =>
      var t := Completed(s, s.phase.kind, e, stale);
      if flush then Discard(t) else t
    case Callback =>
      var t := s.(phase := InCallback(s.phase.kind), fired := s.fired + 1);
      if s.pc.Parked? then t.(pc := Woken(s.pc.kind)) else t.(permit := true)
    case CallbackReturn => s.(phase := Quiet)
    case Flush => Discard(s)
  }

  /** The state after the run `ls` from `s`, or None when some label of it was not enabled. */
  function Exec(s: Endpoint, ls: seq<Label>): Option<Endpoint> {
    if ls == [] then Some(s)
    else
      match Exec(s, ls[..|ls| - 1])
      case None => None
      case Some(t) => if Enabled(t, ls[|ls| - 1]) then Some(Apply(t, ls[|ls| - 1])) else None
  }

  // ----- the inductive invariant -----

  /** The operation whose code is running, if any. */
  function Op(s: Endpoint): Option<Kind> {
    match s.pc
    case Staged => Some(Sending)
    case Guarding => Some(Receiving)
    case Started(k) => Some(k)
    case Parked(k) => Some(k)
    case Woken(k) => Some(k)
    case Draining(k) => Some(k)
    case Settled(k) => Some(k)
    case Cancelling(k) => Some(k)
    case Eating(k) => Some(k)
    case Deciding(k) => Some(k)
    case _ => None
  }

  /** The current operation's callback has called notify_one. */
  predicate Fired(s: Endpoint) {
    s.phase == Quiet || s.phase.InCallback?
  }

  predicate PhaseOf(s: Endpoint, k: Kind) {
    s.phase == Quiet || s.phase.kind == k
  }

  /** What the program counter says about the phase, the permit and the callback count. */
  predicate Control(s: Endpoint) {
    match s.pc
    case Resting => s.phase == Quiet && !s.permit && s.started == s.fired
    case Gone => s.phase == Quiet && !s.permit && s.started == s.fired
    case Staged => s.phase == Quiet && !s.permit && s.started == s.fired
    case Started(k) =>
      PhaseOf(s, k) && s.permit == Fired(s) && s.started == s.fired + (if Fired(s) then 0 else 1)
    case Parked(k) => PhaseOf(s, k) && !Fired(s) && !s.permit && s.started == s.fired + 1
    case Woken(k) => PhaseOf(s, k) && Fired(s) && !s.permit && s.started == s.fired
    case Draining(k) => PhaseOf(s, k) && Fired(s) && !s.permit && s.started == s.fired
    case Settled(_) => s.phase == Quiet && !s.permit && s.started == s.fired
    case Cancelling(k) =>
      PhaseOf(s, k) && s.permit == Fired(s) && s.started == s.fired + (if Fired(s) then 0 else 1)
    case Eating(_) => s.phase == Quiet && s.permit && s.started == s.fired
    case Deciding(_) => s.phase == Quiet && !s.permit && s.started == s.fired
    case Guarding => s.phase == Quiet && !s.permit && s.started == s.fired
    case Panicked => s.phase == Quiet && !s.permit && s.started == s.fired
  }

  /** What the operation says about the flag, the slot pointer, the real owner and the stash. */
  predicate Storage(s: Endpoint) {
    match Op(s)
    case None => !s.msgWasSet && s.slot == None && s.owns == None
    case Some(Sending) =>
      && s.msgWasSet
      && (if s.pc == Staged || s.phase.Pending? || s.result != 0
          then s.slot.Some? && s.owns == s.slot
          else s.owns == None)
    case Some(Receiving) =>
      && !s.msgWasSet && s.stash == None
      && s.owns == s.slot
      && (s.slot.Some? <==> !s.phase.Pending? && s.result == 0)
  }

  /** The message a running receive has already taken out of NNG's queue. */
  function Carried(s: Endpoint): seq<Msg> {
    if Op(s) == Some(Receiving) then AsSeq(s.owns) else []
  }

  /** Everything accepted and not yet delivered, oldest first: stash, then AIO slot, then NNG's queue. */
  function Backlog(s: Endpoint): seq<Msg> {
    AsSeq(s.stash) + Carried(s) + s.queue
  }

  predicate Inv(s: Endpoint) {
    && Control(s)
    && Storage(s)
    && (s.pc == Gone ==> s.stash == None && s.queue == [])
    && (s.pc != Gone ==> s.accepted == s.delivered + Backlog(s))
  }

  /** A try-receive that finds the stash empty and gets a result its match declares impossible. */
  predicate Unforeseen(s: Endpoint, l: Label) {
    l.CallTryRecv? && s.stash.None? && !Handled(l.errno)
  }

  /** Of all `unreachable!`s, `expect`s and assertions only those of `try_recv_msg` can be hit, on such a result. */
  lemma StepPanicsIffUnforeseen(s: Endpoint, l: Label)
    requires Inv(s) && Enabled(s, l)
    ensures Apply(s, l).pc == Panicked <==> Unforeseen(s, l)
  {
  }

  /** Steps taken by NNG's threads rather than by the code that holds `&mut Aio`. */
  predicate IsNng(l: Label) {
    l.Arrive? || l.Complete? || l.Callback? || l.CallbackReturn? || l.Flush?
  }

  lemma NngKeepsControl(s: Endpoint, l: Label)
    requires Control(s) && Enabled(s, l) && IsNng(l)
    ensures Control(Apply(s, l))
  {
  }

  lemma FutureKeepsControl(s: Endpoint, l: Label)
    requires Control(s) && Storage(s) && Enabled(s, l) && !IsNng(l)
    ensures Control(Apply(s, l))
  {
  }

  lemma NngKeepsStorage(s: Endpoint, l: Label)
    requires Control(s) && Storage(s) && Enabled(s, l) && IsNng(l)
    ensures Storage(Apply(s, l))
  {
  }

  lemma FutureKeepsStorage(s: Endpoint, l: Label)
    requires Control(s) && Storage(s) && Enabled(s, l) && !IsNng(l)
    ensures Storage(Apply(s, l))
  {
  }

  /** The message a step hands to the caller of a receive, if it does. */
  function Delivers(s: Endpoint, l: Label): Option<Msg> {
    match l
    case CallRecv => s.stash
    case CallTryRecv(e) =>
      if s.stash.Some? then s.stash else if e == 0 && s.queue != [] then Some(s.queue[0]) else None
    case Return => if s.pc == Settled(Receiving) && s.result == 0 then s.slot else None
    case _ => None
  }

  predicate Discards(l: Label) {
    l.Flush? || (l.Complete? && l.flush)
  }

  /** How a step moves the three parts of the backlog: every step not listed leaves each part alone. */
  predicate Moves(s: Endpoint, l: Label, t: Endpoint) {
    match l
    case Arrive(m) => t.stash == s.stash && Carried(t) == Carried(s) && t.queue == s.queue + [m]
    case Complete(e, _, flush) =>
      && t.stash == s.stash && s.phase.Pending?
      && (if e == 0 && s.phase.kind == Receiving
          then s.queue != [] && !flush && Carried(s) == [] && Carried(t) == [s.queue[0]] && t.queue == s.queue[1..]
          else Carried(t) == Carried(s) && t.queue == if flush then [] else s.queue)
    case Flush => t.stash == s.stash && Carried(t) == Carried(s) && t.queue == []
    case OuterGuard =>
      s.stash == None && Carried(t) == [] && AsSeq(t.stash) == Carried(s) && t.queue == s.queue
    case Return =>
      && t.stash == s.stash && t.queue == s.queue && Carried(t) == []
      && Carried(s) == AsSeq(Delivers(s, l))
      && (Carried(s) != [] ==> s.stash == None)
    case CallRecv => Carried(s) == Carried(t) == [] && t.stash == None && t.queue == s.queue
    case CallTryRecv(e) =>
      && Carried(s) == Carried(t) == [] && t.stash == None
      && (if s.stash == None && e == 0 then s.queue != [] && t.queue == s.queue[1..] else t.queue == s.queue)
    case _ => t.stash == s.stash && Carried(t) == Carried(s) && t.queue == s.queue
  }

  lemma StepMoves(s: Endpoint, l: Label)
    requires Inv(s) && Enabled(s, l) && l != Close
    ensures Moves(s, l, Apply(s, l))
  {
  }

  lemma StepDelivered(s: Endpoint, l: Label)
    requires Inv(s) && Enabled(s, l)
    ensures Apply(s, l).delivered == s.delivered + AsSeq(Delivers(s, l))
  {
  }

  /** What an atomic queue holding `b` becomes on the step `l`, before a delivery takes its head. */
  function QueueAfter(s: Endpoint, l: Label, b: seq<Msg>): seq<Msg>
    requires |s.queue| <= |b|
  {
    if l.Arrive? then b + [l.m] else if Discards(l) then b[..|b| - |s.queue|] else b
  }

  lemma NngMovesRefineQueue(s: Endpoint, l: Label, t: Endpoint)
    requires Moves(s, l, t) && (l.Arrive? || l.Complete? || l.Flush?)
    ensures AsSeq(Delivers(s, l)) + Backlog(t) == QueueAfter(s, l, Backlog(s))
  {
    var held := AsSeq(s.stash) + Carried(s);
    if Discards(l) {
      assert Backlog(s)[..|held|] == held;
    } else if l.Complete? && l.errno == 0 && s.phase.kind == Receiving {
      assert [s.queue[0]] + s.queue[1..] == s.queue;
    } else if l.Arrive? {
      assert Backlog(t) == Backlog(s) + [l.m];
    }
  }

  lemma FutureMovesRefineQueue(s: Endpoint, l: Label, t: Endpoint)
    requires Moves(s, l, t) && !l.Arrive? && !l.Complete? && !l.Flush?
    ensures AsSeq(Delivers(s, l)) + Backlog(t) == Backlog(s)
  {
    var d := AsSeq(Delivers(s, l));
    if l.CallTryRecv? && d != [] && s.stash == None {
      assert d + s.queue[1..] == s.queue;
    } else {
      assert d + AsSeq(t.stash) + Carried(t) == AsSeq(s.stash) + Carried(s);
    }
  }

  lemma MovesRefineQueue(s: Endpoint, l: Label, t: Endpoint)
    requires Moves(s, l, t)
    ensures AsSeq(Delivers(s, l)) + Backlog(t) == QueueAfter(s, l, Backlog(s))
  {
    if l.Arrive? || l.Complete? || l.Flush? {
      NngMovesRefineQueue(s, l, t);
    } else {
      FutureMovesRefineQueue(s, l, t);
    }
  }

  /**
   * Forward simulation of an atomic queue: seen through (Backlog, delivered) a step appends the
   * arriving message, moves the head to `delivered`, lets NNG cut off its own tail, or does nothing.
   */
  lemma StepRefinesQueue(s: Endpoint, l: Label)
    requires Inv(s) && Enabled(s, l) && l != Close
    ensures var t := Apply(s, l);
            && t.delivered == s.delivered + AsSeq(Delivers(s, l))
            && AsSeq(Delivers(s, l)) + Backlog(t) == QueueAfter(s, l, Backlog(s))
  {
    StepMoves(s, l);
    MovesRefineQueue(s, l, Apply(s, l));
    StepDelivered(s, l);
  }

  lemma QueueFitsLog(s: Endpoint)
    requires Inv(s) && s.pc != Gone
    ensures |s.queue| <= |s.accepted|
  {
    assert |s.accepted| == |s.delivered| + |AsSeq(s.stash)| + |Carried(s)| + |s.queue|;
  }

  lemma LogMoves(s: Endpoint, l: Label)
    requires Enabled(s, l) && |s.queue| <= |s.accepted|
    ensures Apply(s, l).accepted == QueueAfter(s, l, s.accepted)
  {
  }

  lemma StepAccepted(s: Endpoint, l: Label)
    requires Inv(s) && Enabled(s, l)
    ensures |s.queue| <= |s.accepted| && Apply(s, l).accepted == QueueAfter(s, l, s.accepted)
  {
    QueueFitsLog(s);
    LogMoves(s, l);
  }

  /** Between calls nothing that NNG accepted is missing: it was delivered, is stashed, or is queued. */
  lemma RestingBacklog(s: Endpoint)
    requires Inv(s) && s.pc != Gone && Op(s) == None
    ensures s.accepted == s.delivered + AsSeq(s.stash) + s.queue
  {
    assert AsSeq(s.stash) + [] + s.queue == AsSeq(s.stash) + s.queue;
    assert s.delivered + (AsSeq(s.stash) + s.queue) == s.delivered + AsSeq(s.stash) + s.queue;
  }

  /** An atomic queue's log and contents agree before a step, so they agree after it. */
  lemma LogFollows(s: Endpoint, l: Label, done: seq<Msg>, d: seq<Msg>, b: seq<Msg>, c: seq<Msg>)
    requires |s.queue| <= |b| && d + c == QueueAfter(s, l, b)
    ensures QueueAfter(s, l, done + b) == (done + d) + c
  {
    assert QueueAfter(s, l, done + b) == done + QueueAfter(s, l, b);
  }

  lemma StepInv(s: Endpoint, l: Label)
    requires Inv(s) && Enabled(s, l)
    ensures Inv(Apply(s, l))
  {
    if IsNng(l) {
      NngKeepsControl(s, l);
      NngKeepsStorage(s, l);
    } else {
      FutureKeepsControl(s, l);
      FutureKeepsStorage(s, l);
    }
    if l != Close {
      StepRefinesQueue(s, l);
      StepAccepted(s, l);
      LogFollows(s, l, s.delivered, AsSeq(Delivers(s, l)), Backlog(s), Backlog(Apply(s, l)));
    }
  }
}
