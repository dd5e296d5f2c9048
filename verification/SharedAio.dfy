/**
 * The callback AIO of `nng`: one state word guarded by compare-and-swap, shared by any number of
 * cloned handles on any number of threads, and NNG's callbacks, which are threads of their own.
 *
 * Every atomic access, every NNG call and every message read is one step; steps of different threads
 * interleave freely. `unreachable!`, `unwrap` on a null pointer, a second operation started on a busy
 * `nng_aio` and any use of it after `nng_aio_free` lead to `Panicked`.
 */
module SharedAio {
  import opened Options

  type Msg = nat

  datatype Word = Inactive | Sending | Receiving | Sleeping

  datatype Op = SendOp | RecvOp | SleepOp

  datatype Outcome =
    | SendOk | SendErr(m: Msg, e: nat) | RecvOk(m: Msg) | RecvErr(e: nat) | SleepOk | SleepErr(e: nat)

  /** `op` in a callback's counter is the operation NNG ran; the code itself only sees the state word. */
  datatype Pc =
    | User                              // user code: no access to the AIO in progress
    | SendClaimed(m: Msg)               // compare-and-swap won, nng_aio_set_msg comes next
    | SendLoaded                        // message set, nng_socket_send or nng_ctx_send comes next
    | RecvClaimed
    | SleepClaimed
    | TimeoutClaimed
    | TimeoutSet                        // timeout stored, the state word still says Sleeping
    | Entered(op: Op)                   // callback entered, weak pointer not upgraded yet
    | Upgraded(op: Op)
    | Observed(op: Op, w: Word)         // state word loaded
    | Judged(op: Op, r: Outcome)        // result and message read, Inactive not stored yet
    | Dropping                          // Inner::drop, inside nng_aio_stop
    | Returned
    | Panicked

  /** A thread with the number of handles it owns; `inCallback`: NNG called it and it has not returned. */
  datatype Thread = Thread(pc: Pc, handles: nat, inCallback: bool)

  /** Who may touch the `nng_aio`: an auxiliary variable that no branch of the code looks at. */
  datatype Holder = Nobody | ByThread(t: nat) | ByNng(op: Op) | Orphan(op: Op)

  /**
   * `slot` is the stored message pointer, `owns` the message the AIO is really responsible for. The logs:
   * messages passed to send calls, returned with IncorrectState, returned by Send(Err), taken by NNG;
   * received by NNG for this AIO, handed out by Recv(Ok); left in the AIO when it was freed, from a send
   * (`lost`) or from a receive (`missed`).
   */
  datatype Shared = Shared(
    word: Word, running: Option<Op>, result: nat, slot: Option<Msg>, owns: Option<Msg>,
    threads: seq<Thread>, holder: Holder, freed: bool,
    given: seq<Msg>, rejected: seq<Msg>, bounced: seq<Msg>, consumed: seq<Msg>,
    incoming: seq<Msg>, received: seq<Msg>, lost: seq<Msg>, missed: seq<Msg>)

  const Fresh: Shared :=
    Shared(Inactive, None, 0, None, None, [Thread(User, 1, false)], Nobody, false, [], [], [], [], [], [], [], [])

  datatype Label =
    | Spawn
    | Clone(t: nat, u: nat)             // thread t clones a handle and gives it to thread u
    | DropHandle(t: nat)
    | CallSend(t: nat, m: Msg) | SetMsg(t: nat) | StartSend(t: nat)
    | CallRecv(t: nat) | StartRecv(t: nat)
    | CallSleep(t: nat) | StartSleep(t: nat)
    | CallTimeout(t: nat) | SetTimeout(t: nat) | StoreTimeout(t: nat)
    | Complete(e: nat, m: Msg, stale: bool)
    | Upgrade(t: nat) | Observe(t: nat) | Judge(t: nat) | Release(t: nat) | CallbackReturns(t: nat)
    | StopReturns(t: nat)

  predicate Alive(s: Shared) {
    exists i | 0 <= i < |s.threads| :: s.threads[i].handles > 0
  }

  predicate AtUser(s: Shared, t: nat) {
    t < |s.threads| && s.threads[t].pc == User && s.threads[t].handles > 0
  }

  predicate Enabled(s: Shared, l: Label) {
    match l
    case Spawn => true
    case Clone(t, u) => AtUser(s, t) && u < |s.threads| && s.threads[u].pc == User
    case DropHandle(t) => AtUser(s, t)
    case CallSend(t, _) => AtUser(s, t)
    case CallRecv(t) => AtUser(s, t)
    case CallSleep(t) => AtUser(s, t)
    case CallTimeout(t) => AtUser(s, t)
    case SetMsg(t) => t < |s.threads| && s.threads[t].pc.SendClaimed?
    case StartSend(t) => t < |s.threads| && s.threads[t].pc == SendLoaded
    case StartRecv(t) => t < |s.threads| && s.threads[t].pc == RecvClaimed
    case StartSleep(t) => t < |s.threads| && s.threads[t].pc == SleepClaimed
    case SetTimeout(t) => t < |s.threads| && s.threads[t].pc == TimeoutClaimed
    case StoreTimeout(t) => t < |s.threads| && s.threads[t].pc == TimeoutSet
    case Complete(e, _, _) => s.running.Some? && (s.running == Some(SendOp) && e == 0 ==> s.slot.Some?)
    case Upgrade(t) => t < |s.threads| && s.threads[t].pc.Entered?
    case Observe(t) => t < |s.threads| && s.threads[t].pc.Upgraded?
    case Judge(t) => t < |s.threads| && s.threads[t].pc.Observed?
    case Release(t) => t < |s.threads| && s.threads[t].pc.Judged?
    case CallbackReturns(t) =>
      t < |s.threads| && s.threads[t].pc == User && s.threads[t].inCallback && s.threads[t].handles == 0
    case StopReturns(t) =>
      && t < |s.threads| && s.threads[t].pc == Dropping && s.running == None
      && (forall i | 0 <= i < |s.threads| :: s.threads[i].inCallback ==> s.threads[i].pc == Returned)
  }

  function At(s: Shared, t: nat, pc: Pc): Shared
    requires t < |s.threads|
  {
    s.(threads := s.threads[t := s.threads[t].(pc := pc)])
  }

  /** compare_exchange(Inactive, w): on success thread `t` continues at `pc`. */
  function Claim(s: Shared, t: nat, w: Word, pc: Pc): Shared
    requires t < |s.threads|
  {
    if s.freed then At(s, t, Panicked)
    else if s.word == Inactive then At(s, t, pc).(word := w, holder := ByThread(t))
    else s
  }

  /** nng_socket_send, nng_socket_recv, nng_sleep_aio and their context forms. */
  function Launch(s: Shared, t: nat, op: Op): Shared
    requires t < |s.threads|
  {
    if s.freed || s.running.Some? then At(s, t, Panicked)
    else At(s, t, User).(running := Some(op), holder := ByNng(op))
  }

  /** The match of the bounce closure on (state, result); None where it panics. */
  function Judgement(s: Shared, w: Word): Option<Outcome> {
    match w
    case Inactive => None
    case Sending =>
      if s.result == 0 then Some(SendOk)
      else if s.slot.Some? then Some(SendErr(s.slot.value, s.result)) else None
    case Receiving =>
      if s.result != 0 then Some(RecvErr(s.result))
      else if s.slot.Some? then Some(RecvOk(s.slot.value)) else None
    case Sleeping => Some(if s.result == 0 then SleepOk else SleepErr(s.result))
  }

  function Completed(s: Shared, op: Op, e: nat, m: Msg, stale: bool): Shared {
    var t := s.(running := None, result := e, holder := ByThread(|s.threads|),
                threads := s.threads + [Thread(Entered(op), 0, true)]);
    if e != 0 then t
    else match op
         case SendOp =>
           t.(slot := if stale then s.slot else None, owns := None, consumed := s.consumed + AsSeq(s.slot))
         case RecvOp => t.(slot := Some(m), owns := Some(m), incoming := s.incoming + [m])
         case SleepOp => t
  }

  function Apply(s: Shared, l: Label): Shared
    requires Enabled(s, l)
  {
    match l
    case Spawn => s.(threads := s.threads + [Thread(User, 0, false)])
    case Clone(t, u) => s.(threads := s.threads[u := s.threads[u].(handles := s.threads[u].handles + 1)])
    case DropHandle(t) =>
      var s' := s.(threads := s.threads[t := s.threads[t].(handles := s.threads[t].handles - 1)]);
      if Alive(s') then s' else At(s', t, Dropping)
    case CallSend(t, m) =>
      var s' := Claim(s, t, Sending, SendClaimed(m)).(given := s.given + [m]);
      if s.word == Inactive then s' else s'.(rejected := s.rejected + [m])
    case SetMsg(t) =>
      if s.freed then At(s, t, Panicked)
      else At(s, t, SendLoaded).(slot := Some(s.threads[t].pc.m), owns := Some(s.threads[t].pc.m))
    case StartSend(t) => Launch(s, t, SendOp)
    case CallRecv(t) => Claim(s, t, Receiving, RecvClaimed)
    case StartRecv(t) => Launch(s, t, RecvOp)
    case CallSleep(t) => Claim(s, t, Sleeping, SleepClaimed)
    case StartSleep(t) => Launch(s, t, SleepOp)
    case CallTimeout(t) => Claim(s, t, Sleeping, TimeoutClaimed)
    case SetTimeout(t) =>
      if s.freed || s.running.Some? then At(s, t, Panicked) else At(s, t, TimeoutSet)
    case StoreTimeout(t) => At(s, t, User).(word := Inactive, holder := Nobody)
    case Complete(e, m, stale) => Completed(s, s.running.value, e, m, stale)
    case Upgrade(t) =>
      if Alive(s)
      then s.(threads := s.threads[t := s.threads[t].(pc := Upgraded(s.threads[t].pc.op), handles := 1)])
      else At(s, t, Returned).(holder := Orphan(s.threads[t].pc.op))
    case Observe(t) =>
      if s.freed then At(s, t, Panicked) else At(s, t, Observed(s.threads[t].pc.op, s.word))
    case Judge(t) =>
      var r := Judgement(s, s.threads[t].pc.w);
      if s.freed || r.None? then At(s, t, Panicked)
      else At(s, t, Judged(s.threads[t].pc.op, r.value)).(
             owns := if r.value.SendErr? || r.value.RecvOk? then None else s.owns)
    case Release(t) =>
      var r := s.threads[t].pc.r;
      At(s, t, User).(word := Inactive, holder := Nobody,
                      bounced := if r.SendErr? then s.bounced + [r.m] else s.bounced,
                      received := if r.RecvOk? then s.received + [r.m] else s.received)
    case CallbackReturns(t) => At(s, t, Returned)
    case StopReturns(t) =>
      if s.freed then At(s, t, Panicked)
      else At(s, t, Returned).(
             freed := true, owns := None,
             lost := if s.holder == Orphan(SendOp) then s.lost + AsSeq(s.owns) else s.lost,
             missed := if s.holder != Orphan(SendOp) then s.missed + AsSeq(s.owns) else s.missed)
  }

  function Exec(s: Shared, ls: seq<Label>): Option<Shared> {
    if ls == [] then Some(s)
    else
      match Exec(s, ls[..|ls| - 1])
      case None => None
      case Some(t) => if Enabled(t, ls[|ls| - 1]) then Some(Apply(t, ls[|ls| - 1])) else None
  }

  // ----- the invariant -----

  /** The thread has claimed the AIO, or is a callback that has not stored Inactive yet. */
  predicate Holds(pc: Pc) {
    pc.SendClaimed? || pc.SendLoaded? || pc.RecvClaimed? || pc.SleepClaimed? || pc.TimeoutClaimed? || pc.TimeoutSet?
    || pc.Entered? || pc.Upgraded? || pc.Observed? || pc.Judged?
  }

  function WordOf(op: Op): Word {
    match op case SendOp => Sending case RecvOp => Receiving case SleepOp => Sleeping
  }

  predicate Matches(op: Op, r: Outcome) {
    match op
    case SendOp => r.SendOk? || r.SendErr?
    case RecvOp => r.RecvOk? || r.RecvErr?
    case SleepOp => r.SleepOk? || r.SleepErr?
  }

  /** The outcome says how the operation ended: an error carries its result code, anything else means success. */
  predicate Tells(r: Outcome, result: nat) {
    match r
    case SendErr(_, e) => e == result && e != 0
    case RecvErr(e) => e == result && e != 0
    case SleepErr(e) => e == result && e != 0
    case _ => result == 0
  }

  /** What a completed operation left in the AIO for its callback to read. */
  predicate Left(s: Shared, op: Op) {
    match op
    case SendOp => if s.result == 0 then s.owns == None else s.slot.Some? && s.owns == s.slot
    case RecvOp => if s.result == 0 then s.slot.Some? && s.owns == s.slot else s.owns == None
    case SleepOp => s.owns == None
  }

  /** What a thread at `pc` implies for the word and the slot. */
  predicate Local(s: Shared, pc: Pc) {
    match pc
    case SendClaimed(_) => s.word == Sending && s.owns == None
    case SendLoaded => s.word == Sending && s.slot.Some? && s.owns == s.slot
    case RecvClaimed => s.word == Receiving && s.owns == None
    case SleepClaimed => s.word == Sleeping && s.owns == None
    case TimeoutClaimed => s.word == Sleeping && s.owns == None
    case TimeoutSet => s.word == Sleeping && s.owns == None
    case Entered(op) => s.word == WordOf(op) && Left(s, op)
    case Upgraded(op) => s.word == WordOf(op) && Left(s, op)
    case Observed(op, w) => s.word == w == WordOf(op) && Left(s, op)
    case Judged(op, r) => s.word == WordOf(op) && Matches(op, r) && Tells(r, s.result) && s.owns == None
    case Panicked => false
    case _ => true
  }

  predicate Handles(s: Shared, i: nat)
    requires i < |s.threads|
  {
    var th := s.threads[i];
    && (Holds(th.pc) && !th.pc.Entered? ==> th.handles > 0)
    && (th.pc.Entered? || th.pc == Dropping || th.pc == Returned ==> th.handles == 0)
    && (th.pc.Entered? || th.pc.Upgraded? || th.pc.Observed? || th.pc.Judged? ==> th.inCallback)
    && (th.pc == Dropping ==> !Alive(s) && !s.freed)
  }

  predicate Nngs(s: Shared) {
    match s.holder
    case Nobody => s.word == Inactive && s.running == None && s.owns == None
    case ByThread(t) => s.word != Inactive && s.running == None && t < |s.threads| && Holds(s.threads[t].pc)
    case ByNng(op) =>
      && s.word == WordOf(op) && s.running == Some(op)
      && (if op == SendOp then s.slot.Some? && s.owns == s.slot else s.owns == None)
    case Orphan(op) => s.word != Inactive && s.running == None && !Alive(s) && (!s.freed ==> Left(s, op))
  }

  predicate Inv(s: Shared) {
    && Nngs(s)
    && (forall i | 0 <= i < |s.threads| :: Holds(s.threads[i].pc) ==> s.holder == ByThread(i))
    && (forall i | 0 <= i < |s.threads| :: Local(s, s.threads[i].pc))
    && (forall i | 0 <= i < |s.threads| :: Handles(s, i))
    && (s.freed ==> !Alive(s) && s.running == None && s.owns == None)
    && (s.freed ==> forall i | 0 <= i < |s.threads| :: !s.threads[i].pc.Entered?)
    && (forall i, j | 0 <= i < |s.threads| && 0 <= j < |s.threads| ::
          s.threads[i].pc == Dropping && s.threads[j].pc == Dropping ==> i == j)
  }

  /** A step that changes the counter of one thread and no handle count. */
  lemma SameHandles(s: Shared, s': Shared)
    requires |s.threads| <= |s'.threads|
    requires forall i | 0 <= i < |s.threads| :: s'.threads[i].handles == s.threads[i].handles
    requires forall i | |s.threads| <= i < |s'.threads| :: s'.threads[i].handles == 0
    ensures Alive(s) <==> Alive(s')
  {
    if Alive(s) {
      var i :| 0 <= i < |s.threads| && s.threads[i].handles > 0;
      assert s'.threads[i].handles > 0;
    }
    if Alive(s') {
      var i :| 0 <= i < |s'.threads| && s'.threads[i].handles > 0;
      assert s.threads[i].handles > 0;
    }
  }

  lemma HandleInv(s: Shared, l: Label)
    requires Inv(s) && Enabled(s, l) && (l.Spawn? || l.Clone?)
    ensures Inv(Apply(s, l))
  {
    var s' := Apply(s, l);
    if l.Spawn? { SameHandles(s, s'); }
    forall i | 0 <= i < |s'.threads|
      ensures Handles(s', i)
    {
      if i < |s.threads| { assert Handles(s, i); }
    }
  }

  lemma DropInv(s: Shared, t: nat)
    requires Inv(s) && Enabled(s, DropHandle(t))
    ensures Inv(Apply(s, DropHandle(t)))
  {
    var s' := s.(threads := s.threads[t := s.threads[t].(handles := s.threads[t].handles - 1)]);
    var r := Apply(s, DropHandle(t));
    assert Alive(s);
    SameHandles(s', r);
    forall i | 0 <= i < |s.threads|
      ensures s.threads[i].pc != Dropping
    {
      assert Handles(s, i);
    }
    forall i | 0 <= i < |r.threads|
      ensures Handles(r, i)
    {
      assert Handles(s, i);
    }
  }

  predicate IsCall(l: Label) {
    l.CallSend? || l.CallRecv? || l.CallSleep? || l.CallTimeout?
  }

  lemma CallKeepsHandles(s: Shared, l: Label)
    requires Inv(s) && Enabled(s, l) && IsCall(l)
    ensures Alive(s) && (Alive(s) <==> Alive(Apply(s, l)))
    ensures |Apply(s, l).threads| == |s.threads|
    ensures forall i | 0 <= i < |s.threads| :: Handles(Apply(s, l), i)
  {
    var r := Apply(s, l);
    SameHandles(s, r);
    forall i | 0 <= i < |s.threads|
      ensures Handles(r, i)
    {
      assert Handles(s, i);
    }
  }

  lemma ClaimInv(s: Shared, l: Label)
    requires Inv(s) && Enabled(s, l) && IsCall(l) && s.word == Inactive
    ensures Inv(Apply(s, l))
  {
    CallKeepsHandles(s, l);
    assert forall i | 0 <= i < |s.threads| :: !Holds(s.threads[i].pc);
  }

  lemma CallInv(s: Shared, l: Label)
    requires Inv(s) && Enabled(s, l) && IsCall(l)
    ensures Inv(Apply(s, l))
  {
    if s.word == Inactive { ClaimInv(s, l); } else { CallKeepsHandles(s, l); }
  }

  /** The holder moves on and keeps the AIO, or hands it to NNG. */
  predicate IsTurn(l: Label) {
    l.SetMsg? || l.StartSend? || l.StartRecv? || l.StartSleep? || l.SetTimeout? || l.Observe? || l.Judge?
  }

  predicate IsRelease(l: Label) {
    l.StoreTimeout? || l.Release? || l.CallbackReturns?
  }

  /** A thread that holds the AIO, other than a callback just entered, keeps it allocated. */
  lemma HolderIsAlive(s: Shared, t: nat)
    requires Inv(s) && t < |s.threads| && Holds(s.threads[t].pc) && !s.threads[t].pc.Entered?
    ensures Alive(s) && !s.freed && s.holder == ByThread(t) && s.running == None && Local(s, s.threads[t].pc)
  {
    assert Handles(s, t);
  }

  lemma TurnKeepsHandles(s: Shared, l: Label)
    requires Inv(s) && Enabled(s, l) && IsTurn(l)
    ensures forall i | 0 <= i < |s.threads| :: Handles(Apply(s, l), i)
  {
    var r := Apply(s, l);
    HolderIsAlive(s, l.t);
    SameHandles(s, r);
    forall i | 0 <= i < |s.threads|
      ensures Handles(r, i)
    {
      assert Handles(s, i);
    }
  }

  predicate IsStart(l: Label) {
    l.StartSend? || l.StartRecv? || l.StartSleep?
  }

  lemma StartInv(s: Shared, l: Label)
    requires Inv(s) && Enabled(s, l) && IsStart(l)
    ensures Inv(Apply(s, l))
  {
    HolderIsAlive(s, l.t);
    TurnKeepsHandles(s, l);
    SameHandles(s, Apply(s, l));
  }

  lemma PrepareInv(s: Shared, l: Label)
    requires Inv(s) && Enabled(s, l) && (l.SetMsg? || l.SetTimeout?)
    ensures Inv(Apply(s, l))
  {
    HolderIsAlive(s, l.t);
    TurnKeepsHandles(s, l);
    SameHandles(s, Apply(s, l));
  }

  lemma ObserveInv(s: Shared, t: nat)
    requires Inv(s) && Enabled(s, Observe(t))
    ensures Inv(Apply(s, Observe(t)))
  {
    HolderIsAlive(s, t);
    TurnKeepsHandles(s, Observe(t));
    SameHandles(s, Apply(s, Observe(t)));
  }

  lemma JudgeInv(s: Shared, t: nat)
    requires Inv(s) && Enabled(s, Judge(t))
    ensures Inv(Apply(s, Judge(t)))
  {
    HolderIsAlive(s, t);
    var r := Judgement(s, s.threads[t].pc.w);
    assert r.Some? && Matches(s.threads[t].pc.op, r.value);
    TurnKeepsHandles(s, Judge(t));
    SameHandles(s, Apply(s, Judge(t)));
  }

  lemma TurnInv(s: Shared, l: Label)
    requires Inv(s) && Enabled(s, l) && IsTurn(l)
    ensures Inv(Apply(s, l))
  {
    match l
    case Observe(t) => ObserveInv(s, t);
    case Judge(t) => JudgeInv(s, t);
    case _ => if IsStart(l) { StartInv(s, l); } else { PrepareInv(s, l); }
  }

  lemma ReleaseInv(s: Shared, l: Label)
    requires Inv(s) && Enabled(s, l) && IsRelease(l)
    ensures Inv(Apply(s, l))
  {
    var r := Apply(s, l);
    assert Handles(s, l.t) && Local(s, s.threads[l.t].pc);
    SameHandles(s, r);
    forall i | 0 <= i < |r.threads|
      ensures Handles(r, i)
    {
      assert Handles(s, i);
    }
  }

  lemma CompleteInv(s: Shared, l: Label)
    requires Inv(s) && Enabled(s, l) && l.Complete?
    ensures Inv(Apply(s, l))
  {
    var r := Apply(s, l);
    SameHandles(s, r);
    forall i | 0 <= i < |r.threads|
      ensures Handles(r, i)
    {
      if i < |s.threads| { assert Handles(s, i); }
    }
  }

  lemma UpgradeInv(s: Shared, t: nat)
    requires Inv(s) && Enabled(s, Upgrade(t))
    ensures Inv(Apply(s, Upgrade(t)))
  {
    var r := Apply(s, Upgrade(t));
    assert Handles(s, t);
    if !Alive(s) { SameHandles(s, r); }
    forall i | 0 <= i < |r.threads|
      ensures Handles(r, i)
    {
      assert Handles(s, i);
    }
  }

  lemma StopInv(s: Shared, t: nat)
    requires Inv(s) && Enabled(s, StopReturns(t))
    ensures Inv(Apply(s, StopReturns(t)))
  {
    var r := Apply(s, StopReturns(t));
    assert Handles(s, t);
    SameHandles(s, r);
    forall i | 0 <= i < |s.threads|
      ensures !Holds(s.threads[i].pc)
    {
      assert Handles(s, i);
    }
    forall i | 0 <= i < |r.threads|
      ensures Handles(r, i)
    {
      assert Handles(s, i);
    }
  }

  lemma StepInv(s: Shared, l: Label)
    requires Inv(s) && Enabled(s, l)
    ensures Inv(Apply(s, l))
  {
    if IsCall(l) {
      CallInv(s, l);
    } else if IsTurn(l) {
      TurnInv(s, l);
    } else if IsRelease(l) {
      ReleaseInv(s, l);
    } else {
      match l
      case DropHandle(t) => DropInv(s, t);
      case Complete(_, _, _) => CompleteInv(s, l);
      case Upgrade(t) => UpgradeInv(s, t);
      case StopReturns(t) => StopInv(s, t);
      case _ => HandleInv(s, l);
    }
  }

  lemma {:induction false} ExecInv(ls: seq<Label>)
    requires Exec(Fresh, ls).Some?
    ensures Inv(Exec(Fresh, ls).value)
  {
    if ls == [] {
      assert Fresh.threads[0].handles > 0;
    } else {
      ExecInv(ls[..|ls| - 1]);
      StepInv(Exec(Fresh, ls[..|ls| - 1]).value, ls[|ls| - 1]);
    }
  }

  /**
   * Exclusion, for any number of threads and handles and with callbacks that restart operations: at most
   * one thread is between winning the state word and giving it up, none is while NNG runs an operation,
   * the word says Inactive exactly when nobody is, and no step ever panics or touches a freed AIO.
   */
  lemma AtMostOneHolder(ls: seq<Label>, i: nat, j: nat)
    requires Exec(Fresh, ls).Some?
    requires i < |Exec(Fresh, ls).value.threads| && j < |Exec(Fresh, ls).value.threads|
    ensures var s := Exec(Fresh, ls).value;
            && (Holds(s.threads[i].pc) && Holds(s.threads[j].pc) ==> i == j)
            && (Holds(s.threads[i].pc) ==> s.running == None && s.word != Inactive)
            && (s.running.Some? ==> s.word == WordOf(s.running.value))
            && (Alive(s) && s.word != Inactive && s.running == None ==>
                  exists k :: 0 <= k < |s.threads| && Holds(s.threads[k].pc))
            && (s.freed ==> s.running == None && !Holds(s.threads[i].pc))
            && s.threads[i].pc != Panicked
  {
    ExecInv(ls);
    var s := Exec(Fresh, ls).value;
    assert Local(s, s.threads[i].pc) && Handles(s, i);
    if Alive(s) && s.word != Inactive && s.running == None {
      assert s.holder.ByThread?;
      assert Holds(s.threads[s.holder.t].pc);
    }
  }

  /**
   * The callback reads the state word of the operation NNG ran and reports that kind of result: its error
   * with the code it ended with, or success exactly if it succeeded, up to the call of user code. A message
   * it reads through the slot pointer is one the AIO owns, never a pointer kept from an earlier operation.
   */
  lemma CallbackReportsItsOperation(ls: seq<Label>, t: nat)
    requires Exec(Fresh, ls).Some? && t < |Exec(Fresh, ls).value.threads|
    ensures var s := Exec(Fresh, ls).value;
            match s.threads[t].pc
            case Upgraded(op) => s.word == WordOf(op) && s.word != Inactive
            case Observed(op, w) =>
              && w == WordOf(op) && Judgement(s, w).Some?
              && Matches(op, Judgement(s, w).value) && Tells(Judgement(s, w).value, s.result)
              && (match Judgement(s, w).value
                  case SendErr(m, _) => s.owns == Some(m)
                  case RecvOk(m) => s.owns == Some(m)
                  case _ => s.owns == None)
            case Judged(op, r) => Matches(op, r) && Tells(r, s.result)
            case _ => true
  {
    ExecInv(ls);
    var s := Exec(Fresh, ls).value;
    assert Local(s, s.threads[t].pc);
  }

  /** compare_exchange: a call claims the AIO if and only if it is inactive, and otherwise changes nothing. */
  lemma ClaimsIffInactive(ls: seq<Label>, l: Label)
    requires Exec(Fresh, ls).Some? && IsCall(l) && Enabled(Exec(Fresh, ls).value, l)
    ensures var s := Exec(Fresh, ls).value;
            var r := Apply(s, l);
            && (s.word == Inactive <==> r.holder == ByThread(l.t) && Holds(r.threads[l.t].pc))
            && (s.word == Inactive ==> r.rejected == s.rejected)
            && (s.word != Inactive ==>
                  r == if l.CallSend? then s.(given := s.given + [l.m], rejected := s.rejected + [l.m]) else s)
  {
    ExecInv(ls);
    var s := Exec(Fresh, ls).value;
    assert Handles(s, l.t) && s.threads[l.t].handles > 0;
    assert s.freed ==> !Alive(s);
  }

  // ----- the fate of every message -----

  /** The outgoing message that is under way: claimed, in the AIO, or read out but not returned yet. */
  function Outgoing(s: Shared): Option<Msg> {
    match s.holder
    case Nobody => None
    case ByNng(op) => if op == SendOp then s.owns else None
    case Orphan(op) => if op == SendOp then s.owns else None
    case ByThread(t) =>
      if t >= |s.threads| then None
      else match s.threads[t].pc
           case SendClaimed(m) => Some(m)
           case SendLoaded => s.owns
           case Entered(op) => if op == SendOp then s.owns else None
           case Upgraded(op) => if op == SendOp then s.owns else None
           case Observed(op, _) => if op == SendOp then s.owns else None
           case Judged(_, SendErr(m, _)) => Some(m)
           case _ => None
  }

  /** The incoming message that is under way. */
  function Incoming(s: Shared): Option<Msg> {
    match s.holder
    case Nobody => None
    case ByNng(_) => None
    case Orphan(op) => if op == RecvOp then s.owns else None
    case ByThread(t) =>
      if t >= |s.threads| then None
      else match s.threads[t].pc
           case Entered(op) => if op == RecvOp then s.owns else None
           case Upgraded(op) => if op == RecvOp then s.owns else None
           case Observed(op, _) => if op == RecvOp then s.owns else None
           case Judged(_, RecvOk(m)) => Some(m)
           case _ => None
  }

  predicate OutLaw(s: Shared, m: Msg) {
    Occurrences(s.given, m) ==
    Occurrences(s.rejected, m) + Occurrences(s.bounced, m) + Occurrences(s.consumed, m)
    + Occurrences(s.lost, m) + In(Outgoing(s), m)
  }

  predicate InLaw(s: Shared, m: Msg) {
    Occurrences(s.incoming, m) == Occurrences(s.received, m) + Occurrences(s.missed, m) + In(Incoming(s), m)
  }

  predicate SameLogs(s: Shared, s': Shared) {
    && s'.given == s.given && s'.rejected == s.rejected && s'.bounced == s.bounced && s'.consumed == s.consumed
    && s'.incoming == s.incoming && s'.received == s.received && s'.lost == s.lost && s'.missed == s.missed
  }

  /** The logs and the messages under way are those of `s`. */
  predicate SameFates(s: Shared, s': Shared) {
    SameLogs(s, s') && Outgoing(s') == Outgoing(s) && Incoming(s') == Incoming(s)
  }

  /** How a step moves messages between the logs: only four kinds of steps do. */
  predicate Flow(s: Shared, l: Label, s': Shared) {
    match l
    case CallSend(_, m) =>
      && s'.given == s.given + [m]
      && (if s.word == Inactive
          then && SameLogs(s, s'.(given := s.given))
               && Outgoing(s) == None && Outgoing(s') == Some(m) && Incoming(s') == Incoming(s)
          else && SameFates(s, s'.(given := s.given, rejected := s.rejected))
               && s'.rejected == s.rejected + [m])
    case Complete(e, m, _) =>
      if e != 0 || s.running == Some(SleepOp) then SameFates(s, s')
      else if s.running == Some(SendOp)
      then && SameLogs(s, s'.(consumed := s.consumed)) && s'.consumed == s.consumed + AsSeq(Outgoing(s))
           && Outgoing(s') == None && Incoming(s') == Incoming(s)
      else && SameLogs(s, s'.(incoming := s.incoming)) && s'.incoming == s.incoming + [m]
           && Incoming(s) == None && Incoming(s') == Some(m) && Outgoing(s') == Outgoing(s)
    case Release(_) =>
      && SameLogs(s, s'.(bounced := s.bounced, received := s.received))
      && s'.bounced == s.bounced + AsSeq(Outgoing(s)) && s'.received == s.received + AsSeq(Incoming(s))
      && Outgoing(s') == Incoming(s') == None
    case StopReturns(_) =>
      && SameLogs(s, s'.(lost := s.lost, missed := s.missed))
      && s'.lost == s.lost + AsSeq(Outgoing(s)) && s'.missed == s.missed + AsSeq(Incoming(s))
      && Outgoing(s') == Incoming(s') == None
    case _ => SameFates(s, s')
  }

  predicate IsShare(l: Label) {
    l.Spawn? || l.Clone? || l.DropHandle? || l.CallbackReturns?
  }

  lemma ShareFlow(s: Shared, l: Label)
    requires Nngs(s) && Enabled(s, l) && IsShare(l)
    ensures SameFates(s, Apply(s, l))
  {
  }

  lemma CallFlow(s: Shared, l: Label)
    requires Inv(s) && Enabled(s, l) && IsCall(l)
    ensures Flow(s, l, Apply(s, l))
  {
    assert Alive(s) && !s.freed && Nngs(s);
  }

  lemma StartFlow(s: Shared, l: Label)
    requires Inv(s) && Enabled(s, l) && IsStart(l)
    ensures SameFates(s, Apply(s, l))
  {
    HolderIsAlive(s, l.t);
  }

  lemma TurnFlow(s: Shared, l: Label)
    requires Inv(s) && Enabled(s, l) && (IsTurn(l) || l.StoreTimeout?)
    ensures SameFates(s, Apply(s, l))
  {
    if IsStart(l) {
      StartFlow(s, l);
    } else {
      HolderIsAlive(s, l.t);
    }
  }

  lemma UpgradeFlow(s: Shared, t: nat)
    requires s.holder == ByThread(t) && Enabled(s, Upgrade(t))
    ensures SameFates(s, Apply(s, Upgrade(t)))
  {
  }

  lemma ReleaseFlow(s: Shared, t: nat)
    requires s.holder == ByThread(t) && Enabled(s, Release(t))
    ensures Flow(s, Release(t), Apply(s, Release(t)))
  {
  }

  lemma CompleteFlow(s: Shared, l: Label)
    requires Nngs(s) && Enabled(s, l) && l.Complete?
    ensures Flow(s, l, Apply(s, l))
  {
    assert s.holder == ByNng(s.running.value);
  }

  lemma StopFlow(s: Shared, t: nat)
    requires Inv(s) && Enabled(s, StopReturns(t))
    ensures Flow(s, StopReturns(t), Apply(s, StopReturns(t)))
  {
    assert Handles(s, t) && Nngs(s);
    forall i | 0 <= i < |s.threads|
      ensures !Holds(s.threads[i].pc)
    {
      assert Handles(s, i);
    }
  }

  lemma StepFlow(s: Shared, l: Label)
    requires Inv(s) && Enabled(s, l)
    ensures Flow(s, l, Apply(s, l))
  {
    if IsShare(l) {
      ShareFlow(s, l);
    } else if IsCall(l) {
      CallFlow(s, l);
    } else if IsTurn(l) || l.StoreTimeout? {
      TurnFlow(s, l);
    } else {
      match l
      case Upgrade(t) => UpgradeFlow(s, t);
      case Release(t) => ReleaseFlow(s, t);
      case Complete(_, _, _) => CompleteFlow(s, l);
      case StopReturns(t) => StopFlow(s, t);
    }
  }

  lemma CallKeepsOutLaw(s: Shared, l: Label, s': Shared, m: Msg)
    requires Flow(s, l, s') && OutLaw(s, m) && l.CallSend?
    ensures OutLaw(s', m)
  {
    OccurrencesOfOption(s.given, Some(l.m), m);
    OccurrencesOfOption(s.rejected, Some(l.m), m);
  }

  lemma FlowKeepsOutLaw(s: Shared, l: Label, s': Shared, m: Msg)
    requires Flow(s, l, s') && OutLaw(s, m) && !l.CallSend?
    ensures OutLaw(s', m)
  {
    if l.Complete? { OccurrencesOfOption(s.consumed, Outgoing(s), m); }
    if l.Release? { OccurrencesOfOption(s.bounced, Outgoing(s), m); }
    if l.StopReturns? { OccurrencesOfOption(s.lost, Outgoing(s), m); }
  }

  lemma FlowKeepsInLaw(s: Shared, l: Label, s': Shared, m: Msg)
    requires Flow(s, l, s') && InLaw(s, m)
    ensures InLaw(s', m)
  {
    match l
    case Complete(_, x, _) => OccurrencesOfOption(s.incoming, Some(x), m);
    case Release(_) => OccurrencesOfOption(s.received, Incoming(s), m);
    case StopReturns(_) => OccurrencesOfOption(s.missed, Incoming(s), m);
    case _ =>
  }

  lemma {:induction false} LawsHold(ls: seq<Label>, m: Msg)
    requires Exec(Fresh, ls).Some?
    ensures OutLaw(Exec(Fresh, ls).value, m) && InLaw(Exec(Fresh, ls).value, m)
  {
    if ls != [] {
      LawsHold(ls[..|ls| - 1], m);
      ExecInv(ls[..|ls| - 1]);
      var s := Exec(Fresh, ls[..|ls| - 1]).value;
      StepFlow(s, ls[|ls| - 1]);
      if ls[|ls| - 1].CallSend? {
        CallKeepsOutLaw(s, ls[|ls| - 1], Exec(Fresh, ls).value, m);
      } else {
        FlowKeepsOutLaw(s, ls[|ls| - 1], Exec(Fresh, ls).value, m);
      }
      FlowKeepsInLaw(s, ls[|ls| - 1], Exec(Fresh, ls).value, m);
    }
  }

  /**
   * Exactly one fate per send call: over any run, a message has been passed to send calls as often as it
   * was returned with IncorrectState, returned by one Send(Err), taken by NNG, or left in an AIO whose
   * last handle was dropped mid-send - plus once if it is still under way; and between operations none is.
   * In the same way every message NNG received for the AIO is handed out once by Recv(Ok), however often
   * the slot keeps an old pointer.
   */
  lemma EverySendHasOneFate(ls: seq<Label>, m: Msg)
    requires Exec(Fresh, ls).Some?
    ensures var s := Exec(Fresh, ls).value;
            && Occurrences(s.given, m) ==
               Occurrences(s.rejected, m) + Occurrences(s.bounced, m) + Occurrences(s.consumed, m)
               + Occurrences(s.lost, m) + In(Outgoing(s), m)
            && Occurrences(s.incoming, m) ==
               Occurrences(s.received, m) + Occurrences(s.missed, m) + In(Incoming(s), m)
            && (s.word == Inactive || s.freed ==> Outgoing(s) == None && Incoming(s) == None)
  {
    LawsHold(ls, m);
    ExecInv(ls);
    var s := Exec(Fresh, ls).value;
    if s.freed {
      forall i | 0 <= i < |s.threads|
        ensures !Holds(s.threads[i].pc)
      {
        assert Handles(s, i);
      }
    }
  }
}
