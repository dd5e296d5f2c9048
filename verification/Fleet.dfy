/**
 * Message ownership over any number of endpoints that share one user program, one NNG library and
 * one heap. Every message is in exactly one place, in every reachable state.
 */
module Fleet {
  import opened Options
  import opened Endpoints

  // ----- one endpoint: what a step moves across its boundary -----

  /** Messages that cross an endpoint's boundary in one step. */
  datatype Traffic = Traffic(
    fromUser: Option<Msg>, toUser: Option<Msg>, toNng: Option<Msg>, born: Option<Msg>, freed: seq<Msg>)

  const Nothing: Traffic := Traffic(None, None, None, None, [])

  /**
   * Read off the code, by the pointer in the slot and not by the real owner: `send_msg` drops what
   * `set_message` returns, the guard drops what `take_message` returns, assigning `recovered_msg`
   * drops its old value, and receives and failed sends give the pointer's message to the caller.
   */
  function TrafficOf(s: Endpoint, l: Label): Traffic {
    match l
    case CallSend(m) => Nothing.(fromUser := Some(m), freed := if s.msgWasSet then AsSeq(s.slot) else [])
    case Return =>
      Nothing.(toUser := if s.pc == Settled(Sending) && s.result != 0 then s.slot else Delivers(s, l))
    case CancelTable => Nothing.(freed := if s.msgWasSet && s.result != 0 then AsSeq(s.slot) else [])
    case OuterGuard => Nothing.(freed := if s.slot.Some? then AsSeq(s.stash) else [])
    case Close => Nothing.(freed := AsSeq(s.stash) + s.queue)
    case Arrive(m) => Nothing.(born := Some(m))
    case Complete(e, _, flush) =>
      if e == 0 && s.phase == Pending(Sending)
      then Nothing.(toNng := s.slot, freed := if flush then s.queue else [])
      else Nothing
    case Flush => Nothing.(freed := s.queue)
    case _ => Nothing.(toUser := Delivers(s, l))
  }

  /** How often the endpoint is responsible for `m`. */
  function Held(s: Endpoint, m: Msg): nat {
    In(s.owns, m) + In(s.stash, m) + Occurrences(s.queue, m)
  }

  predicate Conserves(s: Endpoint, l: Label, m: Msg)
    requires Enabled(s, l)
  {
    var f := TrafficOf(s, l);
    Held(s, m) + In(f.fromUser, m) + In(f.born, m)
    == Held(Apply(s, l), m) + In(f.toUser, m) + In(f.toNng, m) + Occurrences(f.freed, m)
  }

  lemma CompleteConserves(s: Endpoint, l: Label, m: Msg)
    requires Inv(s) && Enabled(s, l) && l.Complete?
    ensures Conserves(s, l, m)
  {
    OccurrencesOfParts(s.queue, [], m);
    assert s.phase.kind == Op(s).value;
  }

  lemma NngConserves(s: Endpoint, l: Label, m: Msg)
    requires Inv(s) && Enabled(s, l) && IsNng(l)
    ensures Conserves(s, l, m)
  {
    if l.Arrive? {
      OccurrencesOfParts(s.queue, [l.m], m);
    } else if l.Complete? {
      CompleteConserves(s, l, m);
    }
  }

  lemma TryReceiveConserves(s: Endpoint, e: nat, m: Msg)
    requires Inv(s) && Enabled(s, CallTryRecv(e))
    ensures Conserves(s, CallTryRecv(e), m)
  {
    OccurrencesOfParts(s.queue, [], m);
  }

  lemma ReceiveConserves(s: Endpoint, l: Label, m: Msg)
    requires Inv(s) && Enabled(s, l) && (l.CallTryRecv? || l.CallRecv? || l.Close?)
    ensures Conserves(s, l, m)
  {
    if l.CallTryRecv? {
      TryReceiveConserves(s, l.errno, m);
    } else {
      OccurrencesOfParts(AsSeq(s.stash), s.queue, m);
    }
  }

  /** The steps of the future that move a message into or out of the slot or the stash. */
  predicate MovesSlot(l: Label) {
    l.CallSend? || l.Return? || l.CancelTable? || l.OuterGuard?
  }

  lemma ReturnConserves(s: Endpoint, m: Msg)
    requires Inv(s) && Enabled(s, Return)
    ensures Conserves(s, Return, m)
  {
  }

  lemma SlotConserves(s: Endpoint, l: Label, m: Msg)
    requires Inv(s) && Enabled(s, l) && MovesSlot(l)
    ensures Conserves(s, l, m)
  {
    if l == Return { ReturnConserves(s, m); }
  }

  lemma ControlConserves(s: Endpoint, l: Label, m: Msg)
    requires Inv(s) && Enabled(s, l)
    requires !IsNng(l) && !l.CallTryRecv? && !l.CallRecv? && !l.Close? && !MovesSlot(l)
    ensures Conserves(s, l, m)
  {
  }

  /** No step of an endpoint creates, loses or duplicates a message. */
  lemma StepConserves(s: Endpoint, l: Label, m: Msg)
    requires Inv(s) && Enabled(s, l)
    ensures Conserves(s, l, m)
  {
    if IsNng(l) {
      NngConserves(s, l, m);
    } else if l.CallTryRecv? || l.CallRecv? || l.Close? {
      ReceiveConserves(s, l, m);
    } else if MovesSlot(l) {
      SlotConserves(s, l, m);
    } else {
      ControlConserves(s, l, m);
    }
  }

  /**
   * Cancelling a receive frees nothing. But for closing and NNG's own discards a step frees a message if
   * and only if it ends a send that failed and whose future was dropped, and then it frees that message.
   */
  lemma OnlyDroppedFailedSendsAreFreed(s: Endpoint, l: Label)
    requires Inv(s) && Enabled(s, l) && l != Close && !Discards(l)
    ensures TrafficOf(s, l).freed != [] <==> l == CancelTable && Op(s) == Some(Sending) && s.result != 0
    ensures TrafficOf(s, l).freed != [] ==> s.owns.Some? && TrafficOf(s, l).freed == [s.owns.value]
  {
  }

  /** Closing frees the stash and the queue, a discard the queue. */
  lemma ClosingAndDiscardsFree(s: Endpoint, l: Label)
    requires Inv(s) && Enabled(s, l) && (l == Close || Discards(l))
    ensures TrafficOf(s, l).freed == (if l == Close then AsSeq(s.stash) else []) + s.queue
  {
    assert [] + s.queue == s.queue;
  }

  /**
   * The user program gets a message exactly from a receive that returns one, or back from a failed send;
   * NNG gets one exactly by a successful send.
   */
  lemma OnlyReturnsReachTheUser(s: Endpoint, l: Label)
    requires Inv(s) && Enabled(s, l)
    ensures TrafficOf(s, l).toUser ==
            if l == Return && s.pc == Settled(Sending) && s.result != 0 then s.owns else Delivers(s, l)
    ensures TrafficOf(s, l).toNng ==
            if l.Complete? && l.errno == 0 && s.phase == Pending(Sending) then s.owns else None
    ensures TrafficOf(s, l).toUser.Some? ==> Apply(s, l).pc == Resting
  {
  }

  // ----- any number of endpoints -----

  datatype World = World(
    ends: seq<Endpoint>, user: multiset<Msg>, nng: multiset<Msg>, freed: multiset<Msg>, born: set<Msg>)

  const Empty: World := World([], multiset{}, multiset{}, multiset{}, {})

  datatype Event =
    | Open                  // a new context or socket
    | Alloc(m: Msg)         // the user program creates a message
    | DropMsg(m: Msg)       // the user program drops a message
    | NngFrees(m: Msg)      // NNG is done with a message it was sent
    | At(i: nat, l: Label)  // a step of endpoint i

  predicate Possible(w: World, e: Event) {
    match e
    case Open => true
    case Alloc(m) => m !in w.born
    case DropMsg(m) => m in w.user
    case NngFrees(m) => m in w.nng
    case At(i, l) =>
      && i < |w.ends| && Enabled(w.ends[i], l)
      && (l.CallSend? ==> l.m in w.user)
      && (l.Arrive? ==> l.m !in w.born)
  }

  function Happen(w: World, e: Event): World
    requires Possible(w, e)
  {
    match e
    case Open => w.(ends := w.ends + [Fresh])
    case Alloc(m) => w.(user := w.user + multiset{m}, born := w.born + {m})
    case DropMsg(m) => w.(user := w.user - multiset{m}, freed := w.freed + multiset{m})
    case NngFrees(m) => w.(nng := w.nng - multiset{m}, freed := w.freed + multiset{m})
    case At(i, l) =>
      var f := TrafficOf(w.ends[i], l);
      World(w.ends[i := Apply(w.ends[i], l)],
            w.user - multiset(AsSeq(f.fromUser)) + multiset(AsSeq(f.toUser)),
            w.nng + multiset(AsSeq(f.toNng)),
            w.freed + multiset(f.freed),
            w.born + (if l.Arrive? then {l.m} else {}))
  }

  function History(es: seq<Event>): Option<World> {
    if es == [] then Some(Empty)
    else
      match History(es[..|es| - 1])
      case None => None
      case Some(w) => if Possible(w, es[|es| - 1]) then Some(Happen(w, es[|es| - 1])) else None
  }

  function AllHeld(ends: seq<Endpoint>, m: Msg): nat {
    if ends == [] then 0 else Held(ends[0], m) + AllHeld(ends[1..], m)
  }

  /** How often `m` occurs over all places it could be in. */
  function Census(w: World, m: Msg): nat {
    w.user[m] + w.nng[m] + w.freed[m] + AllHeld(w.ends, m)
  }

  lemma {:induction false} AllHeldAppend(ends: seq<Endpoint>, e: Endpoint, m: Msg)
    ensures AllHeld(ends + [e], m) == AllHeld(ends, m) + Held(e, m)
  {
    if ends == [] {
      assert ([] + [e])[1..] == [];
    } else {
      AllHeldAppend(ends[1..], e, m);
      assert (ends + [e])[1..] == ends[1..] + [e];
    }
  }

  lemma {:induction false} AllHeldUpdate(ends: seq<Endpoint>, i: nat, e: Endpoint, m: Msg)
    requires i < |ends|
    ensures AllHeld(ends[i := e], m) + Held(ends[i], m) == AllHeld(ends, m) + Held(e, m)
  {
    if i == 0 {
      assert ends[0 := e][1..] == ends[1..];
    } else {
      AllHeldUpdate(ends[1..], i - 1, e, m);
      assert ends[i := e][1..] == ends[1..][i - 1 := e];
    }
  }

  predicate Born(w: World, m: Msg) {
    m in w.born
  }

  ghost predicate WorldInv(w: World) {
    && (forall i | 0 <= i < |w.ends| :: Inv(w.ends[i]))
    && (forall m: Msg :: Census(w, m) == if Born(w, m) then 1 else 0)
  }

  lemma TrafficEntering(s: Endpoint, l: Label)
    ensures TrafficOf(s, l).fromUser == if l.CallSend? then Some(l.m) else None
    ensures TrafficOf(s, l).born == if l.Arrive? then Some(l.m) else None
  {
  }

  lemma SharedPlaces(w: World, i: nat, l: Label, m: Msg)
    requires Possible(w, At(i, l))
    ensures var w', f := Happen(w, At(i, l)), TrafficOf(w.ends[i], l);
            && w'.user[m] + In(f.fromUser, m) == w.user[m] + In(f.toUser, m)
            && w'.nng[m] == w.nng[m] + In(f.toNng, m)
            && w'.freed[m] == w.freed[m] + Occurrences(f.freed, m)
            && In(f.born, m) == if l == Arrive(m) then 1 else 0
  {
    var f := TrafficOf(w.ends[i], l);
    TrafficEntering(w.ends[i], l);
    OccurrencesOfOption([], f.toUser, m);
    OccurrencesOfOption([], f.toNng, m);
    assert f.fromUser == Some(m) ==> m in w.user;
  }

  lemma AtKeepsCensus(w: World, i: nat, l: Label, m: Msg)
    requires i < |w.ends| && Inv(w.ends[i]) && Possible(w, At(i, l))
    ensures Census(Happen(w, At(i, l)), m) == Census(w, m) + if l == Arrive(m) then 1 else 0
  {
    SharedPlaces(w, i, l, m);
    StepConserves(w.ends[i], l, m);
    AllHeldUpdate(w.ends, i, Apply(w.ends[i], l), m);
  }

  lemma OtherKeepsCensus(w: World, e: Event, m: Msg)
    requires !e.At? && Possible(w, e)
    ensures Census(Happen(w, e), m) == Census(w, m) + if e == Alloc(m) then 1 else 0
  {
    if e.Open? { AllHeldAppend(w.ends, Fresh, m); }
  }

  lemma BornBy(w: World, e: Event, m: Msg)
    requires Possible(w, e)
    ensures Born(Happen(w, e), m) <==> Born(w, m) || e == Alloc(m) || (e.At? && e.l == Arrive(m))
    ensures Born(w, m) ==> e != Alloc(m) && !(e.At? && e.l == Arrive(m))
  {
  }

  lemma EventCensus(w: World, e: Event, m: Msg)
    requires Possible(w, e) && (e.At? ==> Inv(w.ends[e.i]))
    requires Census(w, m) == if Born(w, m) then 1 else 0
    ensures Census(Happen(w, e), m) == if Born(Happen(w, e), m) then 1 else 0
  {
    BornBy(w, e, m);
    if e.At? { AtKeepsCensus(w, e.i, e.l, m); } else { OtherKeepsCensus(w, e, m); }
  }

  lemma EventEnds(w: World, e: Event)
    requires Possible(w, e) && forall i | 0 <= i < |w.ends| :: Inv(w.ends[i])
    ensures forall i | 0 <= i < |Happen(w, e).ends| :: Inv(Happen(w, e).ends[i])
  {
    if e.At? { StepInv(w.ends[e.i], e.l); }
  }

  lemma EventInv(w: World, e: Event)
    requires WorldInv(w) && Possible(w, e)
    ensures WorldInv(Happen(w, e))
  {
    forall m: Msg
      ensures Census(Happen(w, e), m) == if Born(Happen(w, e), m) then 1 else 0
    {
      EventCensus(w, e, m);
    }
    EventEnds(w, e);
  }

  lemma {:induction false} HistoryInv(es: seq<Event>)
    requires History(es).Some?
    ensures WorldInv(History(es).value)
  {
    if es != [] {
      HistoryInv(es[..|es| - 1]);
      EventInv(History(es[..|es| - 1]).value, es[|es| - 1]);
    }
  }

  /** The places a message can be in. */
  datatype Place = User | Nng | Freed | Aio(i: nat) | Stash(i: nat) | Queue(i: nat)

  function CountAt(w: World, p: Place, m: Msg): nat {
    match p
    case User => w.user[m]
    case Nng => w.nng[m]
    case Freed => w.freed[m]
    case Aio(i) => if i < |w.ends| then In(w.ends[i].owns, m) else 0
    case Stash(i) => if i < |w.ends| then In(w.ends[i].stash, m) else 0
    case Queue(i) => if i < |w.ends| then Occurrences(w.ends[i].queue, m) else 0
  }

  lemma {:induction false} HeldIsCounted(ends: seq<Endpoint>, i: nat, m: Msg)
    requires i < |ends|
    ensures AllHeld(ends, m) >= Held(ends[i], m)
  {
    if i > 0 { HeldIsCounted(ends[1..], i - 1, m); }
  }

  lemma {:induction false} HeldIsCountedApart(ends: seq<Endpoint>, i: nat, j: nat, m: Msg)
    requires i < j < |ends|
    ensures AllHeld(ends, m) >= Held(ends[i], m) + Held(ends[j], m)
  {
    if i == 0 {
      HeldIsCounted(ends[1..], j - 1, m);
    } else {
      HeldIsCountedApart(ends[1..], i - 1, j - 1, m);
    }
  }

  /** Two different places together never count more than the census. */
  lemma TwoPlaces(w: World, p: Place, q: Place, m: Msg)
    requires p != q
    ensures CountAt(w, p, m) + CountAt(w, q, m) <= Census(w, m)
  {
    var pIn := !p.User? && !p.Nng? && !p.Freed? && p.i < |w.ends|;
    var qIn := !q.User? && !q.Nng? && !q.Freed? && q.i < |w.ends|;
    if pIn && qIn && p.i < q.i {
      HeldIsCountedApart(w.ends, p.i, q.i, m);
    } else if pIn && qIn && q.i < p.i {
      HeldIsCountedApart(w.ends, q.i, p.i, m);
    } else {
      if pIn { HeldIsCounted(w.ends, p.i, m); }
      if qIn { HeldIsCounted(w.ends, q.i, m); }
    }
  }

  lemma {:induction false} HeldSomewhere(ends: seq<Endpoint>, m: Msg) returns (i: nat)
    requires AllHeld(ends, m) > 0
    ensures i < |ends| && Held(ends[i], m) > 0
  {
    if Held(ends[0], m) > 0 {
      i := 0;
    } else {
      i := HeldSomewhere(ends[1..], m);
      i := i + 1;
    }
  }

  lemma CountedSomewhere(w: World, m: Msg) returns (p: Place)
    requires Census(w, m) > 0
    ensures CountAt(w, p, m) > 0
  {
    if w.user[m] > 0 {
      p := User;
    } else if w.nng[m] > 0 {
      p := Nng;
    } else if w.freed[m] > 0 {
      p := Freed;
    } else {
      var i := HeldSomewhere(w.ends, m);
      p := if In(w.ends[i].owns, m) > 0 then Aio(i) else if In(w.ends[i].stash, m) > 0 then Stash(i) else Queue(i);
    }
  }

  /**
   * Linear ownership: in every history, over any number of endpoints, a message that exists is in
   * exactly one place, once. So none is freed twice, freed while NNG or a stash has it, or owned by
   * two endpoints; and an endpoint that no future uses owns none through its AIO.
   */
  lemma ExactlyOnePlace(es: seq<Event>, m: Msg) returns (p: Place)
    requires History(es).Some? && m in History(es).value.born
    ensures var w := History(es).value;
            && CountAt(w, p, m) == 1
            && (forall q: Place | q != p :: CountAt(w, q, m) == 0)
            && (p.Aio? ==> p.i < |w.ends| && w.ends[p.i].pc != Resting && w.ends[p.i].pc != Gone)
  {
    HistoryInv(es);
    var w := History(es).value;
    assert Born(w, m) && Census(w, m) == 1;
    p := CountedSomewhere(w, m);
    forall q: Place | q != p
      ensures CountAt(w, q, m) == 0
    {
      TwoPlaces(w, p, q, m);
    }
    TwoPlaces(w, p, if p == User then Nng else User, m);
  }

  /** A message is nowhere before it is created. */
  lemma UnbornIsNowhere(es: seq<Event>, m: Msg, p: Place)
    requires History(es).Some? && m !in History(es).value.born
    ensures CountAt(History(es).value, p, m) == 0
  {
    HistoryInv(es);
    assert !Born(History(es).value, m);
    TwoPlaces(History(es).value, p, if p == User then Nng else User, m);
  }
}
