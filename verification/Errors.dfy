/**
 * Result codes: `nng_err` to `ErrorKind` to `AioError` to `io::Error`, and what the survey stream makes of
 * them. Which `io::ErrorKind` an OS error code stands for is the standard library's table: the parameter
 * `kindOf`, about which nothing is assumed.
 */
module Errors {
  import opened Options
  import Endpoints

  datatype ErrorCode =
    | EINTR | ENOMEM | EINVAL | EBUSY | ETIMEDOUT | ECONNREFUSED | ECLOSED | EAGAIN | ENOTSUP | EADDRINUSE
    | ESTATE | ENOENT | EPROTO | EUNREACHABLE | EADDRINVAL | EPERM | EMSGSIZE | ECONNABORTED | ECONNRESET
    | ECANCELED | ENOFILES | ENOSPC | EEXIST | EREADONLY | EWRITEONLY | ECRYPTO | EPEERAUTH | EBADTYPE
    | ECONNSHUT | ESTOPPED | EINTERNAL

  /** A result code, which is a non-zero u32. */
  type Code = e: nat | 0 < e < 0x1_0000_0000 witness 1

  /** `io::ErrorKind`, numbered. */
  type OsKind = nat

  datatype ErrorKind = NngError(code: ErrorCode) | Transport(payload: nat) | System(kind: OsKind) | Other(number: nat)

  datatype AioError = TimedOut | Cancelled | Operation(kind: ErrorKind)

  const ETRANERR: nat := 0x2000_0000
  const ESYSERR: nat := 0x1000_0000

  /** The discriminant of the code. */
  function Number(c: ErrorCode): nat {
    match c
    case EINTR => 1 case ENOMEM => 2 case EINVAL => 3 case EBUSY => 4 case ETIMEDOUT => 5
    case ECONNREFUSED => 6 case ECLOSED => 7 case EAGAIN => 8 case ENOTSUP => 9 case EADDRINUSE => 10
    case ESTATE => 11 case ENOENT => 12 case EPROTO => 13 case EUNREACHABLE => 14 case EADDRINVAL => 15
    case EPERM => 16 case EMSGSIZE => 17 case ECONNABORTED => 18 case ECONNRESET => 19 case ECANCELED => 20
    case ENOFILES => 21 case ENOSPC => 22 case EEXIST => 23 case EREADONLY => 24 case EWRITEONLY => 25
    case ECRYPTO => 26 case EPEERAUTH => 27 case EBADTYPE => 30 case ECONNSHUT => 31
    case ESTOPPED => 999 case EINTERNAL => 1000
  }

  function Known(e: nat): Option<ErrorCode> {
    match e
    case 1 => Some(EINTR) case 2 => Some(ENOMEM) case 3 => Some(EINVAL) case 4 => Some(EBUSY)
    case 5 => Some(ETIMEDOUT) case 6 => Some(ECONNREFUSED) case 7 => Some(ECLOSED) case 8 => Some(EAGAIN)
    case 9 => Some(ENOTSUP) case 10 => Some(EADDRINUSE) case 11 => Some(ESTATE) case 12 => Some(ENOENT)
    case 13 => Some(EPROTO) case 14 => Some(EUNREACHABLE) case 15 => Some(EADDRINVAL) case 16 => Some(EPERM)
    case 17 => Some(EMSGSIZE) case 18 => Some(ECONNABORTED) case 19 => Some(ECONNRESET)
    case 20 => Some(ECANCELED) case 21 => Some(ENOFILES) case 22 => Some(ENOSPC) case 23 => Some(EEXIST)
    case 24 => Some(EREADONLY) case 25 => Some(EWRITEONLY) case 26 => Some(ECRYPTO) case 27 => Some(EPEERAUTH)
    case 30 => Some(EBADTYPE) case 31 => Some(ECONNSHUT) case 999 => Some(ESTOPPED) case 1000 => Some(EINTERNAL)
    case _ => None
  }

  /** `e & flag != 0` for a flag that is a power of two. */
  predicate HasFlag(e: nat, flag: nat)
    requires flag > 0
  {
    e / flag % 2 == 1
  }

  /** `ErrorKind::from_nng_err`, which panics on zero. */
  function FromNngErr(kindOf: nat -> OsKind, e: nat): ErrorKind
    requires e > 0
  {
    if Known(e).Some? then NngError(Known(e).value)
    else if HasFlag(e, ETRANERR) then Transport(e - ETRANERR)
    else if HasFlag(e, ESYSERR) then System(kindOf(e - ESYSERR))
    else Other(e)
  }

  /** The code is classified by its system flag. */
  predicate IsSystem(e: nat) {
    Known(e).None? && !HasFlag(e, ETRANERR) && HasFlag(e, ESYSERR)
  }

  lemma KnownInvertsNumber(c: ErrorCode)
    ensures Known(Number(c)) == Some(c)
  {
    match c { case _ => }
  }

  /** No other code is classified like `e`, so that `e` can be read back from its `ErrorKind`. */
  ghost predicate CanBeReadBack(kindOf: nat -> OsKind, e: Code) {
    forall d: Code | FromNngErr(kindOf, d) == FromNngErr(kindOf, e) :: d == e
  }

  /** No other system code has the same `io::ErrorKind`. */
  ghost predicate HasKindOfItsOwn(kindOf: nat -> OsKind, e: Code)
    requires IsSystem(e)
  {
    forall d: Code | IsSystem(d) && kindOf(d - ESYSERR) == kindOf(e - ESYSERR) :: d == e
  }

  /** What distinguishes codes outside the system range: number, payload or raw value. */
  lemma OnlySystemCodesCollide(kindOf: nat -> OsKind, d: Code, e: Code)
    requires FromNngErr(kindOf, d) == FromNngErr(kindOf, e) && d != e
    ensures IsSystem(d) && IsSystem(e) && kindOf(d - ESYSERR) == kindOf(e - ESYSERR)
  {
  }

  /**
   * Classifying loses only what the standard library's table loses: a code can be read back from its
   * `ErrorKind` if and only if it is not a system code, or no other system code has the same kind.
   */
  lemma ReadBackIffNoKindIsShared(kindOf: nat -> OsKind, e: Code)
    ensures CanBeReadBack(kindOf, e) <==> !IsSystem(e) || HasKindOfItsOwn(kindOf, e)
  {
    forall d: Code | FromNngErr(kindOf, d) == FromNngErr(kindOf, e) && d != e
      ensures IsSystem(e) && !HasKindOfItsOwn(kindOf, e)
    {
      OnlySystemCodesCollide(kindOf, d, e);
    }
    if IsSystem(e) && CanBeReadBack(kindOf, e) {
      forall d: Code | IsSystem(d) && kindOf(d - ESYSERR) == kindOf(e - ESYSERR)
        ensures d == e
      {
        assert FromNngErr(kindOf, d) == FromNngErr(kindOf, e);
      }
    }
  }

  /** EPERM and EACCES, for one, have one kind in the standard library, and so become one error here. */
  lemma PermissionErrorsCollide(kindOf: nat -> OsKind)
    requires kindOf(1) == kindOf(13)
    ensures FromNngErr(kindOf, ESYSERR + 1) == FromNngErr(kindOf, ESYSERR + 13)
    ensures !CanBeReadBack(kindOf, ESYSERR + 1) && !CanBeReadBack(kindOf, ESYSERR + 13)
  {
    assert FromNngErr(kindOf, ESYSERR + 1) == FromNngErr(kindOf, ESYSERR + 13);
  }

  /** The error part of `wait`'s result match. */
  function WaitError(kindOf: nat -> OsKind, e: nat): AioError
    requires e > 0
  {
    if e == Number(ECANCELED) then Cancelled
    else if e == Number(ETIMEDOUT) then TimedOut
    else Operation(FromNngErr(kindOf, e))
  }

  datatype TryOutcome = Message | WouldBlock | Failed(error: AioError) | Panics

  /** The match of `try_recv_msg` on the result of the non-blocking receive. */
  function TryRecvOutcome(e: nat): TryOutcome {
    match Known(e)
    case None => if e == 0 then Message else Panics
    case Some(EAGAIN) => WouldBlock
    case Some(ENOTSUP) => Failed(Operation(NngError(ENOTSUP)))
    case Some(ESTATE) => Failed(Operation(NngError(ESTATE)))
    case Some(ETIMEDOUT) => Failed(TimedOut)
    case Some(_) => Panics
  }

  datatype IoKind =
    | IoTimedOut | Interrupted | ResourceBusy | WouldBlockKind | Unsupported | AddrInUse | NotFound
    | PermissionDenied | InvalidData | ConnectionAborted | QuotaExceeded | StorageFull | AlreadyExists
    | InvalidInput | BrokenPipe | ConnectionRefused | ConnectionReset | OutOfMemory | HostUnreachable
    | FromOs(kind: OsKind) | OtherKind

  /** `From<AioError> for io::Error`; None stands for its `unreachable!` arms. */
  function ToIo(err: AioError): Option<IoKind> {
    match err
    case TimedOut => Some(IoTimedOut)
    case Cancelled => Some(Interrupted)
    case Operation(Transport(_)) => Some(OtherKind)
    case Operation(System(k)) => Some(FromOs(k))
    case Operation(Other(_)) => Some(OtherKind)
    case Operation(NngError(c)) =>
      match c
      case ETIMEDOUT => None
      case ECANCELED => None
      case EINTR => None
      case EBUSY => Some(ResourceBusy)
      case EAGAIN => Some(WouldBlockKind)
      case ENOTSUP => Some(Unsupported)
      case EADDRINUSE => Some(AddrInUse)
      case ENOENT => Some(NotFound)
      case EPERM => Some(PermissionDenied)
      case EMSGSIZE => Some(InvalidData)
      case ECONNABORTED => Some(ConnectionAborted)
      case ENOFILES => Some(QuotaExceeded)
      case ENOSPC => Some(StorageFull)
      case EEXIST => Some(AlreadyExists)
      case EREADONLY => Some(Unsupported)
      case EWRITEONLY => Some(Unsupported)
      case EBADTYPE => Some(InvalidInput)
      case EADDRINVAL => Some(InvalidInput)
      case EINVAL => Some(InvalidInput)
      case ECONNSHUT => Some(BrokenPipe)
      case ECLOSED => Some(BrokenPipe)
      case ECONNREFUSED => Some(ConnectionRefused)
      case ECONNRESET => Some(ConnectionReset)
      case ENOMEM => Some(OutOfMemory)
      case EPEERAUTH => Some(ConnectionAborted)
      case EUNREACHABLE => Some(HostUnreachable)
      case _ => Some(OtherKind)
  }

  /** The code's two flag bits leave 28 bits: a payload never contains the flag it was read by. */
  lemma PayloadIsWithoutFlag(kindOf: nat -> OsKind, e: nat)
    requires 0 < e < 2 * ETRANERR
    ensures FromNngErr(kindOf, e).Transport? ==>
              FromNngErr(kindOf, e).payload < ETRANERR && e == ETRANERR + FromNngErr(kindOf, e).payload
    ensures FromNngErr(kindOf, e).Transport? <==> e >= ETRANERR
  {
  }

  /** A code that is neither known nor flagged is kept as it is. */
  lemma OtherCodesAreKept(kindOf: nat -> OsKind, e: nat)
    requires 0 < e < ESYSERR && Known(e).None?
    ensures FromNngErr(kindOf, e) == Other(e) && ToIo(WaitError(kindOf, e)) == Some(OtherKind)
  {
  }

  /** The kinds that several result codes lead to; all codes without a kind of their own are "other". */
  lemma IoKindsByGroup(kindOf: nat -> OsKind, e: nat)
    requires 0 < e < ESYSERR && e != Number(EINTR)
    ensures var k := ToIo(WaitError(kindOf, e));
            && (k == Some(InvalidInput) <==> e == 3 || e == 15 || e == 30)
            && (k == Some(BrokenPipe) <==> e == 7 || e == 31)
            && (k == Some(Unsupported) <==> e == 9 || e == 24 || e == 25)
            && (k == Some(ConnectionAborted) <==> e == 18 || e == 27)
            && (k == Some(OtherKind) <==> e == 11 || e == 13 || e == 26 || e == 28 || e == 29 || e > 31)
  {
  }

  /** The code of each kind that only one result code leads to. */
  function CodeOfKind(k: IoKind): Option<nat> {
    match k
    case OutOfMemory => Some(2)
    case ResourceBusy => Some(4)
    case IoTimedOut => Some(5)
    case ConnectionRefused => Some(6)
    case WouldBlockKind => Some(8)
    case AddrInUse => Some(10)
    case NotFound => Some(12)
    case HostUnreachable => Some(14)
    case PermissionDenied => Some(16)
    case InvalidData => Some(17)
    case ConnectionReset => Some(19)
    case Interrupted => Some(20)
    case QuotaExceeded => Some(21)
    case StorageFull => Some(22)
    case AlreadyExists => Some(23)
    case _ => None
  }

  lemma IoKindsOfOneCode(kindOf: nat -> OsKind, k: IoKind, e: nat)
    requires CodeOfKind(k).Some? && 0 < e
    ensures ToIo(WaitError(kindOf, e)) == Some(k) <==> e == CodeOfKind(k).value
  {
    if Known(e).None? { assert WaitError(kindOf, e).Operation? && !WaitError(kindOf, e).kind.NngError?; }
  }

  /** A flagged code keeps what the table of OS kinds says of it, or is "other" when it is the transport's. */
  lemma IoKindOfFlagged(kindOf: nat -> OsKind, e: nat)
    requires ESYSERR <= e < 2 * ETRANERR
    ensures ToIo(WaitError(kindOf, e)) ==
            Some(if e < ETRANERR then FromOs(kindOf(e - ESYSERR)) else OtherKind)
  {
  }

  /** `wait` never wraps a timeout or a cancellation in `Operation`. */
  lemma WaitErrorNormalForm(kindOf: nat -> OsKind, e: nat)
    requires e > 0
    ensures WaitError(kindOf, e) != Operation(NngError(ETIMEDOUT))
    ensures WaitError(kindOf, e) != Operation(NngError(ECANCELED))
    ensures (WaitError(kindOf, e) == TimedOut <==> e == 5) && (WaitError(kindOf, e) == Cancelled <==> e == 20)
  {
  }

  /** Over all codes, converting `wait`'s error to `io::Error` hits an `unreachable!` exactly for NNG_EINTR. */
  lemma OnlyInterruptIsUnreachable(kindOf: nat -> OsKind, e: nat)
    requires e > 0
    ensures ToIo(WaitError(kindOf, e)) == None <==> e == 1
  {
    WaitErrorNormalForm(kindOf, e);
    KnownInvertsNumber(EINTR);
  }

  /** Whatever the non-blocking receive returns, an error that `try_recv_msg` lets out converts without panicking. */
  lemma TryRecvErrorsConvert(e: nat)
    requires TryRecvOutcome(e).Failed?
    ensures ToIo(TryRecvOutcome(e).error).Some?
    ensures e == 5 || e == 9 || e == 11
  {
  }

  /** What `try_recv_msg` makes of a result: a message exactly on success, and the errors `wait` would build. */
  lemma TryRecvAgreesWithWait(kindOf: nat -> OsKind, e: nat)
    ensures TryRecvOutcome(e) == Message <==> e == 0
    ensures TryRecvOutcome(e).Failed? <==> e == 5 || e == 9 || e == 11
    ensures TryRecvOutcome(e).Failed? ==> TryRecvOutcome(e).error == WaitError(kindOf, e)
  {
  }

  /** The results `try_recv_msg` handles; all others it takes to be impossible. */
  lemma TryRecvHandles(e: nat)
    ensures TryRecvOutcome(e) != Panics <==> Endpoints.Handled(e)
    ensures TryRecvOutcome(e) == WouldBlock <==> e == 8
  {
  }

  // ----- the survey stream -----

  datatype StreamItem = Item | End | NotYet | Trouble(error: AioError)

  /** `SurveyResponses::next` on a receive that failed. */
  function NextOnError(err: AioError): StreamItem {
    match err
    case TimedOut => End
    case Operation(NngError(ESTATE)) => End
    case e => Trouble(e)
  }

  /** `SurveyResponses::try_next`. */
  function TryNextOn(r: TryOutcome): StreamItem
    requires !r.Panics?
  {
    match r
    case Message => Item
    case WouldBlock => NotYet
    case Failed(Operation(NngError(ESTATE))) => End
    case Failed(e) => Trouble(e)
  }

  /** `next` ends the stream exactly on ETIMEDOUT and ESTATE, `try_next` exactly on ESTATE. */
  lemma StreamEnds(kindOf: nat -> OsKind, e: nat)
    requires e > 0
    ensures NextOnError(WaitError(kindOf, e)) == End <==> e == 5 || e == 11
    ensures !TryRecvOutcome(e).Panics? ==> (TryNextOn(TryRecvOutcome(e)) == End <==> e == 11)
  {
    WaitErrorNormalForm(kindOf, e);
    KnownInvertsNumber(ESTATE);
  }

  /** Any other error is passed on as it is, by `next` and by `try_next`. */
  lemma StreamPassesOtherErrorsOn(kindOf: nat -> OsKind, e: nat)
    requires e > 0
    ensures e != 5 && e != 11 ==> NextOnError(WaitError(kindOf, e)) == Trouble(WaitError(kindOf, e))
    ensures TryRecvOutcome(e).Failed? && e != 11 ==>
              TryNextOn(TryRecvOutcome(e)) == Trouble(WaitError(kindOf, e))
  {
    StreamEnds(kindOf, e);
    TryRecvAgreesWithWait(kindOf, e);
  }

  /** `try_next` yields an item exactly when there was a message, and "not yet" exactly when it would block. */
  lemma TryNextAnswers(e: nat)
    requires !TryRecvOutcome(e).Panics?
    ensures TryNextOn(TryRecvOutcome(e)) == Item <==> e == 0
    ensures TryNextOn(TryRecvOutcome(e)) == NotYet <==> e == 8
    ensures TryNextOn(TryRecvOutcome(e)) == End <==> e == 11
  {
  }
}
