/**
 * What each operation of the `anng` `Message` does to its header, body, capacity and read cursor, and
 * what holds over runs of them. NNG's part of the contract: `nng_msg_reserve` does nothing when the
 * capacity suffices and otherwise sets it exactly; insert and realloc grow the capacity at least as far
 * as the new body needs.
 */
module Buffers {
  import opened Options
  import Growth

  newtype Byte = b: int | 0 <= b < 256

  datatype Buf = Buf(header: seq<Byte>, body: seq<Byte>, cap: nat, pos: nat)

  function Larger(a: nat, b: nat): nat {
    if a >= b then a else b
  }

  function Smaller(a: nat, b: nat): nat {
    if a <= b then a else b
  }

  /** NNG's allocation: 32 bytes of headroom unless the size is a power of two from 1024 up. */
  function Allocated(size: nat): nat {
    if size >= 1024 && Growth.IsPow2(size) then size else size + 32
  }

  // ----- the operations -----

  function ReserveExact(m: Buf, additional: nat): Buf {
    m.(cap := Larger(m.cap, |m.body| + additional))
  }

  function Reserve(bits: nat, m: Buf, additional: nat): Buf {
    if |m.body| + additional > m.cap
    then m.(cap := Growth.NewCapacity(bits, m.cap, |m.body| + additional)) else m
  }

  function Write(bits: nat, m: Buf, data: seq<Byte>): Buf {
    Reserve(bits, m, |data|).(body := m.body + data)
  }

  function Truncate(m: Buf, len: nat): Buf {
    if len > |m.body| then m else m.(body := m.body[..len], pos := Smaller(m.pos, len))
  }

  function TruncateFront(m: Buf, len: nat): Buf {
    if len > |m.body| then m
    else
      var trim := |m.body| - len;
      m.(body := m.body[trim..], pos := if m.pos >= trim then m.pos - trim else 0)
  }

  function HeaderTruncate(m: Buf, len: nat): Buf {
    if len > |m.header| then m else m.(header := m.header[..len])
  }

  function HeaderTruncateFront(m: Buf, len: nat): Buf {
    if len > |m.header| then m else m.(header := m.header[|m.header| - len..])
  }

  function Prepend(m: Buf, data: seq<Byte>): Buf {
    m.(body := data + m.body, cap := Larger(m.cap, |m.body| + |data|))
  }

  function WriteHeader(m: Buf, data: seq<Byte>): Buf {
    m.(header := m.header + data)
  }

  function PrependHeader(m: Buf, data: seq<Byte>): Buf {
    m.(header := data + m.header)
  }

  function Clear(m: Buf): Buf {
    HeaderTruncate(Truncate(m, 0), 0).(pos := 0)
  }

  /** `tail` is whatever the memory past the old end holds. */
  function SetLen(m: Buf, len: nat, tail: seq<Byte>): Buf
    requires |m.body| + |tail| == Larger(len, |m.body|)
  {
    if len > |m.body| then m.(body := m.body + tail, cap := Larger(m.cap, len), pos := Smaller(m.pos, len))
    else Truncate(m, len)
  }

  function Remaining(m: Buf): nat {
    if m.pos <= |m.body| then |m.body| - m.pos else 0
  }

  /** `chunk`: None where slicing panics. */
  function Chunk(m: Buf): Option<seq<Byte>> {
    if m.pos <= |m.body| then Some(m.body[m.pos..]) else None
  }

  /** `advance`: None where it panics. */
  function Advance(m: Buf, cnt: nat): Option<Buf> {
    if m.pos + cnt > |m.body| then None else Some(m.(pos := m.pos + cnt))
  }

  function CloneFrom(bits: nat, m: Buf, source: Buf): Buf {
    WriteHeader(HeaderTruncate(Write(bits, Truncate(m, 0), source.body), 0), source.header).(pos := source.pos)
  }

  /** The copy made in place is the copy made afresh, whatever the target held before. */
  lemma CloneFromIsClone(bits: nat, m: Buf, source: Buf)
    ensures var c := CloneFrom(bits, m, source);
            c.header == source.header && c.body == source.body && c.pos == source.pos && Chunk(c) == Chunk(source)
  {
    assert [] + source.body == source.body && [] + source.header == source.header;
  }

  // ----- the cursor over runs of the whole interface -----

  datatype Op =
    | OpReserve(k: nat) | OpReserveExact(k: nat) | OpWrite(data: seq<Byte>) | OpPrepend(data: seq<Byte>)
    | OpTruncate(len: nat) | OpTruncateFront(len: nat) | OpSetLen(len: nat, tail: seq<Byte>) | OpClear
    | OpHeaderTruncate(len: nat) | OpHeaderTruncateFront(len: nat)
    | OpWriteHeader(data: seq<Byte>) | OpPrependHeader(data: seq<Byte>)
    | OpAdvance(cnt: nat) | OpCloneFrom(script: seq<Op>) | OpMutate(index: nat, b: Byte)

  /** None: the operation panics, or its caller broke an unsafe contract. */
  function Do(bits: nat, m: Buf, op: Op): Option<Buf>
    decreases op, 0
  {
    match op
    case OpReserve(k) => Some(Reserve(bits, m, k))
    case OpReserveExact(k) => Some(ReserveExact(m, k))
    case OpWrite(d) => Some(Write(bits, m, d))
    case OpPrepend(d) => Some(Prepend(m, d))
    case OpTruncate(len) => Some(Truncate(m, len))
    case OpTruncateFront(len) => Some(TruncateFront(m, len))
    case OpSetLen(len, tail) => if |m.body| + |tail| == Larger(len, |m.body|) then Some(SetLen(m, len, tail)) else None
    case OpClear => Some(Clear(m))
    case OpHeaderTruncate(len) => Some(HeaderTruncate(m, len))
    case OpHeaderTruncateFront(len) => Some(HeaderTruncateFront(m, len))
    case OpWriteHeader(d) => Some(WriteHeader(m, d))
    case OpPrependHeader(d) => Some(PrependHeader(m, d))
    case OpAdvance(cnt) => Advance(m, cnt)
    case OpCloneFrom(script) =>
      (match DoAll(bits, Buf([], [], Allocated(0), 0), script)
       case None => None
       case Some(source) => Some(CloneFrom(bits, m, source)))
    case OpMutate(i, b) => if i < |m.body| then Some(m.(body := m.body[i := b])) else None
  }

  function DoAll(bits: nat, m: Buf, ops: seq<Op>): Option<Buf>
    decreases ops, 1
  {
    if ops == [] then Some(m)
    else
      match Do(bits, m, ops[0])
      case None => None
      case Some(m') => DoAll(bits, m', ops[1..])
  }

  lemma {:induction false} DoKeepsCursor(bits: nat, m: Buf, op: Op)
    requires m.pos <= |m.body| && Do(bits, m, op).Some?
    ensures Do(bits, m, op).value.pos <= |Do(bits, m, op).value.body|
    decreases op, 0
  {
    if op.OpCloneFrom? {
      CursorWithinBody(bits, Buf([], [], Allocated(0), 0), op.script);
      CloneFromIsClone(bits, m, DoAll(bits, Buf([], [], Allocated(0), 0), op.script).value);
    }
  }

  /**
   * In every run of the interface, copies from messages with runs of their own included, the cursor stays
   * within the body, so `chunk` never panics and has `remaining` bytes.
   */
  lemma {:induction false} CursorWithinBody(bits: nat, m: Buf, ops: seq<Op>)
    requires m.pos <= |m.body| && DoAll(bits, m, ops).Some?
    ensures var r := DoAll(bits, m, ops).value;
            r.pos <= |r.body| && Chunk(r).Some? && |Chunk(r).value| == Remaining(r)
    decreases ops, 1
  {
    if ops != [] {
      DoKeepsCursor(bits, m, ops[0]);
      CursorWithinBody(bits, Do(bits, m, ops[0]).value, ops[1..]);
    }
  }

  // ----- the body fits the capacity -----

  /** The documented headroom: 32 bytes, but none for the powers of two from 1024 up. */
  lemma AllocatedSizes(size: nat, b: nat)
    ensures Allocated(size) == size || Allocated(size) == size + 32
    ensures size < 1024 ==> Allocated(size) == size + 32
    ensures b >= 10 ==> Allocated(Growth.Pow2(b)) == Growth.Pow2(b)
  {
    if b >= 10 {
      Growth.Pow2Monotone(10, b);
      assert Growth.Pow2(10) == 1024;
      Growth.NextPow2OfPow2(Growth.Pow2(b), b);
    }
  }

  lemma {:induction false} DoKeepsRoom(bits: nat, m: Buf, op: Op)
    requires |m.body| <= m.cap && Do(bits, m, op).Some?
    ensures |Do(bits, m, op).value.body| <= Do(bits, m, op).value.cap
  {
  }

  /** In every run of the interface the body fits the capacity; a fresh message has room for the size asked for. */
  lemma {:induction false} BodyFitsCapacity(bits: nat, size: nat, ops: seq<Op>)
    requires DoAll(bits, Buf([], [], Allocated(size), 0), ops).Some?
    ensures Allocated(size) >= size
    ensures var r := DoAll(bits, Buf([], [], Allocated(size), 0), ops).value;
            |r.body| <= r.cap
  {
    AllocatedSizes(size, 0);
    RunKeepsRoom(bits, Buf([], [], Allocated(size), 0), ops);
  }

  lemma {:induction false} RunKeepsRoom(bits: nat, m: Buf, ops: seq<Op>)
    requires |m.body| <= m.cap && DoAll(bits, m, ops).Some?
    ensures |DoAll(bits, m, ops).value.body| <= DoAll(bits, m, ops).value.cap
    decreases ops
  {
    if ops != [] {
      DoKeepsRoom(bits, m, ops[0]);
      RunKeepsRoom(bits, Do(bits, m, ops[0]).value, ops[1..]);
    }
  }

  // ----- the message as a byte queue -----

  datatype Act = Put(data: seq<Byte>) | Get(cnt: nat) | Compact

  /** A reader and a writer share the message; `read` is what the reader has consumed. */
  datatype Pipe = Pipe(m: Buf, read: seq<Byte>)

  function Act1(bits: nat, p: Pipe, a: Act): Option<Pipe> {
    match a
    case Put(d) => Some(p.(m := Write(bits, p.m, d)))
    case Compact => Some(p.(m := TruncateFront(p.m, Remaining(p.m))))
    case Get(n) =>
      match Advance(p.m, n)
      case None => None
      case Some(m') => Some(Pipe(m', p.read + p.m.body[p.m.pos..m'.pos]))
  }

  function Play(bits: nat, p: Pipe, acts: seq<Act>): Option<Pipe> {
    if acts == [] then Some(p)
    else
      match Play(bits, p, acts[..|acts| - 1])
      case None => None
      case Some(q) => Act1(bits, q, acts[|acts| - 1])
  }

  function Written(acts: seq<Act>): seq<Byte> {
    if acts == [] then []
    else Written(acts[..|acts| - 1]) + (match acts[|acts| - 1] case Put(d) => d case _ => [])
  }

  lemma ActKeepsQueue(bits: nat, p: Pipe, a: Act, done: seq<Byte>)
    requires p.m.pos <= |p.m.body| && done == p.read + p.m.body[p.m.pos..] && Act1(bits, p, a).Some?
    ensures var q := Act1(bits, p, a).value;
            && q.m.pos <= |q.m.body|
            && done + (match a case Put(d) => d case _ => []) == q.read + q.m.body[q.m.pos..]
  {
    match a
    case Put(d) => assert (p.m.body + d)[p.m.pos..] == p.m.body[p.m.pos..] + d;
    case Get(n) => assert p.m.body[p.m.pos..] == p.m.body[p.m.pos..p.m.pos + n] + p.m.body[p.m.pos + n..];
    case Compact => assert p.m.body[p.m.pos..][0..] == p.m.body[p.m.pos..];
  }

  /** First in, first out: what was read, then what `chunk` shows, is what was written. */
  lemma {:induction false} ReadsFollowWrites(bits: nat, cap: nat, acts: seq<Act>)
    requires Play(bits, Pipe(Buf([], [], cap, 0), []), acts).Some?
    ensures var p := Play(bits, Pipe(Buf([], [], cap, 0), []), acts).value;
            p.m.pos <= |p.m.body| && Written(acts) == p.read + p.m.body[p.m.pos..]
  {
    if acts != [] {
      var ks := acts[..|acts| - 1];
      ReadsFollowWrites(bits, cap, ks);
      ActKeepsQueue(bits, Play(bits, Pipe(Buf([], [], cap, 0), []), ks).value, acts[|acts| - 1], Written(ks));
    }
  }

  function WithoutCompact(acts: seq<Act>): seq<Act> {
    if acts == [] then []
    else WithoutCompact(acts[..|acts| - 1]) + (if acts[|acts| - 1] == Compact then [] else [acts[|acts| - 1]])
  }

  /** The reader cannot tell two pipes apart. */
  predicate SameToReader(p: Option<Pipe>, q: Option<Pipe>) {
    && p.Some? == q.Some?
    && (p.Some? ==>
          && p.value.read == q.value.read
          && Chunk(p.value.m).Some? && Chunk(p.value.m) == Chunk(q.value.m))
  }

  lemma ActKeepsSameness(bits: nat, p: Pipe, q: Pipe, a: Act)
    requires SameToReader(Some(p), Some(q)) && a != Compact
    ensures SameToReader(Act1(bits, p, a), Act1(bits, q, a))
  {
    var c := Chunk(p.m).value;
    match a
    case Put(d) =>
      assert (p.m.body + d)[p.m.pos..] == c + d;
      assert (q.m.body + d)[q.m.pos..] == c + d;
    case Get(n) =>
      if n <= |c| {
        assert p.m.body[p.m.pos..p.m.pos + n] == c[..n] == q.m.body[q.m.pos..q.m.pos + n];
        assert p.m.body[p.m.pos + n..] == c[n..] == q.m.body[q.m.pos + n..];
      }
  }

  /** `truncate_front(remaining())` anywhere, any number of times, changes nothing the reader can observe. */
  lemma {:induction false} CompactionIsInvisible(bits: nat, p: Pipe, acts: seq<Act>)
    requires p.m.pos <= |p.m.body|
    ensures SameToReader(Play(bits, p, acts), Play(bits, p, WithoutCompact(acts)))
  {
    if acts != [] {
      var ks, a := acts[..|acts| - 1], acts[|acts| - 1];
      CompactionIsInvisible(bits, p, ks);
      var plain := WithoutCompact(ks);
      if a != Compact {
        assert (plain + [a])[..|plain|] == plain;
        if Play(bits, p, ks).Some? {
          ActKeepsSameness(bits, Play(bits, p, ks).value, Play(bits, p, plain).value, a);
        }
      } else {
        assert plain + [] == plain;
      }
    }
  }

  /**
   * Both truncations act on what the reader has left as on the body: the one keeps its first bytes, as
   * far as they lie below the new end, the other its last `len`.
   */
  lemma TruncationSeenByReader(m: Buf, len: nat)
    requires m.pos <= |m.body|
    ensures var c := m.body[m.pos..];
            Chunk(Truncate(m, len)) == Some(c[..Smaller(|c|, if len > m.pos then len - m.pos else 0)])
  {
    var n, c := |m.body|, m.body[m.pos..];
    if len > n {
      assert c[..|c|] == c;
    } else if m.pos <= len {
      assert m.body[..len][m.pos..] == c[..len - m.pos];
    } else {
      assert m.body[..len][len..] == c[..0];
    }
  }

  lemma FrontTruncationSeenByReader(m: Buf, len: nat)
    requires m.pos <= |m.body|
    ensures var c := m.body[m.pos..];
            Chunk(TruncateFront(m, len)) == Some(c[|c| - Smaller(|c|, len)..])
  {
    var n, c := |m.body|, m.body[m.pos..];
    if len > n {
      assert c[0..] == c;
    } else if m.pos >= n - len {
      assert m.body[n - len..][m.pos - (n - len)..] == c[0..];
    } else {
      assert m.body[n - len..][0..] == c[|c| - len..];
    }
  }

  /**
   * `prepend` does not move the cursor: after `pos` bytes were read, the reader sees the last |data| of
   * the prepended and already consumed bytes in front of what it had left. So a prepend shows the reader
   * the new bytes, whatever they are, if and only if nothing was read before.
   */
  lemma PrependShiftsUnderTheCursor(m: Buf, data: seq<Byte>)
    requires m.pos <= |m.body|
    ensures Chunk(Prepend(m, data)) == Some((data + m.body[..m.pos])[m.pos..] + m.body[m.pos..])
  {
    var all := data + m.body;
    assert m.body == m.body[..m.pos] + m.body[m.pos..];
    assert all == (data + m.body[..m.pos]) + m.body[m.pos..];
    assert all[m.pos..] == (data + m.body[..m.pos])[m.pos..] + m.body[m.pos..];
  }

  lemma PrependIsSeenIffNothingWasRead(m: Buf)
    requires m.pos <= |m.body|
    ensures (forall data :: Chunk(Prepend(m, data)) == Some(data + m.body[m.pos..])) <==> m.pos == 0
  {
    if m.pos > 0 {
      var last := m.body[m.pos - 1];
      var data := [if last == 0 then 1 else 0];
      assert Chunk(Prepend(m, data)).value[0] == (data + m.body)[m.pos] == last;
      assert Chunk(Prepend(m, data)) != Some(data + m.body[m.pos..]);
    }
  }

  // ----- what one call undoes -----

  /** Truncating back after a write restores body, cursor and header; only the capacity has grown. */
  lemma TruncateUndoesWrite(bits: nat, m: Buf, data: seq<Byte>)
    requires m.pos <= |m.body|
    ensures Truncate(Write(bits, m, data), |m.body|).(cap := m.cap) == m
  {
    assert (m.body + data)[..|m.body|] == m.body;
  }

  /** Truncating the front back after a prepend restores the message if and only if nothing was read or prepended. */
  lemma TruncateFrontUndoesPrepend(m: Buf, data: seq<Byte>)
    requires m.pos <= |m.body|
    ensures TruncateFront(Prepend(m, data), |m.body|).body == m.body
    ensures TruncateFront(Prepend(m, data), |m.body|).(cap := m.cap) == m <==> m.pos == 0 || data == []
  {
    assert (data + m.body)[|data|..] == m.body;
  }

  /** The header truncations take off what the header writers put on, at either end. */
  lemma HeaderTruncatesUndoWrites(m: Buf, data: seq<Byte>)
    ensures HeaderTruncate(WriteHeader(m, data), |m.header|) == m
    ensures HeaderTruncateFront(PrependHeader(m, data), |m.header|) == m
    ensures HeaderTruncateFront(WriteHeader(m, data), |data|) == m.(header := data)
    ensures HeaderTruncate(PrependHeader(m, data), |data|) == m.(header := data)
  {
    assert (m.header + data)[..|m.header|] == m.header && (m.header + data)[|m.header|..] == data;
    assert (data + m.header)[|data|..] == m.header && (data + m.header)[..|data|] == data;
  }

  // ----- header and body are separate -----

  predicate HeaderOnly(op: Op) {
    op.OpHeaderTruncate? || op.OpHeaderTruncateFront? || op.OpWriteHeader? || op.OpPrependHeader?
  }

  function WithoutHeaderOps(ops: seq<Op>): seq<Op> {
    if ops == [] then []
    else (if HeaderOnly(ops[0]) then [] else [ops[0]]) + WithoutHeaderOps(ops[1..])
  }

  /** The two results differ in the header at most. */
  predicate SameButHeader(p: Option<Buf>, q: Option<Buf>) {
    p.Some? == q.Some? && (p.Some? ==> p.value == q.value.(header := p.value.header))
  }

  lemma HeaderStep(bits: nat, m: Buf, op: Op)
    requires HeaderOnly(op)
    ensures Do(bits, m, op).Some? && Do(bits, m, op).value.(header := m.header) == m
  {
  }

  lemma BodyStep(bits: nat, m: Buf, n: Buf, op: Op)
    requires m == n.(header := m.header) && !HeaderOnly(op)
    ensures SameButHeader(Do(bits, m, op), Do(bits, n, op))
  {
  }

  /**
   * Deleting all header operations from any run changes neither body, capacity nor cursor, nor whether
   * the run panics.
   */
  lemma {:induction false} HeaderOpsLeaveTheBody(bits: nat, m: Buf, n: Buf, ops: seq<Op>)
    requires m == n.(header := m.header)
    ensures SameButHeader(DoAll(bits, m, ops), DoAll(bits, n, WithoutHeaderOps(ops)))
    decreases ops
  {
    if ops != [] {
      var op, rest := ops[0], WithoutHeaderOps(ops[1..]);
      if HeaderOnly(op) {
        assert [] + rest == rest;
        HeaderStep(bits, m, op);
        HeaderOpsLeaveTheBody(bits, Do(bits, m, op).value, n, ops[1..]);
      } else {
        assert ([op] + rest)[0] == op && ([op] + rest)[1..] == rest;
        BodyStep(bits, m, n, op);
        if Do(bits, m, op).Some? {
          HeaderOpsLeaveTheBody(bits, Do(bits, m, op).value, Do(bits, n, op).value, ops[1..]);
        }
      }
    }
  }

  // ----- growth -----

  function WriteAll(bits: nat, m: Buf, chunks: seq<seq<Byte>>): Buf {
    if chunks == [] then m else Write(bits, WriteAll(bits, m, chunks[..|chunks| - 1]), chunks[|chunks| - 1])
  }

  function Sizes(chunks: seq<seq<Byte>>): seq<nat> {
    if chunks == [] then [] else Sizes(chunks[..|chunks| - 1]) + [|chunks[|chunks| - 1]|]
  }

  /** A message that is only written to grows as the growth rule says, so its bounds are the message's. */
  lemma {:induction false} WritesFollowGrowth(bits: nat, cap: nat, chunks: seq<seq<Byte>>)
    ensures var m := WriteAll(bits, Buf([], [], cap, 0), chunks);
            var g := Growth.Writes(bits, Growth.Grow(0, cap, 0, []), Sizes(chunks));
            |m.body| == g.len && m.cap == g.cap
  {
    if chunks != [] {
      var cs := chunks[..|chunks| - 1];
      WritesFollowGrowth(bits, cap, cs);
      assert Sizes(chunks)[..|Sizes(cs)|] == Sizes(cs);
    }
  }
}
