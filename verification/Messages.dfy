/** The `anng` `Message`: the buffer as an object whose methods update it in place. */
module Messages {
  import Buffers
  import Growth

  type Byte = Buffers.Byte
  type Buf = Buffers.Buf

  class Message {
    const bits: nat  // width of usize
    var header: seq<Byte>
    var body: seq<Byte>
    var cap: nat
    var pos: nat

    function View(): Buf
      reads this
    {
      Buffers.Buf(header, body, cap, pos)
    }

    /** The cursor is within the body, and the body within the capacity: what every operation keeps. */
    ghost predicate Valid()
      reads this
    {
      pos <= |body| <= cap
    }

    /** What a reader has left. */
    ghost function Unread(): seq<Byte>
      reads this
      requires Valid()
    {
      body[pos..]
    }

    /** `Message::with_capacity`. */
    constructor WithCapacity(bits: nat, size: nat)
      ensures Valid() && cap >= size && this.bits == bits && View() == Buffers.Buf([], [], Buffers.Allocated(size), 0)
    {
      this.bits := bits;
      header, body, cap, pos := [], [], Buffers.Allocated(size), 0;
    }

    /** `Clone::clone`: nng_msg_dup, and the cursor. */
    constructor Clone(source: Message)
      requires source.Valid()
      ensures Valid() && bits == source.bits && View() == source.View()
    {
      bits := source.bits;
      header, body, cap, pos := source.header, source.body, source.cap, source.pos;
    }

    method ReserveExact(additional: nat)
      requires Valid()
      modifies this
      ensures Valid()
      ensures View() == Buffers.ReserveExact(old(View()), additional)
      ensures cap >= |body| + additional && (old(cap) >= |body| + additional ==> cap == old(cap))
      ensures header == old(header) && body == old(body) && Unread() == old(Unread())
    {
      var capacity := |body| + additional;
      if capacity > cap {
        cap := capacity;
      }
    }

    method Reserve(additional: nat)
      requires Valid()
      requires |body| + additional <= Growth.Max(bits)
      modifies this
      ensures Valid()
      ensures View() == Buffers.Reserve(bits, old(View()), additional)
      ensures cap >= |body| + additional && body == old(body)
      ensures header == old(header) && Unread() == old(Unread())
    {
      var required := |body| + additional;
      if required > cap {
        var next := Growth.NextPow2(cap);
        if next > Growth.Max(bits) {
          next := Growth.Max(bits);
        }
        var newCapacity := Buffers.Larger(required, next);
        ReserveExact(newCapacity - |body|);
      }
    }

    method Write(data: seq<Byte>) returns (n: nat)
      requires Valid()
      requires |body| + |data| <= Growth.Max(bits)
      modifies this
      ensures Valid()
      ensures View() == Buffers.Write(bits, old(View()), data) && n == |data|
      ensures header == old(header) && Unread() == old(Unread()) + data
    {
      Reserve(|data|);
      body := body + data;
      n := |data|;
    }

    method Truncate(len: nat)
      modifies this
      ensures View() == Buffers.Truncate(old(View()), len)
      ensures body <= old(body) && |body| == Buffers.Smaller(len, |old(body)|)
      ensures old(Valid()) ==> Valid() && Unread() <= old(Unread())
    {
      if len > |body| {
        return;
      }
      body := body[..len];
      if pos > len {
        pos := len;
      }
    }

    method TruncateFront(len: nat)
      requires Valid()
      modifies this
      ensures Valid()
      ensures View() == Buffers.TruncateFront(old(View()), len)
      ensures |body| == Buffers.Smaller(len, |old(body)|) && body == old(body)[|old(body)| - |body|..]
      ensures |Unread()| == Buffers.Smaller(len, |old(Unread())|)
      ensures Unread() == old(Unread())[|old(Unread())| - |Unread()|..]
    {
      if len > |body| {
        return;
      }
      var trim := |body| - len;
      body := body[trim..];
      if pos >= trim {
        pos := pos - trim;
      } else {
        pos := 0;
      }
    }

    method HeaderTruncate(len: nat)
      requires Valid()
      modifies this
      ensures Valid()
      ensures View() == Buffers.HeaderTruncate(old(View()), len)
      ensures header <= old(header) && |header| == Buffers.Smaller(len, |old(header)|)
      ensures body == old(body) && cap == old(cap) && Unread() == old(Unread())
    {
      if len <= |header| {
        header := header[..len];
      }
    }

    method HeaderTruncateFront(len: nat)
      requires Valid()
      modifies this
      ensures Valid()
      ensures View() == Buffers.HeaderTruncateFront(old(View()), len)
      ensures |header| == Buffers.Smaller(len, |old(header)|)
      ensures header == old(header)[|old(header)| - |header|..]
      ensures body == old(body) && cap == old(cap) && Unread() == old(Unread())
    {
      if len <= |header| {
        header := header[|header| - len..];
      }
    }

    method Prepend(data: seq<Byte>) returns (n: nat)
      requires Valid()
      modifies this
      ensures Valid()
      ensures View() == Buffers.Prepend(old(View()), data) && n == |data|
      ensures header == old(header) && body == data + old(body) && cap >= |body| - |data| && pos == old(pos)
    {
      cap := Buffers.Larger(cap, |body| + |data|);
      body := data + body;
      n := |data|;
    }

    method WriteHeader(data: seq<Byte>) returns (n: nat)
      requires Valid()
      modifies this
      ensures Valid()
      ensures View() == Buffers.WriteHeader(old(View()), data) && n == |data|
      ensures old(header) <= header && header[|old(header)|..] == data
      ensures body == old(body) && cap == old(cap) && Unread() == old(Unread())
    {
      header := header + data;
      n := |data|;
    }

    method PrependHeader(data: seq<Byte>) returns (n: nat)
      requires Valid()
      modifies this
      ensures Valid()
      ensures View() == Buffers.PrependHeader(old(View()), data) && n == |data|
      ensures data <= header && header[|data|..] == old(header)
      ensures body == old(body) && cap == old(cap) && Unread() == old(Unread())
    {
      header := data + header;
      n := |data|;
    }

    method Clear()
      requires Valid()
      modifies this
      ensures Valid()
      ensures View() == Buffers.Clear(old(View()))
      ensures View() == Buffers.Buf([], [], old(cap), 0) && Unread() == []
    {
      Truncate(0);
      HeaderTruncate(0);
      pos := 0;
    }

    /** Whatever the cursor was before, it is within the body afterwards. */
    method SetLen(len: nat, tail: seq<Byte>)
      requires |body| + |tail| == Buffers.Larger(len, |body|)
      modifies this
      ensures pos <= |body| && (old(|body| <= cap) ==> Valid())
      ensures View() == Buffers.SetLen(old(View()), len, tail)
      ensures header == old(header) && |body| == len && pos == Buffers.Smaller(old(pos), len)
      ensures len <= |old(body)| ==> body <= old(body)
      ensures len > |old(body)| ==> body == old(body) + tail
      ensures len > |old(body)| && old(Valid()) ==> Unread() == old(Unread()) + tail
    {
      if len > |body| {
        cap := Buffers.Larger(cap, len);
        body := body + tail;
      } else if len < |body| {
        Truncate(len);
      }
      if pos > len {
        pos := len;
      }
    }

    /** The panic of `advance` is an error result; it leaves the message alone. */
    method Advance(cnt: nat) returns (ok: bool)
      requires Valid()
      modifies this
      ensures Valid()
      ensures ok == Buffers.Advance(old(View()), cnt).Some?
      ensures View() == if ok then Buffers.Advance(old(View()), cnt).value else old(View())
      ensures ok == (cnt <= |old(Unread())|) && header == old(header) && body == old(body) && cap == old(cap)
      ensures ok ==> Unread() == old(Unread())[cnt..]
    {
      ok := pos + cnt <= |body|;
      if ok {
        pos := pos + cnt;
      }
    }

    /** The lengths that the source adds up fit into usize. */
    predicate Fits(op: Buffers.Op)
      reads this
    {
      match op
      case OpReserve(k) => |body| + k <= Growth.Max(bits)
      case OpWrite(data) => |body| + |data| <= Growth.Max(bits)
      case _ => true
    }

    /** One step of a script, by the method it stands for; false where that panics. `CloneFrom` is apart. */
    method Perform(op: Buffers.Op) returns (ok: bool)
      requires Valid() && !op.OpCloneFrom? && Fits(op)
      modifies this
      ensures Valid() && ok == Buffers.Do(bits, old(View()), op).Some?
      ensures View() == if ok then Buffers.Do(bits, old(View()), op).value else old(View())
    {
      ok := true;
      match op {
        case OpReserve(k) => Reserve(k);
        case OpReserveExact(k) => ReserveExact(k);
        case OpWrite(data) => var _ := Write(data);
        case OpPrepend(data) => var _ := Prepend(data);
        case OpTruncate(len) => Truncate(len);
        case OpTruncateFront(len) => TruncateFront(len);
        case OpSetLen(len, tail) =>
          ok := |body| + |tail| == Buffers.Larger(len, |body|);
          if ok { SetLen(len, tail); }
        case OpClear => Clear();
        case OpHeaderTruncate(len) => HeaderTruncate(len);
        case OpHeaderTruncateFront(len) => HeaderTruncateFront(len);
        case OpWriteHeader(data) => var _ := WriteHeader(data);
        case OpPrependHeader(data) => var _ := PrependHeader(data);
        case OpAdvance(cnt) => ok := Advance(cnt);
        case OpMutate(index, b) =>
          ok := index < |body|;
          if ok { body := body[index := b]; }
      }
    }

    /** The two halves of `clone_from`. */
    method ReplaceBody(data: seq<Byte>)
      requires Valid() && |data| <= Growth.Max(bits)
      modifies this
      ensures View() == Buffers.Write(bits, Buffers.Truncate(old(View()), 0), data)
      ensures body == data && pos == 0
    {
      Truncate(0);
      var _ := Write(data);
    }

    method ReplaceHeader(data: seq<Byte>)
      requires Valid()
      modifies this
      ensures View() == Buffers.WriteHeader(Buffers.HeaderTruncate(old(View()), 0), data)
      ensures header == data && body == old(body)
    {
      HeaderTruncate(0);
      var _ := WriteHeader(data);
    }

    method CloneFrom(source: Message)
      requires Valid()
      requires source != this && source.Valid() && |source.body| <= Growth.Max(bits)
      modifies this
      ensures Valid()
      ensures View() == Buffers.CloneFrom(bits, old(View()), source.View())
      ensures header == source.header && body == source.body && Unread() == source.Unread()
    {
      ReplaceBody(source.body);
      ReplaceHeader(source.header);
      pos := source.pos;
    }
  }
}
