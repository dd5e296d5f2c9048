/** Addresses printed as URLs, and read back. */
module Urls {
  import opened Options
  import Decimals

  type Octet = n: nat | n < 256

  /**
   * `nng_sockaddr` by family, in host byte order. `text` is the standard library's form of an IPv6 socket
   * address, and `Foreign` a family that `Url::from_nng` does not support.
   */
  datatype SockAddr =
    | Unspec
    | Foreign(family: nat)
    | Inet(addr: nat, port: nat)
    | Inet6(text: string)
    | Ipc(path: string)
    | Inproc(name: string)
    | Abstract(bytes: seq<Octet>)

  const SEP: string := "://"

  // ----- percent-encoding of abstract socket names -----

  predicate Graphic(b: nat) {
    0x21 <= b <= 0x7E
  }

  function HexDigit(d: nat): char
    requires d < 16
  {
    if d < 10 then '0' + d as char else 'a' + (d - 10) as char
  }

  function EncodeOctet(b: Octet): string {
    if Graphic(b) then [b as char] else ['%', HexDigit(b / 16), HexDigit(b % 16)]
  }

  function Encode(name: seq<Octet>): string {
    if name == [] then [] else EncodeOctet(name[0]) + Encode(name[1..])
  }

  function HexValue(c: char): (v: Option<nat>)
    ensures v.Some? ==> v.value < 16
  {
    if '0' <= c <= '9' then Some(c as nat - '0' as nat)
    else if 'a' <= c <= 'f' then Some(c as nat - 'a' as nat + 10)
    else if 'A' <= c <= 'F' then Some(c as nat - 'A' as nat + 10)
    else None
  }

  function Cons(b: Octet, rest: Option<seq<Octet>>): Option<seq<Octet>> {
    match rest
    case None => None
    case Some(r) => Some([b] + r)
  }

  /** Percent-decoding after section 2.1 of RFC 3986; a '%' without two hex digits is malformed. */
  function Decode(s: string): Option<seq<Octet>> {
    if s == [] then Some([])
    else if s[0] == '%' then
      if |s| < 3 || HexValue(s[1]).None? || HexValue(s[2]).None? then None
      else Cons(16 * HexValue(s[1]).value + HexValue(s[2]).value, Decode(s[3..]))
    else if s[0] as nat < 256 then Cons(s[0] as nat, Decode(s[1..]))
    else None
  }

  lemma EncodeNext(done: string, name: seq<Octet>, i: nat)
    requires i < |name|
    ensures done + Encode(name[i..]) == done + EncodeOctet(name[i]) + Encode(name[i + 1..])
  {
    assert name[i..][1..] == name[i + 1..];
  }

  /** The loop over the bytes of the name. */
  method EncodeName(name: seq<Octet>) returns (url: string)
    ensures url == Encode(name)
  {
    url := [];
    assert name[0..] == name && [] + Encode(name) == Encode(name);
    for i := 0 to |name|
      invariant url + Encode(name[i..]) == Encode(name)
    {
      EncodeNext(url, name, i);
      if Graphic(name[i]) {
        url := url + [name[i] as char];
      } else {
        url := url + ['%', HexDigit(name[i] / 16), HexDigit(name[i] % 16)];
      }
    }
    assert name[|name|..] == [];
  }

  /** The output is ASCII graphic characters only, at most three per byte. */
  lemma {:induction false} EncodedIsGraphic(name: seq<Octet>)
    ensures |name| <= |Encode(name)| <= 3 * |name|
    ensures forall i | 0 <= i < |Encode(name)| :: Graphic(Encode(name)[i] as nat)
  {
    if name != [] { EncodedIsGraphic(name[1..]); }
  }

  lemma DecodeEncodedOctet(b: Octet, rest: string)
    requires b != 0x25
    ensures Decode(EncodeOctet(b) + rest) == Cons(b, Decode(rest))
  {
    var s := EncodeOctet(b) + rest;
    if Graphic(b) {
      assert s[1..] == rest;
    } else {
      assert s[3..] == rest;
      HexRoundTrip(b / 16);
      HexRoundTrip(b % 16);
    }
  }

  /** A byte that is not graphic becomes '%' and its two lower-case hex digits, high half first. */
  lemma OctetText(b: Octet)
    ensures Graphic(b) ==> EncodeOctet(b) == [b as char]
    ensures !Graphic(b) ==> EncodeOctet(b) == ['%', "0123456789abcdef"[b / 16], "0123456789abcdef"[b % 16]]
  {
  }

  lemma HexRoundTrip(d: nat)
    requires d < 16
    ensures HexValue(HexDigit(d)) == Some(d)
  {
  }

  /** A decoded '%' of the name swallows the two bytes after it, so decoding comes out shorter, or fails. */
  lemma {:induction false} DecodedLength(name: seq<Octet>)
    ensures Decode(Encode(name)).Some? ==>
              && |Decode(Encode(name)).value| <= |name|
              && (0x25 in name ==> |Decode(Encode(name)).value| < |name|)
    decreases |name|
  {
    if name == [] {
    } else if name[0] != 0x25 {
      DecodeEncodedOctet(name[0], Encode(name[1..]));
      DecodedLength(name[1..]);
    } else {
      var s := Encode(name);
      assert EncodeOctet(0x25) == ['%'];
      assert s == ['%'] + Encode(name[1..]);
      if Decode(s).Some? {
        PercentEatsTwo(name);
        DecodedLength(name[3..]);
      }
    }
  }

  lemma PercentEatsTwo(name: seq<Octet>)
    requires name != [] && name[0] == 0x25 && Decode(Encode(name)).Some?
    ensures |name| >= 3 && Encode(name)[3..] == Encode(name[3..])
  {
    var s := Encode(name);
    assert s == ['%'] + Encode(name[1..]);
    assert HexValue(s[1]).Some? && HexValue(s[2]).Some?;
    DigitIsOctet(name[1..]);
    assert name[1..][1..] == name[2..];
    assert s[2] == Encode(name[2..])[0];
    DigitIsOctet(name[2..]);
    assert name[2..][1..] == name[3..];
    assert s[3..] == Encode(name[2..])[1..];
  }

  /** A hex digit at the front of an encoded name is a byte of the name that stands for itself. */
  lemma DigitIsOctet(name: seq<Octet>)
    requires Encode(name) != [] && HexValue(Encode(name)[0]).Some?
    ensures name != [] && Encode(name) == [Encode(name)[0]] + Encode(name[1..])
  {
    assert Encode(name) == EncodeOctet(name[0]) + Encode(name[1..]);
    assert Encode(name)[0] == EncodeOctet(name[0])[0];
  }

  lemma {:induction false} DecodeRestores(name: seq<Octet>)
    requires 0x25 !in name
    ensures Decode(Encode(name)) == Some(name)
  {
    if name != [] {
      DecodeEncodedOctet(name[0], Encode(name[1..]));
      DecodeRestores(name[1..]);
      assert name == [name[0]] + name[1..];
    }
  }

  /** Decoding restores the name if and only if it has no '%' byte. */
  lemma PercentRoundTrip(name: seq<Octet>)
    ensures Decode(Encode(name)) == Some(name) <==> 0x25 !in name
  {
    DecodedLength(name);
    if 0x25 !in name { DecodeRestores(name); }
  }

  /**
   * '%' is written literally, against section 2.4 of RFC 3986: every byte that needs encoding has a second
   * name, of three graphic bytes, with the same URL text.
   */
  lemma PercentCollision(b: Octet) returns (other: seq<Octet>)
    requires !Graphic(b)
    ensures other != [b] && |other| == 3 && Encode(other) == Encode([b])
  {
    var hi, lo := HexDigit(b / 16), HexDigit(b % 16);
    other := [0x25, hi as nat, lo as nat];
    assert other[1..] == [hi as nat, lo as nat] && [hi as nat, lo as nat][1..] == [lo as nat];
    assert [lo as nat][1..] == [] && [b][1..] == [];
    assert Encode([lo as nat]) == [lo];
    assert Encode([hi as nat, lo as nat]) == [hi] + [lo];
    assert Encode(other) == ['%'] + ([hi] + [lo]);
    assert Encode([b]) == ['%', hi, lo];
  }

  // ----- printing -----

  function LowOctet(n: nat): Octet {
    n % 256
  }

  /** `Ipv4Addr::from_bits` */
  function FromBits(addr: nat): (ip: seq<Octet>)
    ensures |ip| == 4
  {
    [LowOctet(addr / 0x100_0000), LowOctet(addr / 0x1_0000), LowOctet(addr / 0x100), LowOctet(addr)]
  }

  /** `Ipv4Addr::to_bits` */
  function ToBits(ip: seq<Octet>): nat
    requires |ip| == 4
  {
    var a: nat, b: nat, c: nat, d: nat := ip[0], ip[1], ip[2], ip[3];
    0x100_0000 * a + 0x1_0000 * b + 0x100 * c + d
  }

  lemma ShiftTwice(n: nat, k: nat)
    requires k == 0x100 || k == 0x1_0000
    ensures n / k / 0x100 == n / (k * 0x100)
  {
    var q, r := n / k, n % k;
    var q', r' := q / 0x100, q % 0x100;
    if k == 0x100 {
      assert n == 0x1_0000 * q' + (0x100 * r' + r);
    } else {
      assert n == 0x100_0000 * q' + (0x1_0000 * r' + r);
    }
  }

  lemma BitsRoundTrip(addr: nat)
    requires addr < 0x1_0000_0000
    ensures ToBits(FromBits(addr)) == addr
  {
    ShiftTwice(addr, 0x100);
    ShiftTwice(addr, 0x1_0000);
    var b3, b2, b1 := addr / 0x100_0000, addr / 0x1_0000, addr / 0x100;
    assert b2 == 0x100 * b3 + LowOctet(b2) && b1 == 0x100 * b2 + LowOctet(b1) && addr == 0x100 * b1 + LowOctet(addr);
    assert LowOctet(b3) == b3;
  }

  lemma OctetsRoundTrip(ip: seq<Octet>)
    requires |ip| == 4
    ensures ToBits(ip) < 0x1_0000_0000 && FromBits(ToBits(ip)) == ip
  {
    var a: nat, b: nat, c: nat, d: nat := ip[0], ip[1], ip[2], ip[3];
    var addr := ToBits(ip);
    ShiftTwice(addr, 0x100);
    ShiftTwice(addr, 0x1_0000);
    TakeOctet(addr, 0x1_0000 * a + 0x100 * b + c, d);
    TakeOctet(addr / 0x100, 0x100 * a + b, c);
    TakeOctet(addr / 0x1_0000, a, b);
  }

  lemma TakeOctet(n: nat, rest: nat, low: nat)
    requires n == 0x100 * rest + low && low < 0x100
    ensures n / 0x100 == rest && LowOctet(n) == low
  {
  }

  /** Lexicographic order: the first octet that differs decides. */
  predicate Before(p: seq<Octet>, q: seq<Octet>)
    requires |p| == |q|
  {
    p != [] && (p[0] < q[0] || (p[0] == q[0] && Before(p[1..], q[1..])))
  }

  /** The most significant octet comes first: octets are ordered as the addresses are. */
  lemma OctetsInOrder(a: nat, b: nat)
    requires a < 0x1_0000_0000 && b < 0x1_0000_0000
    ensures Before(FromBits(a), FromBits(b)) <==> a < b
  {
    var p, q := FromBits(a), FromBits(b);
    BitsRoundTrip(a);
    BitsRoundTrip(b);
    BeforeUnfolds(p, q);
  }

  lemma BeforeUnfolds(p: seq<Octet>, q: seq<Octet>)
    requires |p| == |q| == 4
    ensures Before(p, q) <==>
            || p[0] < q[0]
            || (p[0] == q[0] && (|| p[1] < q[1]
                                 || (p[1] == q[1] && (p[2] < q[2] || (p[2] == q[2] && p[3] < q[3])))))
  {
    assert p[1..][1..] == p[2..] && q[1..][1..] == q[2..];
    assert p[2..][1..] == p[3..] && q[2..][1..] == q[3..];
    assert p[3..][1..] == [] && q[3..][1..] == [];
    assert Before(p[3..], q[3..]) <==> p[3] < q[3];
    assert Before(p[2..], q[2..]) <==> p[2] < q[2] || (p[2] == q[2] && p[3] < q[3]);
    assert Before(p[1..], q[1..]) <==> p[1] < q[1] || (p[1] == q[1] && Before(p[2..], q[2..]));
  }

  /** The separator in front of octet i. */
  function Dot(i: nat): Option<char> {
    if i == 0 then None else Some('.')
  }

  /** The octets from number i on, each but the very first after a dot. */
  function Dotted(ip: seq<Octet>, i: nat): string
    decreases |ip| - i
  {
    if i >= |ip| then [] else AsSeq(Dot(i)) + (Decimals.Print(ip[i]) + Dotted(ip, i + 1))
  }

  /** Four decimal numbers with dots between them. */
  lemma DottedText(ip: seq<Octet>)
    requires |ip| == 4
    ensures Dotted(ip, 0) ==
            Decimals.Print(ip[0]) + ("." + (Decimals.Print(ip[1]) + ("." + (Decimals.Print(ip[2]) + ("."
            + Decimals.Print(ip[3]))))))
  {
    DottedNext(ip, 3);
    DottedNext(ip, 2);
    DottedNext(ip, 1);
    assert Decimals.Print(ip[3]) + [] == Decimals.Print(ip[3]);
    assert [] + (Decimals.Print(ip[0]) + Dotted(ip, 1)) == Decimals.Print(ip[0]) + Dotted(ip, 1);
  }

  lemma DottedNext(ip: seq<Octet>, i: nat)
    requires 0 < i < |ip|
    ensures Dotted(ip, i) == "." + (Decimals.Print(ip[i]) + Dotted(ip, i + 1))
  {
  }

  /** What `Url::from_nng` writes after the scheme and "://". */
  function Tail(a: SockAddr): string
    requires !a.Unspec? && !a.Foreign?
  {
    match a
    case Inet6(text) => text
    case Inet(addr, port) => Dotted(FromBits(addr), 0) + (":" + Decimals.Print(port))
    case Ipc(path) => path
    case Inproc(name) => name
    case Abstract(bytes) => Encode(bytes)
  }

  datatype Printed = NoUrl | Text(url: string) | Unimplemented

  /** `Url::from_nng`; `scheme` is None when it is not UTF-8, which is looked at before the address is. */
  method FromNng(a: SockAddr, scheme: Option<string>) returns (r: Printed)
    ensures r == NoUrl <==> scheme.None? || a.Unspec?
    ensures r == Unimplemented <==> scheme.Some? && a.Foreign?
    ensures r.Text? ==> r.url == scheme.value + SEP + Tail(a)
  {
    if scheme.None? {
      return NoUrl;
    }
    var url := scheme.value + SEP;
    match a {
      case Unspec => return NoUrl;
      case Inet(addr, port) => url := url + (Dotted(FromBits(addr), 0) + (":" + Decimals.Print(port)));
      case Inet6(text) => url := url + text;
      case Ipc(path) => url := url + path;
      case Abstract(bytes) =>
        var encoded := EncodeName(bytes);
        url := url + encoded;
      case Inproc(name) => url := url + name;
      case Foreign(_) => return Unimplemented;
    }
    r := Text(url);
  }

  // ----- the scheme -----

  /** Where "://" occurs first. */
  function FirstSep(s: string): (i: Option<nat>)
    ensures i.Some? ==> i.value + 3 <= |s| && s[i.value..i.value + 3] == SEP
  {
    if |s| < 3 then None
    else if s[..3] == SEP then Some(0)
    else
      match FirstSep(s[1..])
      case None => None
      case Some(i) => Some(i + 1)
  }

  /** `split_once("://")` */
  function SplitOnce(s: string): Option<(string, string)> {
    match FirstSep(s)
    case None => None
    case Some(i) => Some((s[..i], s[i + 3..]))
  }

  lemma {:induction false} FirstSepAfter(scheme: string, rest: string)
    ensures FirstSep(scheme + SEP + rest) ==
            if FirstSep(scheme).Some? then FirstSep(scheme) else Some(|scheme|)
  {
    var s := scheme + SEP + rest;
    if scheme == [] {
      assert s[..3] == SEP;
    } else {
      assert s[1..] == scheme[1..] + SEP + rest;
      FirstSepAfter(scheme[1..], rest);
      if |scheme| >= 3 {
        assert s[..3] == scheme[..3];
      } else {
        assert s[|scheme|] == ':' && s[..3] != SEP;
      }
    }
  }

  predicate SepAt(s: string, i: nat) {
    i + 3 <= |s| && s[i..i + 3] == SEP
  }

  /** `FirstSep` finds an occurrence if there is one, and none before the one it finds. */
  lemma {:induction false} FirstSepIsFirst(s: string, i: nat)
    requires SepAt(s, i)
    ensures FirstSep(s).Some? && FirstSep(s).value <= i && SepAt(s, FirstSep(s).value)
  {
    if i == 0 {
      assert s[..3] == s[0..3];
    } else {
      assert s[1..][i - 1..i + 2] == s[i..i + 3];
      FirstSepIsFirst(s[1..], i - 1);
    }
  }

  /** The text after the separator is the IPC path, the inproc name, or the encoded abstract name. */
  lemma TextAfterScheme(scheme: string, text: string, name: seq<Octet>)
    requires FirstSep(scheme).None?
    ensures SplitOnce(scheme + SEP + Tail(Ipc(text))) == Some((scheme, text))
    ensures SplitOnce(scheme + SEP + Tail(Inproc(text))) == Some((scheme, text))
    ensures SplitOnce(scheme + SEP + Tail(Abstract(name))) == Some((scheme, Encode(name)))
  {
    SchemeOfPrinted(scheme, Ipc(text));
    SchemeOfPrinted(scheme, Inproc(text));
    SchemeOfPrinted(scheme, Abstract(name));
  }

  /** `Url::scheme` returns the scheme a URL was made with exactly when that scheme has no "://" of its own. */
  lemma SchemeOfPrinted(scheme: string, a: SockAddr)
    requires !a.Unspec? && !a.Foreign?
    ensures var split := SplitOnce(scheme + SEP + Tail(a));
            && split.Some?
            && (split.value.0 == scheme <==> FirstSep(scheme).None?)
            && (FirstSep(scheme).None? ==> split.value.1 == Tail(a))
  {
    FirstSepAfter(scheme, Tail(a));
    var s := scheme + SEP + Tail(a);
    if FirstSep(scheme).None? {
      assert s[..|scheme|] == scheme && s[|scheme| + 3..] == Tail(a);
    }
  }

  // ----- reading TCP URLs -----

  datatype Parsed = Malformed | BadScheme | NotIpv4(text: string) | V4(addr: nat, port: nat)

  predicate TcpScheme(s: string) {
    s == "tcp" || s == "tcp4" || s == "tcp6" || s == "tls+tcp" || s == "tls+tcp4" || s == "tls+tcp6"
  }

  /** TCP or TLS over TCP, over either or one version of IP. */
  lemma TcpSchemes(s: string)
    ensures TcpScheme(s) <==>
            exists base, version ::
              (base == "tcp" || base == "tls+tcp") && (version == "" || version == "4" || version == "6")
              && s == base + version
  {
    if TcpScheme(s) {
      var n := if s[|s| - 1] == 'p' then |s| else |s| - 1;
      assert s == s[..n] + s[n..];
      assert s[..n] == "tcp" || s[..n] == "tls+tcp";
      assert s[n..] == "" || s[n..] == "4" || s[n..] == "6";
    }
  }

  /** Which of its error cases a text is, before the address is read. */
  lemma ParseErrors(url: string)
    ensures ParseTcpUrl(url) == Malformed <==> forall i: nat :: !SepAt(url, i)
    ensures ParseTcpUrl(url) == BadScheme <==> SplitOnce(url).Some? && !TcpScheme(SplitOnce(url).value.0)
  {
    forall i: nat | SepAt(url, i)
      ensures FirstSep(url).Some?
    {
      FirstSepIsFirst(url, i);
    }
    assert FirstSep(url).Some? ==> SepAt(url, FirstSep(url).value);
  }

  /** A number after an optional separator character. */
  function Field(s: string, sep: Option<char>, limit: nat, maxDigits: Option<nat>, zeroPrefix: bool)
    : Option<(nat, string)>
  {
    if sep.None? then Decimals.Read(s, limit, maxDigits, zeroPrefix)
    else if s != [] && s[0] == sep.value then Decimals.Read(s[1..], limit, maxDigits, zeroPrefix)
    else None
  }

  /** The parser's loop over the octets; `ip` holds those read so far. */
  function ReadOctets(s: string, ip: seq<Octet>): (r: Option<(seq<Octet>, string)>)
    requires |ip| <= 4
    ensures r.Some? ==> |r.value.0| == 4
    decreases 4 - |ip|
  {
    if |ip| == 4 then Some((ip, s))
    else
      match Field(s, Dot(|ip|), 255, Some(3), false)
      case None => None
      case Some((n, rest)) => if n < 256 then ReadOctets(rest, ip + [n]) else None
  }

  /** The IPv4 form of `SocketAddr`: four octets, a colon, a port, and nothing else. */
  function ReadV4(s: string): Option<(nat, nat)> {
    match ReadOctets(s, [])
    case None => None
    case Some((ip, rest)) =>
      match Field(rest, Some(':'), 65535, None, true)
      case None => None
      case Some((port, end)) => if end == [] then Some((ToBits(ip), port)) else None
  }

  function ParseTcpUrl(url: string): Parsed {
    match SplitOnce(url)
    case None => Malformed
    case Some((scheme, text)) =>
      if !TcpScheme(scheme) then BadScheme
      else match ReadV4(text)
           case None => NotIpv4(text)
           case Some((addr, port)) => V4(addr, port)
  }

  lemma FieldPrinted(n: nat, rest: string, sep: Option<char>, limit: nat, maxDigits: Option<nat>, zeroPrefix: bool)
    requires n <= limit && (rest == [] || !Decimals.IsDigit(rest[0]))
    requires maxDigits.Some? ==> limit < 1000 && maxDigits.value == 3
    ensures Field(AsSeq(sep) + (Decimals.Print(n) + rest), sep, limit, maxDigits, zeroPrefix) == Some((n, rest))
  {
    if limit < 1000 { Decimals.PrintLength(n); }
    Decimals.ReadPrinted(n, rest, limit, maxDigits, zeroPrefix);
    assert AsSeq(None) + (Decimals.Print(n) + rest) == Decimals.Print(n) + rest;
    if sep.Some? {
      assert ([sep.value] + (Decimals.Print(n) + rest))[1..] == Decimals.Print(n) + rest;
    }
  }

  lemma DottedUnfold(ip: seq<Octet>, i: nat, tail: string)
    requires i < |ip|
    ensures Dotted(ip, i) + tail == AsSeq(Dot(i)) + (Decimals.Print(ip[i]) + (Dotted(ip, i + 1) + tail))
  {
    var o, d := Decimals.Print(ip[i]), Dotted(ip, i + 1);
    assert (AsSeq(Dot(i)) + (o + d)) + tail == AsSeq(Dot(i)) + (o + (d + tail));
  }

  /** The number of octet i ends where the next dot or the tail begins. */
  lemma NumberEnds(ip: seq<Octet>, i: nat, tail: string)
    requires i < |ip| && (tail == [] || !Decimals.IsDigit(tail[0]))
    ensures var rest := Dotted(ip, i + 1) + tail;
            rest == [] || !Decimals.IsDigit(rest[0])
  {
    var d := Dotted(ip, i + 1);
    if i + 1 == |ip| { assert d + tail == tail; } else { assert d[0] == '.'; }
  }

  lemma {:induction false} ReadDotted(ip: seq<Octet>, i: nat, tail: string)
    requires |ip| == 4 && i <= 4 && (tail == [] || !Decimals.IsDigit(tail[0]))
    ensures ReadOctets(Dotted(ip, i) + tail, ip[..i]) == Some((ip, tail))
    decreases 4 - i
  {
    if i == 4 {
      assert [] + tail == tail && ip[..4] == ip;
    } else {
      DottedUnfold(ip, i, tail);
      NumberEnds(ip, i, tail);
      FieldPrinted(ip[i], Dotted(ip, i + 1) + tail, Dot(i), 255, Some(3), false);
      assert ip[..i] + [ip[i]] == ip[..i + 1];
      ReadDotted(ip, i + 1, tail);
    }
  }

  /** A printed address, a colon, and any digits that make up a port, leading zeros included. */
  lemma ReadTextV4(addr: nat, digits: string)
    requires addr < 0x1_0000_0000 && digits != [] && Decimals.AllDigits(digits) && Decimals.Value(digits) <= 65535
    ensures ReadV4(Dotted(FromBits(addr), 0) + (":" + digits)) == Some((addr, Decimals.Value(digits)))
  {
    var ip := FromBits(addr);
    BitsRoundTrip(addr);
    ReadDotted(ip, 0, ":" + digits);
    assert ip[..0] == [];
    ReadPort(digits);
  }

  lemma ReadPort(digits: string)
    requires digits != [] && Decimals.AllDigits(digits) && Decimals.Value(digits) <= 65535
    ensures Field(":" + digits, Some(':'), 65535, None, true) == Some((Decimals.Value(digits), ""))
  {
    assert (":" + digits)[1..] == digits;
    Decimals.LeadingOfConcat(digits, "");
    assert digits + "" == digits && digits[|digits|..] == [];
  }

  lemma ReadPrintedV4(addr: nat, port: nat)
    requires addr < 0x1_0000_0000 && port < 0x1_0000
    ensures ReadV4(Tail(Inet(addr, port))) == Some((addr, port))
  {
    Decimals.ValueOfPrint(port);
    ReadTextV4(addr, Decimals.Print(port));
  }

  lemma {:induction false} NoColonNoSep(s: string)
    requires ':' !in s
    ensures FirstSep(s) == None
  {
    if |s| >= 3 {
      assert s[..3][0] != ':';
      NoColonNoSep(s[1..]);
    }
  }

  /** For every IPv4 address, port and TCP or TLS scheme, the printed URL parses to that address and port. */
  lemma TcpUrlRoundTrip(scheme: string, addr: nat, port: nat)
    requires TcpScheme(scheme) && addr < 0x1_0000_0000 && port < 0x1_0000
    ensures ParseTcpUrl(scheme + SEP + Tail(Inet(addr, port))) == V4(addr, port)
  {
    NoColonNoSep(scheme);
    SchemeOfPrinted(scheme, Inet(addr, port));
    ReadPrintedV4(addr, port);
  }

  lemma FieldSound(s: string, sep: Option<char>, limit: nat, maxDigits: Option<nat>, zeroPrefix: bool)
    requires Field(s, sep, limit, maxDigits, zeroPrefix).Some?
    ensures var (n, rest) := Field(s, sep, limit, maxDigits, zeroPrefix).value;
            n <= limit && (!zeroPrefix ==> s == AsSeq(sep) + (Decimals.Print(n) + rest))
  {
    var t := if sep.None? then s else s[1..];
    Decimals.ReadSound(t, limit, maxDigits, zeroPrefix);
    assert s == AsSeq(sep) + t;
  }

  lemma {:induction false} ReadOctetsSound(s: string, ip: seq<Octet>)
    requires |ip| <= 4 && ReadOctets(s, ip).Some?
    ensures var (full, rest) := ReadOctets(s, ip).value;
            full[..|ip|] == ip && s == Dotted(full, |ip|) + rest
    decreases 4 - |ip|
  {
    if |ip| < 4 {
      var (n, rest) := Field(s, Dot(|ip|), 255, Some(3), false).value;
      FieldSound(s, Dot(|ip|), 255, Some(3), false);
      ReadOctetsSound(rest, ip + [n]);
      var (full, end) := ReadOctets(s, ip).value;
      assert full[|ip|] == full[..|ip| + 1][|ip|] == n;
      assert full[..|ip|] == full[..|ip| + 1][..|ip|] == ip;
      DottedUnfold(full, |ip|, end);
    }
  }

  /** Nothing but a printed address is read as one: the port alone may carry leading zeros. */
  lemma ReadV4Sound(s: string) returns (port: string)
    requires ReadV4(s).Some?
    ensures var (addr, p) := ReadV4(s).value;
            && addr < 0x1_0000_0000 && p < 0x1_0000
            && s == Dotted(FromBits(addr), 0) + (":" + port)
            && Decimals.AllDigits(port) && port != [] && Decimals.Value(port) == p
  {
    var (ip, rest) := ReadOctets(s, []).value;
    ReadOctetsSound(s, []);
    OctetsRoundTrip(ip);
    Decimals.ReadSound(rest[1..], 65535, None, true);
    port := Decimals.Leading(rest[1..]);
    assert rest == ":" + port;
  }

  /** `s` spells this address and port. */
  ghost predicate Spells(s: string, addr: nat, port: nat) {
    && addr < 0x1_0000_0000 && port <= 65535
    && exists digits ::
         && digits != [] && Decimals.AllDigits(digits) && Decimals.Value(digits) == port
         && s == Dotted(FromBits(addr), 0) + (":" + digits)
  }

  /** The address parser accepts a text, as an address and a port, if and only if the text spells them. */
  lemma ReadsExactlySpellings(s: string, addr: nat, port: nat)
    ensures ReadV4(s) == Some((addr, port)) <==> Spells(s, addr, port)
  {
    if ReadV4(s) == Some((addr, port)) {
      var digits := ReadV4Sound(s);
    }
    if Spells(s, addr, port) {
      var digits :|
        && digits != [] && Decimals.AllDigits(digits) && Decimals.Value(digits) == port
        && s == Dotted(FromBits(addr), 0) + (":" + digits);
      ReadTextV4(addr, digits);
    }
  }

  /** A URL with an accepted scheme parses to the address its text spells, or else its text is not IPv4. */
  lemma ParsesExactlySpellings(url: string, addr: nat, port: nat)
    requires SplitOnce(url).Some? && TcpScheme(SplitOnce(url).value.0)
    ensures ParseTcpUrl(url) == V4(addr, port) <==> Spells(SplitOnce(url).value.1, addr, port)
    ensures ParseTcpUrl(url).V4? || ParseTcpUrl(url) == NotIpv4(SplitOnce(url).value.1)
  {
    ReadsExactlySpellings(SplitOnce(url).value.1, addr, port);
  }
}
