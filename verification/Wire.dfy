/** What travels on a connection: octets, little-endian integers, UTF-8 text and the nine messages. */
module Wire {

  type byte = x: int | 0 <= x < 0x100
  type u16 = x: int | 0 <= x < 0x1_0000
  type u32 = x: int | 0 <= x < 0x1_0000_0000
  type u64 = x: int | 0 <= x < 0x1_0000_0000_0000_0000

  /** A Go string or byte slice. */
  type Text = seq<byte>

  /** A literal as octets. */
  function Ascii(s: string): (t: Text)
    requires forall i :: 0 <= i < |s| ==> s[i] < 128 as char
    ensures |t| == |s| && forall i :: 0 <= i < |t| ==> t[i] == s[i] as int < 128
  {
    seq(|s|, i requires 0 <= i < |s| => s[i] as int)
  }

  datatype Option<+T> = None | Some(value: T)

  // ---------- little-endian integers ----------

  function Pow256(width: nat): (p: nat)
    ensures p > 0
  {
    if width == 0 then 1 else 256 * Pow256(width - 1)
  }

  function LittleEndian(width: nat, v: nat): (b: Text)
    ensures |b| == width
  {
    if width == 0 then [] else [v % 256] + LittleEndian(width - 1, v / 256)
  }

  function FromLittleEndian(b: Text): (v: nat)
    ensures v < Pow256(|b|)
  {
    if b == [] then 0 else b[0] + 256 * FromLittleEndian(b[1..])
  }

  /** Reading what was written gives the number back. */
  lemma {:induction false} IntegerRoundTrip(width: nat, v: nat)
    requires v < Pow256(width)
    ensures FromLittleEndian(LittleEndian(width, v)) == v
  {
    if width > 0 {
      IntegerRoundTrip(width - 1, v / 256);
      assert LittleEndian(width, v)[1..] == LittleEndian(width - 1, v / 256);
    }
  }

  /** Every byte string is the encoding of the number it reads as: the format has no second spelling. */
  lemma {:induction false} IntegerCanonical(b: Text)
    ensures LittleEndian(|b|, FromLittleEndian(b)) == b
  {
    if b != [] {
      IntegerCanonical(b[1..]);
      var v := FromLittleEndian(b);
      assert v % 256 == b[0] && v / 256 == FromLittleEndian(b[1..]);
      assert b == [b[0]] + b[1..];
    }
  }

  lemma Widths()
    ensures Pow256(1) == 0x100 && Pow256(2) == 0x1_0000 && Pow256(4) == 0x1_0000_0000
    ensures Pow256(8) == 0x1_0000_0000_0000_0000
  {
    assert Pow256(1) == 256 * Pow256(0);
    assert Pow256(3) == 256 * Pow256(2);
    assert Pow256(5) == 256 * Pow256(4);
    assert Pow256(7) == 256 * Pow256(6);
  }

  // ---------- text ----------

  predicate Tail(b: byte) { 0x80 <= b <= 0xBF }

  /** How many octets the character at the head of s takes, 0 if none starts there (RFC 3629, section 4). */
  function CharLength(s: Text): (n: nat)
    ensures n <= |s|
  {
    if |s| >= 1 && s[0] <= 0x7F then 1
    else if |s| >= 2 && 0xC2 <= s[0] <= 0xDF && Tail(s[1]) then 2
    else if |s| >= 3 && Tail(s[2]) &&
            ( (s[0] == 0xE0 && 0xA0 <= s[1] <= 0xBF)
           || (0xE1 <= s[0] <= 0xEC && Tail(s[1]))
           || (s[0] == 0xED && 0x80 <= s[1] <= 0x9F)
           || (0xEE <= s[0] <= 0xEF && Tail(s[1]))) then 3
    else if |s| >= 4 && Tail(s[2]) && Tail(s[3]) &&
            ( (s[0] == 0xF0 && 0x90 <= s[1] <= 0xBF)
           || (0xF1 <= s[0] <= 0xF3 && Tail(s[1]))
           || (s[0] == 0xF4 && 0x80 <= s[1] <= 0x8F)) then 4
    else 0
  }

  predicate Utf8(s: Text) {
    s == [] || (CharLength(s) > 0 && Utf8(s[CharLength(s)..]))
  }

  /** Plain ASCII is UTF-8, which is what makes the fixed reasons of the relay sendable. */
  lemma {:induction false} AsciiIsUtf8(s: Text)
    requires forall i :: 0 <= i < |s| ==> s[i] <= 0x7F
    ensures Utf8(s)
  {
    if s != [] {
      assert CharLength(s) == 1;
      AsciiIsUtf8(s[1..]);
    }
  }

  // ---------- messages ----------

  datatype Header = Header(name: Text, value: Text)

  datatype ProviderInfo = ProviderInfo(service: Text, maxConcurrent: u16, priority: u16)

  datatype Message =
    | Hello(name: Text, providers: seq<ProviderInfo>)
    | Ping
    | Pong
    | Request(job: u64, service: Text, verb: Text, target: Text, headers: seq<Header>)
    | Response(job: u64, status: u16, headers: seq<Header>)
    | Body(job: u64, bytes: Text)
    | End(job: u64, trailers: seq<Header>)
    | Cancel(job: u64)
    | Fail(job: u64, reason: Text)
  {
    predicate Jobbed() {
      !Hello? && !Ping? && !Pong?
    }

    /** The same message under another job id, as a relay passes it on. */
    function Renumbered(id: u64): Message {
      if Jobbed() then this.(job := id) else this
    }
  }

  const HELLO: byte := 0x01
  const PING: byte := 0x02
  const PONG: byte := 0x03
  const REQUEST: byte := 0x10
  const RESPONSE: byte := 0x11
  const BODY: byte := 0x12
  const END: byte := 0x13
  const CANCEL: byte := 0x14
  const FAIL: byte := 0x15

  function Kind(m: Message): byte {
    match m
    case Hello(_, _) => HELLO
    case Ping => PING
    case Pong => PONG
    case Request(_, _, _, _, _) => REQUEST
    case Response(_, _, _) => RESPONSE
    case Body(_, _) => BODY
    case End(_, _) => END
    case Cancel(_) => CANCEL
    case Fail(_, _) => FAIL
  }

  const MIN_STATUS := 100
  const MAX_STATUS := 599

  /** Which end of a connection a codec sits on. */
  datatype Role = Server | Client

  // ---------- the messages the format can carry ----------

  predicate HeaderFits(h: Header) {
    |h.name| <= 255 && |h.value| <= 65535
  }

  predicate HeadersFit(hs: seq<Header>) {
    |hs| <= 65535 && forall i :: 0 <= i < |hs| ==> HeaderFits(hs[i])
  }

  predicate NameFits(s: Text) {
    Utf8(s) && |s| <= 255
  }

  predicate ProviderFits(p: ProviderInfo) {
    NameFits(p.service) && p.maxConcurrent >= 1
  }

  /** What PROTOCOL.md allows in each field; the codec is proved to carry exactly these. */
  predicate Encodable(m: Message) {
    match m
    case Hello(name, providers) =>
      NameFits(name) && |providers| <= 255 && forall i :: 0 <= i < |providers| ==> ProviderFits(providers[i])
    case Ping => true
    case Pong => true
    case Request(job, service, verb, target, headers) =>
      job != 0 && NameFits(service) && |verb| <= 255 && |target| <= 65535 && HeadersFit(headers)
    case Response(job, status, headers) =>
      job != 0 && 100 <= status <= 599 && HeadersFit(headers)
    case Body(job, bytes) => job != 0 && 1 <= |bytes| < 0x1_0000_0000
    case End(job, trailers) => job != 0 && HeadersFit(trailers)
    case Cancel(job) => job != 0
    case Fail(job, reason) => job != 0 && Utf8(reason) && |reason| <= 65535
  }

  /** Why a codec refused. The first refusal is the one a caller sees. */
  datatype Refusal =
    | TooLong
    | TooMany
    | NotUtf8
    | JobZero
    | NoSlots
    | BadStatus
    | EmptyChunk
    | ServerHello
    | HelloTwice
    | BeforeHello
    | UnknownKind
    | UnexpectedEof
    | TransportFailed
}
