/** The octets of every message, written out field by field as the protocol's tables have them. */
module Layout {
  import opened Wire
  import opened Encode
  import S = Symbolic
  import R = Records
  import N = Noise
  import C = Channel

  // ---------- integers, least significant octet first ----------

  function Le16(v: u16): Text {
    [v % 0x100, v / 0x100]
  }

  function Le32(v: u32): Text {
    Le16(v % 0x1_0000) + Le16(v / 0x1_0000)
  }

  function Le64(v: u64): Text {
    Le32(v % 0x1_0000_0000) + Le32(v / 0x1_0000_0000)
  }

  // ---------- messages ----------

  function HeaderOctets(hs: seq<Header>): Text
    requires forall i :: 0 <= i < |hs| ==> HeaderFits(hs[i])
  {
    if hs == [] then []
    else
      assert HeaderFits(hs[0]);
      [|hs[0].name|] + hs[0].name + Le16(|hs[0].value|) + hs[0].value + HeaderOctets(hs[1..])
  }

  function ProviderOctets(ps: seq<ProviderInfo>): Text
    requires forall i :: 0 <= i < |ps| ==> ProviderFits(ps[i])
  {
    if ps == [] then []
    else
      assert ProviderFits(ps[0]);
      [|ps[0].service|] + ps[0].service + Le16(ps[0].maxConcurrent) + Le16(ps[0].priority) + ProviderOctets(ps[1..])
  }

  function Octets(m: Message): Text
    requires Encodable(m)
  {
    match m
    case Hello(name, providers) => [0x01, |name|] + name + [|providers|] + ProviderOctets(providers)
    case Ping => [0x02]
    case Pong => [0x03]
    case Request(job, service, verb, target, headers) =>
      [0x10] + Le64(job) + [|service|] + service + [|verb|] + verb + Le16(|target|) + target
      + Le16(|headers|) + HeaderOctets(headers)
    case Response(job, status, headers) =>
      [0x11] + Le64(job) + Le16(status) + Le16(|headers|) + HeaderOctets(headers)
    case Body(job, bytes) => [0x12] + Le64(job) + Le32(|bytes|) + bytes
    case End(job, trailers) => [0x13] + Le64(job) + Le16(|trailers|) + HeaderOctets(trailers)
    case Cancel(job) => [0x14] + Le64(job)
    case Fail(job, reason) => [0x15] + Le64(job) + Le16(|reason|) + reason
  }

  // ---------- the encoder puts out just these ----------

  /** The octets of a number are those of its lower part, then those of its upper part. */
  lemma {:induction false} Halves(low: nat, high: nat, lows: nat, highs: nat)
    requires low < Pow256(lows)
    ensures LittleEndian(lows + highs, low + Pow256(lows) * high) == LittleEndian(lows, low) + LittleEndian(highs, high)
    decreases lows
  {
    if lows == 0 {
      assert [] + LittleEndian(highs, high) == LittleEndian(highs, high);
    } else {
      var x := Pow256(lows - 1) * high;
      var v := low + 256 * x;
      assert Pow256(lows) * high == 256 * x;
      Halves(low / 256, high, lows - 1, highs);
      assert v % 256 == low % 256 && v / 256 == low / 256 + x;
      var first := [low % 256];
      assert first + (LittleEndian(lows - 1, low / 256) + LittleEndian(highs, high))
          == first + LittleEndian(lows - 1, low / 256) + LittleEndian(highs, high);
    }
  }

  lemma OneOctet(v: byte)
    ensures LittleEndian(1, v) == [v]
  {
    assert LittleEndian(0, v / 256) == [];
  }

  lemma TwoOctets(v: u16)
    ensures LittleEndian(2, v) == Le16(v)
  {
    var low, high := v % 0x100, v / 0x100;
    Widths();
    OneOctet(low);
    OneOctet(high);
    Halves(low, high, 1, 1);
  }

  lemma FourOctets(v: u32)
    ensures LittleEndian(4, v) == Le32(v)
  {
    var low, high := v % 0x1_0000, v / 0x1_0000;
    Widths();
    TwoOctets(low);
    TwoOctets(high);
    Halves(low, high, 2, 2);
  }

  lemma EightOctets(v: u64)
    ensures LittleEndian(8, v) == Le64(v)
  {
    var low, high := v % 0x1_0000_0000, v / 0x1_0000_0000;
    Widths();
    FourOctets(low);
    FourOctets(high);
    Halves(low, high, 4, 4);
  }

  lemma {:induction false} HeadersLaidOut(hs: seq<Header>)
    requires forall i :: 0 <= i < |hs| ==> HeaderFits(hs[i])
    ensures HeaderSeqOut(hs) == Bytes(HeaderOctets(hs))
  {
    hide LittleEndian, Le16;
    if hs != [] {
      var name, value := hs[0].name, hs[0].value;
      HeadersLaidOut(hs[1..]);
      OneOctet(|name|);
      TwoOctets(|value|);
    }
  }

  lemma {:induction false} ProvidersLaidOut(ps: seq<ProviderInfo>)
    requires forall i :: 0 <= i < |ps| ==> ProviderFits(ps[i])
    ensures ProviderSeqOut(ps) == Bytes(ProviderOctets(ps))
  {
    hide LittleEndian, Le16;
    if ps != [] {
      ProvidersLaidOut(ps[1..]);
      OneOctet(|ps[0].service|);
      TwoOctets(ps[0].maxConcurrent);
      TwoOctets(ps[0].priority);
    }
  }

  /** An encoding is the octets of the protocol's table, field behind field. */
  lemma LaidOut(m: Message)
    requires Encodable(m)
    ensures MessageOut(m) == Bytes(Octets(m))
  {
    hide Octets, MessageOut, Encodable;
    match m
    case Hello(name, providers) => HelloLaidOut(name, providers);
    case Request(job, service, verb, target, headers) => RequestLaidOut(job, service, verb, target, headers);
    case Response(job, status, headers) => ResponseLaidOut(job, status, headers);
    case Body(job, bytes) => BodyLaidOut(job, bytes);
    case End(job, trailers) => EndLaidOut(job, trailers);
    case Fail(job, reason) => FailLaidOut(job, reason);
    case _ => ShortLaidOut(m);
  }

  lemma ShortLaidOut(m: Message)
    requires Encodable(m) && (m.Ping? || m.Pong? || m.Cancel?)
    ensures MessageOut(m) == Bytes(Octets(m))
  {
    hide LittleEndian, Le64;
    if m.Cancel? {
      EightOctets(m.job);
    }
  }

  lemma ResponseLaidOut(job: u64, status: u16, headers: seq<Header>)
    requires Encodable(Response(job, status, headers))
    ensures MessageOut(Response(job, status, headers)) == Bytes(Octets(Response(job, status, headers)))
  {
    hide LittleEndian, Le16, Le64, HeaderOctets, HeaderFits;
    EightOctets(job);
    TwoOctets(status);
    TwoOctets(|headers|);
    HeadersLaidOut(headers);
  }

  lemma BodyLaidOut(job: u64, bytes: Text)
    requires Encodable(Body(job, bytes))
    ensures MessageOut(Body(job, bytes)) == Bytes(Octets(Body(job, bytes)))
  {
    hide LittleEndian, Le32, Le64;
    EightOctets(job);
    FourOctets(|bytes|);
  }

  lemma EndLaidOut(job: u64, trailers: seq<Header>)
    requires Encodable(End(job, trailers))
    ensures MessageOut(End(job, trailers)) == Bytes(Octets(End(job, trailers)))
  {
    hide LittleEndian, Le16, Le64, HeaderOctets, HeaderFits;
    EightOctets(job);
    TwoOctets(|trailers|);
    HeadersLaidOut(trailers);
  }

  lemma FailLaidOut(job: u64, reason: Text)
    requires Encodable(Fail(job, reason))
    ensures MessageOut(Fail(job, reason)) == Bytes(Octets(Fail(job, reason)))
  {
    hide LittleEndian, Le16, Le64, Utf8;
    EightOctets(job);
    TwoOctets(|reason|);
  }

  lemma HelloLaidOut(name: Text, providers: seq<ProviderInfo>)
    requires Encodable(Hello(name, providers))
    ensures MessageOut(Hello(name, providers)) == Bytes(Octets(Hello(name, providers)))
  {
    hide LittleEndian, Le16, Utf8, ProviderOctets;
    OneOctet(|name|);
    OneOctet(|providers|);
    ProvidersLaidOut(providers);
  }

  lemma RequestLaidOut(job: u64, service: Text, verb: Text, target: Text, headers: seq<Header>)
    requires Encodable(Request(job, service, verb, target, headers))
    ensures MessageOut(Request(job, service, verb, target, headers))
         == Bytes(Octets(Request(job, service, verb, target, headers)))
  {
    hide LittleEndian, Le16, Le64, Utf8, HeaderOctets, HeaderFits, HeaderSeqOut;
    EightOctets(job);
    OneOctet(|service|);
    OneOctet(|verb|);
    TwoOctets(|target|);
    TwoOctets(|headers|);
    HeadersLaidOut(headers);
    Regrouped([0x10], Le64(job), [|service|], service, [|verb|], verb, Le16(|target|), target, Le16(|headers|),
      HeaderOctets(headers));
  }

  lemma Regrouped(a: Text, b: Text, c: Text, d: Text, e: Text, f: Text, g: Text, h: Text, i: Text, j: Text)
    ensures a + (b + ((c + d) + ((e + f) + ((g + h) + (i + j))))) == a + b + c + d + e + f + g + h + i + j
  {
    assert (g + h) + (i + j) == g + h + i + j;
    assert (e + f) + (g + h + i + j) == e + f + g + h + i + j;
    assert (c + d) + (e + f + g + h + i + j) == c + d + e + f + g + h + i + j;
  }

  // ---------- what is below the messages ----------

  /** The nonce of the suite: four zeros and the counter. */
  lemma NonceLaidOut(n: u64)
    ensures S.NonceBytes(n) == [0, 0, 0, 0] + Le64(n)
  {
    EightOctets(n);
  }

  lemma LengthLaidOut(size: u16)
    ensures R.LengthHeader(size) == [S.Clear(size % 0x100), S.Clear(size / 0x100)]
  {
    TwoOctets(size);
  }

  /** A record: its length without these two octets, then what was sealed, sixteen longer than the plaintext. */
  lemma RecordLaidOut(key: S.Term, n: nat, plain: Text)
    requires 1 <= |plain| <= 65519
    ensures var r, size := R.Record(key, n, plain), |plain| + 16;
            && |r| == 2 + size && r[0] == S.Clear(size % 0x100) && r[1] == S.Clear(size / 0x100)
            && forall i :: 0 <= i < size ==> r[2 + i] == S.Sealed(key, n, None, plain, i)
  {
    LengthLaidOut(|plain| + 16);
  }

  /** What an initiator sends at once: preamble, length and message, 55 octets. */
  lemma OpeningLaidOut(psk: Text, a: nat)
    requires |psk| == 32
    ensures var sent, t := C.Opening(psk, a), N.FirstTokens(psk, [0x48, 0x50, 0x4F, 0x4C, 0], a);
            && |sent| == 55
            && sent[..5] == S.ClearAll([0x48, 0x50, 0x4F, 0x4C, 0]) && sent[5..7] == [S.Clear(48), S.Clear(0)]
            && sent[7..39] == S.PublicKey(a) && sent[39..] == S.Seal(t.key, 0, Some(t.h), [])
  {
    var preamble, m := S.ClearAll(C.PREAMBLE), C.First(psk, a).1;
    LengthLaidOut(48);
    N.FirstMessage(psk, C.PREAMBLE, a, []);
    assert m[..32] == S.PublicKey(a) && |m| == 48;
    var sent := C.Opening(psk, a);
    assert sent == preamble + R.LengthHeader(48) + m;
    assert sent[7..] == m && sent[7..39] == m[..32] && sent[39..] == m[32..];
  }
}
