/** The encoder: what each field and each message becomes, and the builder and Encoder that produce it. */
module Encode {
  import opened Wire

  /** Octets so far, or the first refusal. */
  datatype Encoded = Bytes(b: Text) | Refused(why: Refusal)

  function Cat(a: Encoded, b: Encoded): (r: Encoded)
    ensures r.Bytes? <==> a.Bytes? && b.Bytes?
    ensures a.Refused? ==> r == a
  {
    if a.Refused? then a else if b.Refused? then b else Bytes(a.b + b.b)
  }

  lemma CatAssociates(a: Encoded, b: Encoded, c: Encoded)
    ensures Cat(Cat(a, b), c) == Cat(a, Cat(b, c))
  {
    if a.Bytes? && b.Bytes? && c.Bytes? {
      assert a.b + b.b + c.b == a.b + (b.b + c.b);
    }
  }

  lemma CatEmpty(a: Encoded)
    ensures Cat(a, Bytes([])) == a && Cat(Bytes([]), a) == a
  {
    if a.Bytes? {
      assert a.b + [] == a.b && [] + a.b == a.b;
    }
  }

  // ---------- fields ----------

  function U8Out(v: byte): Encoded { Bytes(LittleEndian(1, v)) }
  function U16Out(v: u16): Encoded { Bytes(LittleEndian(2, v)) }
  function U32Out(v: u32): Encoded { Bytes(LittleEndian(4, v)) }
  function U64Out(v: u64): Encoded { Bytes(LittleEndian(8, v)) }

  function Str8Out(s: Text): Encoded {
    if |s| > 255 then Refused(TooLong) else Cat(U8Out(|s|), Bytes(s))
  }

  function Str16Out(s: Text): Encoded {
    if |s| > 65535 then Refused(TooLong) else Cat(U16Out(|s|), Bytes(s))
  }

  function Name8Out(s: Text): Encoded {
    if !Utf8(s) then Refused(NotUtf8) else Str8Out(s)
  }

  function Text16Out(s: Text): Encoded {
    if !Utf8(s) then Refused(NotUtf8) else Str16Out(s)
  }

  function JobOut(id: u64): Encoded {
    if id == 0 then Refused(JobZero) else U64Out(id)
  }

  function SlotsOut(n: u16): Encoded {
    if n < 1 then Refused(NoSlots) else U16Out(n)
  }

  function StatusOut(s: u16): Encoded {
    if s < MIN_STATUS || s > MAX_STATUS then Refused(BadStatus) else U16Out(s)
  }

  function Count8Out(n: nat): Encoded {
    if n > 255 then Refused(TooMany) else U8Out(n)
  }

  function ChunkOut(p: Text): Encoded {
    if |p| < 1 then Refused(EmptyChunk)
    else if |p| > 0xFFFF_FFFF then Refused(TooLong)
    else Cat(U32Out(|p|), Bytes(p))
  }

  function HeaderOut(h: Header): Encoded {
    Cat(Str8Out(h.name), Str16Out(h.value))
  }

  function HeaderSeqOut(hs: seq<Header>): Encoded {
    if hs == [] then Bytes([]) else Cat(HeaderOut(hs[0]), HeaderSeqOut(hs[1..]))
  }

  function HeadersOut(hs: seq<Header>): Encoded {
    if |hs| > 65535 then Refused(TooMany) else Cat(U16Out(|hs|), HeaderSeqOut(hs))
  }

  function ProviderOut(p: ProviderInfo): Encoded {
    Cat(Name8Out(p.service), Cat(SlotsOut(p.maxConcurrent), U16Out(p.priority)))
  }

  function ProviderSeqOut(ps: seq<ProviderInfo>): Encoded {
    if ps == [] then Bytes([]) else Cat(ProviderOut(ps[0]), ProviderSeqOut(ps[1..]))
  }

  // ---------- messages ----------

  function FieldsOut(m: Message): Encoded {
    match m
    case Hello(name, providers) =>
      Cat(Name8Out(name), Cat(Count8Out(|providers|), ProviderSeqOut(providers)))
    case Ping => Bytes([])
    case Pong => Bytes([])
    case Request(job, service, verb, target, headers) =>
      Cat(JobOut(job), Cat(Name8Out(service), Cat(Str8Out(verb), Cat(Str16Out(target), HeadersOut(headers)))))
    case Response(job, status, headers) =>
      Cat(JobOut(job), Cat(StatusOut(status), HeadersOut(headers)))
    case Body(job, bytes) => Cat(JobOut(job), ChunkOut(bytes))
    case End(job, trailers) => Cat(JobOut(job), HeadersOut(trailers))
    case Cancel(job) => JobOut(job)
    case Fail(job, reason) => Cat(JobOut(job), Text16Out(reason))
  }

  function MessageOut(m: Message): Encoded {
    Cat(Bytes([Kind(m)]), FieldsOut(m))
  }

  lemma {:induction false} HeaderSeqFits(hs: seq<Header>)
    ensures HeaderSeqOut(hs).Bytes? <==> forall i :: 0 <= i < |hs| ==> HeaderFits(hs[i])
  {
    if hs != [] {
      HeaderSeqFits(hs[1..]);
      assert forall i :: 0 <= i < |hs| ==> hs[i] == if i == 0 then hs[0] else hs[1..][i - 1];
      if forall i :: 0 <= i < |hs| ==> HeaderFits(hs[i]) {
        assert HeaderFits(hs[0]);
      } else if HeaderFits(hs[0]) {
        var i :| 0 <= i < |hs| && !HeaderFits(hs[i]);
        assert !HeaderFits(hs[1..][i - 1]);
      }
    }
  }

  lemma {:induction false} ProviderSeqFits(ps: seq<ProviderInfo>)
    ensures ProviderSeqOut(ps).Bytes? <==> forall i :: 0 <= i < |ps| ==> ProviderFits(ps[i])
  {
    if ps != [] {
      ProviderSeqFits(ps[1..]);
      assert forall i :: 0 <= i < |ps| ==> ps[i] == if i == 0 then ps[0] else ps[1..][i - 1];
      if forall i :: 0 <= i < |ps| ==> ProviderFits(ps[i]) {
        assert ProviderFits(ps[0]);
      } else if ProviderFits(ps[0]) {
        var i :| 0 <= i < |ps| && !ProviderFits(ps[i]);
        assert !ProviderFits(ps[1..][i - 1]);
      }
    }
  }

  /** The encoder refuses exactly the messages outside the ranges PROTOCOL.md states. */
  lemma EncodesExactlyEncodable(m: Message)
    ensures MessageOut(m).Bytes? <==> Encodable(m)
  {
    match m
    case Hello(name, providers) => ProviderSeqFits(providers);
    case Request(_, _, _, _, headers) => HeaderSeqFits(headers);
    case Response(_, _, headers) => HeaderSeqFits(headers);
    case End(_, trailers) => HeaderSeqFits(trailers);
    case _ =>
  }

  // ---------- the builder ----------

  /** Appends fields and remembers the first thing that was wrong. */
  class Builder {
    var buf: Text
    var err: Option<Refusal>

    /** The builder as a value: the octets, or the refusal that makes them worthless. */
    ghost function State(): Encoded
      reads this
    {
      if err.Some? then Refused(err.value) else Bytes(buf)
    }

    constructor (dst: Text)
      ensures State() == Bytes(dst)
    {
      buf, err := dst, None;
    }

    method Append(p: Text)
      modifies this
      ensures State() == Cat(old(State()), Bytes(p))
    {
      buf := buf + p;
    }

    method Fail(why: Refusal)
      modifies this
      ensures State() == Cat(old(State()), Refused(why))
    {
      if err.None? {
        err := Some(why);
      }
    }

    method U8(v: byte)
      modifies this
      ensures State() == Cat(old(State()), U8Out(v))
    {
      Append(LittleEndian(1, v));
    }

    method U16(v: u16)
      modifies this
      ensures State() == Cat(old(State()), U16Out(v))
    {
      Append(LittleEndian(2, v));
    }

    method U32(v: u32)
      modifies this
      ensures State() == Cat(old(State()), U32Out(v))
    {
      Append(LittleEndian(4, v));
    }

    method U64(v: u64)
      modifies this
      ensures State() == Cat(old(State()), U64Out(v))
    {
      Append(LittleEndian(8, v));
    }

    method Str8(s: Text)
      modifies this
      ensures State() == Cat(old(State()), Str8Out(s))
    {
      if |s| > 255 {
        Fail(TooLong);
        return;
      }
      CatAssociates(State(), U8Out(|s|), Bytes(s));
      U8(|s|);
      Append(s);
    }

    method Str16(s: Text)
      modifies this
      ensures State() == Cat(old(State()), Str16Out(s))
    {
      if |s| > 65535 {
        Fail(TooLong);
        return;
      }
      CatAssociates(State(), U16Out(|s|), Bytes(s));
      U16(|s|);
      Append(s);
    }

    method Name8(s: Text)
      modifies this
      ensures State() == Cat(old(State()), Name8Out(s))
    {
      if !Utf8(s) {
        Fail(NotUtf8);
        return;
      }
      Str8(s);
    }

    method Text16(s: Text)
      modifies this
      ensures State() == Cat(old(State()), Text16Out(s))
    {
      if !Utf8(s) {
        Fail(NotUtf8);
        return;
      }
      Str16(s);
    }

    method Job(id: u64)
      modifies this
      ensures State() == Cat(old(State()), JobOut(id))
    {
      if id == 0 {
        Fail(JobZero);
        return;
      }
      U64(id);
    }

    method Slots(n: u16)
      modifies this
      ensures State() == Cat(old(State()), SlotsOut(n))
    {
      if n < 1 {
        Fail(NoSlots);
        return;
      }
      U16(n);
    }

    method Status(s: u16)
      modifies this
      ensures State() == Cat(old(State()), StatusOut(s))
    {
      if s < MIN_STATUS || s > MAX_STATUS {
        Fail(BadStatus);
        return;
      }
      U16(s);
    }

    method Count8(n: nat)
      modifies this
      ensures State() == Cat(old(State()), Count8Out(n))
    {
      if n > 255 {
        Fail(TooMany);
        return;
      }
      U8(n);
    }

    method Chunk(p: Text)
      modifies this
      ensures State() == Cat(old(State()), ChunkOut(p))
    {
      if |p| < 1 {
        Fail(EmptyChunk);
        return;
      }
      if |p| > 0xFFFF_FFFF {
        Fail(TooLong);
        return;
      }
      CatAssociates(State(), U32Out(|p|), Bytes(p));
      U32(|p|);
      Append(p);
    }

    method Headers(hs: seq<Header>)
      modifies this
      ensures State() == Cat(old(State()), HeadersOut(hs))
    {
      if |hs| > 65535 {
        Fail(TooMany);
        return;
      }
      CatAssociates(State(), U16Out(|hs|), HeaderSeqOut(hs));
      U16(|hs|);
      for i := 0 to |hs|
        invariant Cat(State(), HeaderSeqOut(hs[i..])) == Cat(old(State()), HeadersOut(hs))
      {
        assert hs[i..][0] == hs[i] && hs[i..][1..] == hs[i + 1..];
        CatAssociates(State(), HeaderOut(hs[i]), HeaderSeqOut(hs[i + 1..]));
        CatAssociates(State(), Str8Out(hs[i].name), Str16Out(hs[i].value));
        Str8(hs[i].name);
        Str16(hs[i].value);
      }
      CatEmpty(State());
    }

    method Providers(ps: seq<ProviderInfo>)
      modifies this
      ensures State() == Cat(old(State()), ProviderSeqOut(ps))
    {
      for i := 0 to |ps|
        invariant Cat(State(), ProviderSeqOut(ps[i..])) == Cat(old(State()), ProviderSeqOut(ps))
      {
        assert ps[i..][0] == ps[i] && ps[i..][1..] == ps[i + 1..];
        var p := ps[i];
        CatAssociates(State(), ProviderOut(p), ProviderSeqOut(ps[i + 1..]));
        CatAssociates(State(), Name8Out(p.service), Cat(SlotsOut(p.maxConcurrent), U16Out(p.priority)));
        Name8(p.service);
        CatAssociates(State(), SlotsOut(p.maxConcurrent), U16Out(p.priority));
        Slots(p.maxConcurrent);
        U16(p.priority);
      }
      CatEmpty(State());
    }

    /** The fields of one message, in the order the format lists them. */
    method Fields(m: Message)
      modifies this
      ensures State() == Cat(old(State()), FieldsOut(m))
    {
      hide Cat, JobOut, StatusOut, HeadersOut, Name8Out, Str8Out, Str16Out, Text16Out, ChunkOut, Count8Out,
        ProviderSeqOut;
      match m
      case Hello(name, providers) =>
        CatAssociates(State(), Name8Out(name), Cat(Count8Out(|providers|), ProviderSeqOut(providers)));
        Name8(name);
        CatAssociates(State(), Count8Out(|providers|), ProviderSeqOut(providers));
        Count8(|providers|);
        Providers(providers);
      case Ping => CatEmpty(State());
      case Pong => CatEmpty(State());
      case Request(job, service, verb, target, headers) =>
        CatAssociates(State(), JobOut(job),
          Cat(Name8Out(service), Cat(Str8Out(verb), Cat(Str16Out(target), HeadersOut(headers)))));
        Job(job);
        CatAssociates(State(), Name8Out(service), Cat(Str8Out(verb), Cat(Str16Out(target), HeadersOut(headers))));
        Name8(service);
        CatAssociates(State(), Str8Out(verb), Cat(Str16Out(target), HeadersOut(headers)));
        Str8(verb);
        CatAssociates(State(), Str16Out(target), HeadersOut(headers));
        Str16(target);
        Headers(headers);
      case Response(job, status, headers) =>
        CatAssociates(State(), JobOut(job), Cat(StatusOut(status), HeadersOut(headers)));
        Job(job);
        CatAssociates(State(), StatusOut(status), HeadersOut(headers));
        Status(status);
        Headers(headers);
      case Body(job, bytes) =>
        CatAssociates(State(), JobOut(job), ChunkOut(bytes));
        Job(job);
        Chunk(bytes);
      case End(job, trailers) =>
        CatAssociates(State(), JobOut(job), HeadersOut(trailers));
        Job(job);
        Headers(trailers);
      case Cancel(job) =>
        Job(job);
      case Fail(job, reason) =>
        CatAssociates(State(), JobOut(job), Text16Out(reason));
        Job(job);
        Text16(reason);
    }
  }

  /** Appends the encoding of m to dst. A refused message leaves dst as it was. */
  method EncodeMessage(dst: Text, m: Message) returns (buf: Text, err: Option<Refusal>)
    ensures err.None? <==> Encodable(m)
    ensures err.None? ==> MessageOut(m).Bytes? && buf == dst + MessageOut(m).b
    ensures err.Some? ==> buf == dst && MessageOut(m) == Refused(err.value)
  {
    EncodesExactlyEncodable(m);
    var b := new Builder(dst + [Kind(m)]);
    b.Fields(m);
    if b.err.Some? {
      return dst, b.err;
    }
    assert dst + [Kind(m)] + FieldsOut(m).b == dst + ([Kind(m)] + FieldsOut(m).b);
    return b.buf, None;
  }

  // ---------- the encoder ----------

  /** The one direction rule the wire itself keeps: HELLO first and once from a client, never from a server. */
  function OrderRefusal(role: Role, sentHello: bool, m: Message): Option<Refusal> {
    if m.Hello? && role == Server then Some(ServerHello)
    else if role == Client && m.Hello? == sentHello then Some(if m.Hello? then HelloTwice else BeforeHello)
    else None
  }

  /** What the encoder puts out for m in a given state. */
  function StepOut(role: Role, sentHello: bool, m: Message): Encoded {
    var order := OrderRefusal(role, sentHello, m);
    if order.Some? then Refused(order.value) else MessageOut(m)
  }

  class Encoder {
    const role: Role
    var sentHello: bool
    var buf: Text
    /** Everything the transport below has taken. */
    var out: Text

    constructor (role: Role)
      ensures this.role == role && !sentHello && out == []
    {
      this.role := role;
      sentHello, buf, out := false, [], [];
    }

    /** Encodes m and writes it in one call. takes is how many octets the transport accepts before it fails. */
    method Write(m: Message, takes: nat) returns (err: Option<Refusal>)
      modifies this
      ensures StepOut(role, old(sentHello), m).Refused? ==>
                err == Some(StepOut(role, old(sentHello), m).why) && out == old(out) && sentHello == old(sentHello)
      ensures StepOut(role, old(sentHello), m).Bytes? ==>
                var b := StepOut(role, old(sentHello), m).b;
                if takes >= |b| then err == None && out == old(out) + b && sentHello == (old(sentHello) || m.Hello?)
                else err == Some(TransportFailed) && out == old(out) + b[..takes] && sentHello == old(sentHello)
    {
      var order := OrderRefusal(role, sentHello, m);
      if order.Some? {
        return order;
      }
      buf := [];
      var encoded, refused := EncodeMessage(buf, m);
      if refused.Some? {
        return refused;
      }
      buf := encoded;
      assert buf == MessageOut(m).b;
      if takes < |buf| {
        out := out + buf[..takes];
        return Some(TransportFailed);
      }
      out := out + buf;
      if m.Hello? {
        sentHello := true;
      }
      return None;
    }
  }
}
