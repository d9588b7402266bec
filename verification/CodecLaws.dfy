/** The encoder and the decoder, written apart, are inverse to each other on exactly the same messages. */
module CodecLaws {
  import opened Wire
  import opened Encode
  import opened Decode

  /** p is what reading s must give when b is the encoding of v: v itself off anything that starts with b,
      and an end in the middle off anything that stops inside b. */
  ghost predicate Inverts<T>(b: Text, v: T, s: Text, p: Parse<T>, end: Ending) {
    && (b <= s ==> p == Got(v, s[|b|..]))
    && (s < b ==> p == Bad(Short(end)))
  }

  /** s is e followed by rest. */
  ghost predicate Spells(e: Encoded, s: Text, rest: Text) {
    e.Bytes? && s == e.b + rest
  }

  lemma Chain(a: Text, b: Text, s: Text)
    ensures a + b <= s ==> a <= s && b <= s[|a|..] && s[|a|..][|b|..] == s[|a + b|..]
    ensures s < a + b ==> s < a || (a <= s && s[|a|..] < b)
  {
    if a + b <= s {
      assert s[..|a|] == a;
      assert s[|a|..][..|b|] == b;
      assert s[|a|..][|b|..] == s[|a + b|..];
    }
    if s < a + b {
      if |s| < |a| {
        assert s == (a + b)[..|s|] == a[..|s|];
      } else {
        assert s[..|a|] == a;
        assert s[|a|..] == (a + b)[..|s|][|a|..] == b[..|s| - |a|];
      }
    }
  }

  lemma SpellsChain(a: Encoded, b: Encoded, s: Text, middle: Text, rest: Text)
    requires Spells(a, s, middle) && Spells(b, middle, rest)
    ensures Spells(Cat(a, b), s, rest)
  {
    assert a.b + (b.b + rest) == a.b + b.b + rest;
  }

  lemma SpellsChainFive(a: Encoded, b: Encoded, c: Encoded, d: Encoded, e: Encoded,
                        s0: Text, s1: Text, s2: Text, s3: Text, s4: Text, s5: Text)
    requires Spells(a, s0, s1) && Spells(b, s1, s2) && Spells(c, s2, s3) && Spells(d, s3, s4) && Spells(e, s4, s5)
    ensures Spells(Cat(a, Cat(b, Cat(c, Cat(d, e)))), s0, s5)
  {
    SpellsChain(d, e, s3, s4, s5);
    SpellsChain(c, Cat(d, e), s2, s3, s5);
    SpellsChain(b, Cat(c, Cat(d, e)), s1, s2, s5);
    SpellsChain(a, Cat(b, Cat(c, Cat(d, e))), s0, s1, s5);
  }

  // ---------- fields, encoder first ----------

  lemma TakeInverts(p: Text, s: Text, end: Ending)
    ensures Inverts(p, p, s, Take(s, |p|, end), end)
  {
    if p <= s {
      assert s[..|p|] == p;
    }
  }

  lemma U8Inverts(v: byte, s: Text, end: Ending)
    ensures Inverts(U8Out(v).b, v, s, U8In(s, end), end)
  {
    Widths();
    IntegerRoundTrip(1, v);
    TakeInverts(U8Out(v).b, s, end);
  }

  lemma U16Inverts(v: u16, s: Text, end: Ending)
    ensures Inverts(U16Out(v).b, v, s, U16In(s, end), end)
  {
    Widths();
    IntegerRoundTrip(2, v);
    TakeInverts(U16Out(v).b, s, end);
  }

  lemma U32Inverts(v: u32, s: Text, end: Ending)
    ensures Inverts(U32Out(v).b, v, s, U32In(s, end), end)
  {
    Widths();
    IntegerRoundTrip(4, v);
    TakeInverts(U32Out(v).b, s, end);
  }

  lemma U64Inverts(v: u64, s: Text, end: Ending)
    ensures Inverts(U64Out(v).b, v, s, U64In(s, end), end)
  {
    Widths();
    IntegerRoundTrip(8, v);
    TakeInverts(U64Out(v).b, s, end);
  }

  lemma Str8Inverts(v: Text, s: Text, end: Ending)
    requires Str8Out(v).Bytes?
    ensures Inverts(Str8Out(v).b, v, s, Str8In(s, end), end)
  {
    var n := U8Out(|v|).b;
    Chain(n, v, s);
    U8Inverts(|v|, s, end);
    if n <= s {
      TakeInverts(v, s[|n|..], end);
    }
  }

  lemma Str16Inverts(v: Text, s: Text, end: Ending)
    requires Str16Out(v).Bytes?
    ensures Inverts(Str16Out(v).b, v, s, Str16In(s, end), end)
  {
    var n := U16Out(|v|).b;
    Chain(n, v, s);
    U16Inverts(|v|, s, end);
    if n <= s {
      TakeInverts(v, s[|n|..], end);
    }
  }

  lemma ChunkInverts(v: Text, s: Text, end: Ending)
    requires ChunkOut(v).Bytes?
    ensures Inverts(ChunkOut(v).b, v, s, ChunkIn(s, end), end)
  {
    var n := U32Out(|v|).b;
    Chain(n, v, s);
    U32Inverts(|v|, s, end);
    if n <= s {
      TakeInverts(v, s[|n|..], end);
    }
  }

  lemma HeaderInverts(h: Header, s: Text, end: Ending)
    requires HeaderOut(h).Bytes?
    ensures Inverts(HeaderOut(h).b, h, s, HeaderIn(s, end), end)
  {
    hide Str8In, Str16In, Str8Out, Str16Out;
    var name, value := Str8Out(h.name).b, Str16Out(h.value).b;
    Chain(name, value, s);
    Str8Inverts(h.name, s, end);
    if name <= s {
      Str16Inverts(h.value, s[|name|..], end);
    }
  }

  lemma {:induction false} HeaderSeqInverts(hs: seq<Header>, s: Text, end: Ending)
    requires HeaderSeqOut(hs).Bytes?
    ensures Inverts(HeaderSeqOut(hs).b, hs, s, HeaderSeqIn(|hs|, s, end), end)
  {
    hide HeaderIn, HeaderOut;
    if hs != [] {
      var first, others := HeaderOut(hs[0]).b, HeaderSeqOut(hs[1..]).b;
      Chain(first, others, s);
      HeaderInverts(hs[0], s, end);
      if first <= s {
        HeaderSeqInverts(hs[1..], s[|first|..], end);
        assert [hs[0]] + hs[1..] == hs;
      }
    }
  }

  lemma HeadersInverts(hs: seq<Header>, s: Text, end: Ending)
    requires HeadersOut(hs).Bytes?
    ensures Inverts(HeadersOut(hs).b, hs, s, HeadersIn(s, end), end)
  {
    hide HeaderSeqIn, HeaderSeqOut, U16In;
    var n, items := U16Out(|hs|).b, HeaderSeqOut(hs).b;
    Chain(n, items, s);
    U16Inverts(|hs|, s, end);
    if n <= s {
      HeaderSeqInverts(hs, s[|n|..], end);
    }
  }

  lemma ProviderInverts(p: ProviderInfo, s: Text, end: Ending)
    requires ProviderOut(p).Bytes?
    ensures Inverts(ProviderOut(p).b, p, s, ProviderIn(s, end), end)
  {
    var name, slots, priority := Name8Out(p.service).b, SlotsOut(p.maxConcurrent).b, U16Out(p.priority).b;
    Chain(name, slots + priority, s);
    Str8Inverts(p.service, s, end);
    if name <= s {
      var s1 := s[|name|..];
      Chain(slots, priority, s1);
      U16Inverts(p.maxConcurrent, s1, end);
      if slots <= s1 {
        U16Inverts(p.priority, s1[|slots|..], end);
      }
    }
  }

  lemma {:induction false} ProviderSeqInverts(ps: seq<ProviderInfo>, s: Text, end: Ending)
    requires ProviderSeqOut(ps).Bytes?
    ensures Inverts(ProviderSeqOut(ps).b, ps, s, ProviderSeqIn(|ps|, s, end), end)
  {
    hide ProviderIn, ProviderOut;
    if ps != [] {
      var first, others := ProviderOut(ps[0]).b, ProviderSeqOut(ps[1..]).b;
      Chain(first, others, s);
      ProviderInverts(ps[0], s, end);
      if first <= s {
        ProviderSeqInverts(ps[1..], s[|first|..], end);
        assert [ps[0]] + ps[1..] == ps;
      }
    }
  }

  // ---------- messages, encoder first ----------

  lemma HelloInverts(m: Message, s: Text, end: Ending)
    requires m.Hello? && FieldsOut(m).Bytes?
    ensures Inverts(FieldsOut(m).b, m, s, HelloIn(s, end), end)
  {
    hide ProviderSeqIn, ProviderSeqOut, Str8In, Str8Out;
    var name, count, items := Name8Out(m.name).b, Count8Out(|m.providers|).b, ProviderSeqOut(m.providers).b;
    Chain(name, count + items, s);
    Str8Inverts(m.name, s, end);
    if name <= s {
      var s1 := s[|name|..];
      Chain(count, items, s1);
      U8Inverts(|m.providers|, s1, end);
      if count <= s1 {
        ProviderSeqInverts(m.providers, s1[|count|..], end);
      }
    }
  }

  lemma RequestInverts(m: Message, s: Text, end: Ending)
    requires m.Request? && FieldsOut(m).Bytes?
    ensures Inverts(FieldsOut(m).b, m, s, RequestIn(s, end), end)
  {
    hide HeadersIn, HeadersOut, U64In, U64Out, Str8In, Str16In, Str8Out, Str16Out;
    var job, service, verb := JobOut(m.job).b, Name8Out(m.service).b, Str8Out(m.verb).b;
    var target, headers := Str16Out(m.target).b, HeadersOut(m.headers).b;
    Chain(job, service + (verb + (target + headers)), s);
    U64Inverts(m.job, s, end);
    if job <= s {
      var s1 := s[|job|..];
      Chain(service, verb + (target + headers), s1);
      Str8Inverts(m.service, s1, end);
      if service <= s1 {
        var s2 := s1[|service|..];
        Chain(verb, target + headers, s2);
        Str8Inverts(m.verb, s2, end);
        if verb <= s2 {
          var s3 := s2[|verb|..];
          Chain(target, headers, s3);
          Str16Inverts(m.target, s3, end);
          if target <= s3 {
            HeadersInverts(m.headers, s3[|target|..], end);
          }
        }
      }
    }
  }

  lemma ResponseInverts(m: Message, s: Text, end: Ending)
    requires m.Response? && FieldsOut(m).Bytes?
    ensures Inverts(FieldsOut(m).b, m, s, ResponseIn(s, end), end)
  {
    hide HeadersIn, HeadersOut, U64In, U64Out, U16In, U16Out;
    var job, status, headers := JobOut(m.job).b, StatusOut(m.status).b, HeadersOut(m.headers).b;
    Chain(job, status + headers, s);
    U64Inverts(m.job, s, end);
    if job <= s {
      var s1 := s[|job|..];
      Chain(status, headers, s1);
      U16Inverts(m.status, s1, end);
      if status <= s1 {
        HeadersInverts(m.headers, s1[|status|..], end);
      }
    }
  }

  lemma BodyInverts(m: Message, s: Text, end: Ending)
    requires m.Body? && FieldsOut(m).Bytes?
    ensures Inverts(FieldsOut(m).b, m, s, BodyIn(s, end), end)
  {
    var job := JobOut(m.job).b;
    Chain(job, ChunkOut(m.bytes).b, s);
    U64Inverts(m.job, s, end);
    if job <= s {
      ChunkInverts(m.bytes, s[|job|..], end);
    }
  }

  lemma EndInverts(m: Message, s: Text, end: Ending)
    requires m.End? && FieldsOut(m).Bytes?
    ensures Inverts(FieldsOut(m).b, m, s, EndIn(s, end), end)
  {
    var job := JobOut(m.job).b;
    Chain(job, HeadersOut(m.trailers).b, s);
    U64Inverts(m.job, s, end);
    if job <= s {
      HeadersInverts(m.trailers, s[|job|..], end);
    }
  }

  lemma FailInverts(m: Message, s: Text, end: Ending)
    requires m.Fail? && FieldsOut(m).Bytes?
    ensures Inverts(FieldsOut(m).b, m, s, FailIn(s, end), end)
  {
    var job := JobOut(m.job).b;
    Chain(job, Text16Out(m.reason).b, s);
    U64Inverts(m.job, s, end);
    if job <= s {
      Str16Inverts(m.reason, s[|job|..], end);
    }
  }

  lemma FieldsInvert(m: Message, s: Text, end: Ending)
    requires FieldsOut(m).Bytes?
    ensures Inverts(FieldsOut(m).b, m, s, FieldsIn(Kind(m), s, end), end)
  {
    hide HelloIn, RequestIn, ResponseIn, BodyIn, EndIn, FailIn, U64In, U64Out, HeadersOut, ChunkOut, Str8Out, Str16Out,
      ProviderSeqOut;
    match m
    case Hello(_, _) => HelloInverts(m, s, end);
    case Request(_, _, _, _, _) => RequestInverts(m, s, end);
    case Response(_, _, _) => ResponseInverts(m, s, end);
    case Body(_, _) => BodyInverts(m, s, end);
    case End(_, _) => EndInverts(m, s, end);
    case Cancel(job) => U64Inverts(job, s, end);
    case Fail(_, _) => FailInverts(m, s, end);
    case _ =>
  }

  // ---------- fields, decoder first ----------

  lemma U8Canonical(s: Text, end: Ending)
    ensures U8In(s, end).Got? ==> Spells(U8Out(U8In(s, end).value), s, U8In(s, end).rest)
  {
    if |s| >= 1 {
      IntegerCanonical(s[..1]);
    }
  }

  lemma U16Canonical(s: Text, end: Ending)
    ensures U16In(s, end).Got? ==> Spells(U16Out(U16In(s, end).value), s, U16In(s, end).rest)
  {
    if |s| >= 2 {
      IntegerCanonical(s[..2]);
    }
  }

  lemma U32Canonical(s: Text, end: Ending)
    ensures U32In(s, end).Got? ==> Spells(U32Out(U32In(s, end).value), s, U32In(s, end).rest)
  {
    if |s| >= 4 {
      IntegerCanonical(s[..4]);
    }
  }

  lemma U64Canonical(s: Text, end: Ending)
    ensures U64In(s, end).Got? ==> Spells(U64Out(U64In(s, end).value), s, U64In(s, end).rest)
  {
    if |s| >= 8 {
      IntegerCanonical(s[..8]);
    }
  }

  lemma Str8Canonical(s: Text, end: Ending)
    ensures Str8In(s, end).Got? ==> Spells(Str8Out(Str8In(s, end).value), s, Str8In(s, end).rest)
  {
    if Str8In(s, end).Got? {
      var n, p := U8In(s, end), Str8In(s, end);
      U8Canonical(s, end);
      assert Spells(Bytes(p.value), n.rest, p.rest);
      SpellsChain(U8Out(n.value), Bytes(p.value), s, n.rest, p.rest);
    }
  }

  lemma Name8Canonical(s: Text, end: Ending)
    ensures Name8In(s, end).Got? ==> Spells(Name8Out(Name8In(s, end).value), s, Name8In(s, end).rest)
  {
    Str8Canonical(s, end);
  }

  lemma JobCanonical(s: Text, end: Ending)
    ensures JobIn(s, end).Got? ==> Spells(JobOut(JobIn(s, end).value), s, JobIn(s, end).rest)
  {
    U64Canonical(s, end);
  }

  lemma Str16Canonical(s: Text, end: Ending)
    ensures Str16In(s, end).Got? ==> Spells(Str16Out(Str16In(s, end).value), s, Str16In(s, end).rest)
  {
    if Str16In(s, end).Got? {
      var n, p := U16In(s, end), Str16In(s, end);
      U16Canonical(s, end);
      assert Spells(Bytes(p.value), n.rest, p.rest);
      SpellsChain(U16Out(n.value), Bytes(p.value), s, n.rest, p.rest);
    }
  }

  lemma ChunkCanonical(s: Text, end: Ending)
    ensures ChunkIn(s, end).Got? ==> Spells(ChunkOut(ChunkIn(s, end).value), s, ChunkIn(s, end).rest)
  {
    if ChunkIn(s, end).Got? {
      var n, p := U32In(s, end), ChunkIn(s, end);
      U32Canonical(s, end);
      assert Spells(Bytes(p.value), n.rest, p.rest);
      SpellsChain(U32Out(n.value), Bytes(p.value), s, n.rest, p.rest);
    }
  }

  lemma HeaderCanonical(s: Text, end: Ending)
    ensures HeaderIn(s, end).Got? ==> Spells(HeaderOut(HeaderIn(s, end).value), s, HeaderIn(s, end).rest)
  {
    hide Str8In, Str16In, Str8Out, Str16Out;
    if HeaderIn(s, end).Got? {
      var name := Str8In(s, end);
      var value := Str16In(name.rest, end);
      Str8Canonical(s, end);
      Str16Canonical(name.rest, end);
      SpellsChain(Str8Out(name.value), Str16Out(value.value), s, name.rest, value.rest);
    }
  }

  lemma {:induction false} HeaderSeqCanonical(count: nat, s: Text, end: Ending)
    ensures var p := HeaderSeqIn(count, s, end);
            p.Got? ==> Spells(HeaderSeqOut(p.value), s, p.rest)
  {
    hide HeaderIn, HeaderOut;
    var p := HeaderSeqIn(count, s, end);
    if p.Got? {
      if count == 0 {
        assert s == [] + s;
      } else {
        var first := HeaderIn(s, end);
        var others := HeaderSeqIn(count - 1, first.rest, end);
        HeaderCanonical(s, end);
        HeaderSeqCanonical(count - 1, first.rest, end);
        SpellsChain(HeaderOut(first.value), HeaderSeqOut(others.value), s, first.rest, others.rest);
        assert p.value[1..] == others.value;
      }
    }
  }

  lemma HeadersCanonical(s: Text, end: Ending)
    ensures HeadersIn(s, end).Got? ==> Spells(HeadersOut(HeadersIn(s, end).value), s, HeadersIn(s, end).rest)
  {
    hide HeaderSeqIn, HeaderSeqOut, U16In;
    if HeadersIn(s, end).Got? {
      var n, p := U16In(s, end), HeadersIn(s, end);
      U16Canonical(s, end);
      HeaderSeqCanonical(n.value, n.rest, end);
      SpellsChain(U16Out(n.value), HeaderSeqOut(p.value), s, n.rest, p.rest);
    }
  }

  lemma ProviderCanonical(s: Text, end: Ending)
    ensures ProviderIn(s, end).Got? ==> Spells(ProviderOut(ProviderIn(s, end).value), s, ProviderIn(s, end).rest)
  {
    hide Name8In, Name8Out;
    if ProviderIn(s, end).Got? {
      var name := Name8In(s, end);
      var slots := SlotsIn(name.rest, end);
      var priority := U16In(slots.rest, end);
      Name8Canonical(s, end);
      U16Canonical(name.rest, end);
      U16Canonical(slots.rest, end);
      SpellsChain(SlotsOut(slots.value), U16Out(priority.value), name.rest, slots.rest, priority.rest);
      SpellsChain(Name8Out(name.value), Cat(SlotsOut(slots.value), U16Out(priority.value)), s, name.rest,
        priority.rest);
    }
  }

  lemma ProviderSeqGrows(x: ProviderInfo, xs: seq<ProviderInfo>, s: Text, middle: Text, rest: Text)
    requires Spells(ProviderOut(x), s, middle) && Spells(ProviderSeqOut(xs), middle, rest)
    ensures Spells(ProviderSeqOut([x] + xs), s, rest)
  {
    SpellsChain(ProviderOut(x), ProviderSeqOut(xs), s, middle, rest);
    assert ([x] + xs)[1..] == xs;
  }

  lemma {:induction false} ProviderSeqCanonical(count: nat, s: Text, end: Ending)
    ensures var p := ProviderSeqIn(count, s, end);
            p.Got? ==> Spells(ProviderSeqOut(p.value), s, p.rest)
  {
    hide ProviderIn, ProviderOut;
    if count == 0 {
      assert s == [] + s;
    } else if ProviderSeqIn(count, s, end).Got? {
      var first := ProviderIn(s, end);
      var others := ProviderSeqIn(count - 1, first.rest, end);
      ProviderCanonical(s, end);
      ProviderSeqCanonical(count - 1, first.rest, end);
      ProviderSeqGrows(first.value, others.value, s, first.rest, others.rest);
    }
  }

  // ---------- messages, decoder first ----------

  lemma HelloCanonical(s: Text, end: Ending)
    ensures HelloIn(s, end).Got? ==> Spells(FieldsOut(HelloIn(s, end).value), s, HelloIn(s, end).rest)
  {
    hide Name8In, Name8Out, ProviderSeqIn, ProviderSeqOut;
    if HelloIn(s, end).Got? {
      var name := Name8In(s, end);
      var count := U8In(name.rest, end);
      var items := ProviderSeqIn(count.value, count.rest, end);
      Name8Canonical(s, end);
      U8Canonical(name.rest, end);
      ProviderSeqCanonical(count.value, count.rest, end);
      var tail := ProviderSeqOut(items.value);
      SpellsChain(Count8Out(count.value), tail, name.rest, count.rest, items.rest);
      SpellsChain(Name8Out(name.value), Cat(Count8Out(count.value), tail), s, name.rest, items.rest);
    }
  }

  lemma RequestCanonical(s: Text, end: Ending)
    ensures RequestIn(s, end).Got? ==> Spells(FieldsOut(RequestIn(s, end).value), s, RequestIn(s, end).rest)
  {
    hide JobIn, Name8In, Str8In, Str16In, HeadersIn, JobOut, Name8Out, Str8Out, Str16Out, HeadersOut;
    if RequestIn(s, end).Got? {
      var job := JobIn(s, end);
      var service := Name8In(job.rest, end);
      var verb := Str8In(service.rest, end);
      var target := Str16In(verb.rest, end);
      var headers := HeadersIn(target.rest, end);
      JobCanonical(s, end);
      Name8Canonical(job.rest, end);
      Str8Canonical(service.rest, end);
      Str16Canonical(verb.rest, end);
      HeadersCanonical(target.rest, end);
      SpellsChainFive(
        JobOut(job.value), Name8Out(service.value), Str8Out(verb.value), Str16Out(target.value),
        HeadersOut(headers.value), s, job.rest, service.rest, verb.rest, target.rest, headers.rest);
    }
  }

  lemma ResponseCanonical(s: Text, end: Ending)
    ensures ResponseIn(s, end).Got? ==> Spells(FieldsOut(ResponseIn(s, end).value), s, ResponseIn(s, end).rest)
  {
    hide JobIn, U16In, HeadersIn, JobOut, HeadersOut;
    if ResponseIn(s, end).Got? {
      var job := JobIn(s, end);
      var status := StatusIn(job.rest, end);
      var headers := HeadersIn(status.rest, end);
      JobCanonical(s, end);
      U16Canonical(job.rest, end);
      HeadersCanonical(status.rest, end);
      var e3 := HeadersOut(headers.value);
      SpellsChain(StatusOut(status.value), e3, job.rest, status.rest, headers.rest);
      SpellsChain(JobOut(job.value), Cat(StatusOut(status.value), e3), s, job.rest, headers.rest);
    }
  }

  lemma BodyCanonical(s: Text, end: Ending)
    ensures BodyIn(s, end).Got? ==> Spells(FieldsOut(BodyIn(s, end).value), s, BodyIn(s, end).rest)
  {
    hide JobIn, ChunkIn, JobOut, ChunkOut;
    if BodyIn(s, end).Got? {
      var job := JobIn(s, end);
      var bytes := ChunkIn(job.rest, end);
      JobCanonical(s, end);
      ChunkCanonical(job.rest, end);
      SpellsChain(JobOut(job.value), ChunkOut(bytes.value), s, job.rest, bytes.rest);
    }
  }

  lemma EndCanonical(s: Text, end: Ending)
    ensures EndIn(s, end).Got? ==> Spells(FieldsOut(EndIn(s, end).value), s, EndIn(s, end).rest)
  {
    hide JobIn, HeadersIn, JobOut, HeadersOut;
    if EndIn(s, end).Got? {
      var job := JobIn(s, end);
      var trailers := HeadersIn(job.rest, end);
      JobCanonical(s, end);
      HeadersCanonical(job.rest, end);
      SpellsChain(JobOut(job.value), HeadersOut(trailers.value), s, job.rest, trailers.rest);
    }
  }

  lemma FailCanonical(s: Text, end: Ending)
    ensures FailIn(s, end).Got? ==> Spells(FieldsOut(FailIn(s, end).value), s, FailIn(s, end).rest)
  {
    if FailIn(s, end).Got? {
      var job := JobIn(s, end);
      var reason := Text16In(job.rest, end);
      JobCanonical(s, end);
      Str16Canonical(job.rest, end);
      SpellsChain(JobOut(job.value), Text16Out(reason.value), s, job.rest, reason.rest);
    }
  }

  lemma FieldsCanonical(kind: byte, s: Text, end: Ending)
    ensures var p := FieldsIn(kind, s, end);
            p.Got? ==> Kind(p.value) == kind && Spells(FieldsOut(p.value), s, p.rest)
  {
    hide HelloIn, RequestIn, ResponseIn, BodyIn, EndIn, FailIn, U64In, U64Out, HeadersOut, ChunkOut, Str8Out, Str16Out,
      ProviderSeqOut;
    if kind == HELLO { HelloCanonical(s, end); }
    else if kind == REQUEST { RequestCanonical(s, end); }
    else if kind == RESPONSE { ResponseCanonical(s, end); }
    else if kind == BODY { BodyCanonical(s, end); }
    else if kind == END { EndCanonical(s, end); }
    else if kind == CANCEL { JobCanonical(s, end); }
    else if kind == FAIL { FailCanonical(s, end); }
    else if kind == PING || kind == PONG { assert s == [] + s; }
  }

  // ---------- whole messages ----------

  /** One message off s: the kind octet and the fields of that kind, without the HELLO rules. */
  function MessageOff(s: Text, end: Ending): Parse<Message> {
    if s == [] then Bad(Short(end)) else FieldsIn(s[0], s[1..], end)
  }

  lemma MessageInverts(m: Message, s: Text, end: Ending)
    requires Encodable(m)
    ensures MessageOut(m).Bytes? && Inverts(MessageOut(m).b, m, s, MessageOff(s, end), end)
  {
    hide FieldsOut, FieldsIn;
    EncodesExactlyEncodable(m);
    var b := FieldsOut(m).b;
    Chain([Kind(m)], b, s);
    if [Kind(m)] <= s {
      assert s[0] == Kind(m);
      FieldsInvert(m, s[1..], end);
    } else if s < MessageOut(m).b {
      assert s == [];
    }
  }

  /** Every message the encoder takes comes back off the wire as it was, whatever follows it. */
  lemma RoundTrip(m: Message, rest: Text, end: Ending)
    requires Encodable(m)
    ensures MessageOut(m).Bytes? && MessageOff(MessageOut(m).b + rest, end) == Got(m, rest)
  {
    EncodesExactlyEncodable(m);
    var s := MessageOut(m).b + rest;
    MessageInverts(m, s, end);
    assert s[|MessageOut(m).b|..] == rest;
  }

  /** Whatever the decoder yields is a message the encoder takes, and the octets consumed are its one encoding. */
  lemma Canonical(s: Text, end: Ending)
    requires MessageOff(s, end).Got?
    ensures var p := MessageOff(s, end);
            Encodable(p.value) && MessageOut(p.value).Bytes? && s == MessageOut(p.value).b + p.rest
  {
    hide FieldsOut, FieldsIn;
    var p := MessageOff(s, end);
    FieldsCanonical(s[0], s[1..], end);
    EncodesExactlyEncodable(p.value);
    assert s == [s[0]] + s[1..];
    SpellsChain(Bytes([s[0]]), FieldsOut(p.value), s, s[1..], p.rest);
  }

  /** A message cut anywhere inside is an end in the middle: never a message, never another refusal. */
  lemma Truncated(m: Message, s: Text)
    requires Encodable(m) && MessageOut(m).Bytes? && s < MessageOut(m).b
    ensures MessageOff(s, Eof) == Bad(UnexpectedEof)
  {
    MessageInverts(m, s, Eof);
  }

  /** No encoding starts another, so a stream of messages has one reading. */
  lemma PrefixFree(m: Message, other: Message)
    requires Encodable(m) && Encodable(other)
    requires MessageOut(m).Bytes? && MessageOut(other).Bytes? && MessageOut(m).b <= MessageOut(other).b
    ensures m == other
  {
    MessageInverts(m, MessageOut(other).b, Eof);
    MessageInverts(other, MessageOut(other).b, Eof);
  }

  /** A relay re-sends what it read under another job id, and the encoder never refuses it. */
  lemma RelayedIsEncodable(s: Text, end: Ending, id: u64)
    requires MessageOff(s, end).Got? && id != 0
    ensures Encodable(MessageOff(s, end).value.Renumbered(id))
  {
    Canonical(s, end);
  }
}
