/** The decoder: how each field and each message is read, and the Decoder that reads them with a sticky error. */
module Decode {
  import opened Wire

  /** How the transport under the decoder stops once its octets have run out. */
  datatype Ending = Eof | Broken

  function Short(end: Ending): Refusal {
    if end.Eof? then UnexpectedEof else TransportFailed
  }

  /** A value and what is left to read, or the reason nothing more is read. */
  datatype Parse<+T> = Got(value: T, rest: Text) | Bad(why: Refusal) {
    predicate IsFailure() {
      Bad?
    }

    function PropagateFailure<U>(): Parse<U>
      requires Bad?
    {
      Bad(why)
    }

    function Extract(): (T, Text)
      requires Got?
    {
      (value, rest)
    }
  }

  // ---------- fields ----------

  function Take(s: Text, n: nat, end: Ending): (p: Parse<Text>)
    ensures p.Got? ==> |p.value| == n
  {
    if n <= |s| then Got(s[..n], s[n..]) else Bad(Short(end))
  }

  function U8In(s: Text, end: Ending): Parse<byte> {
    var (b, rest) :- Take(s, 1, end);
    Widths();
    Got(FromLittleEndian(b), rest)
  }

  function U16In(s: Text, end: Ending): Parse<u16> {
    var (b, rest) :- Take(s, 2, end);
    Widths();
    Got(FromLittleEndian(b), rest)
  }

  function U32In(s: Text, end: Ending): Parse<u32> {
    var (b, rest) :- Take(s, 4, end);
    Widths();
    Got(FromLittleEndian(b), rest)
  }

  function U64In(s: Text, end: Ending): Parse<u64> {
    var (b, rest) :- Take(s, 8, end);
    Widths();
    Got(FromLittleEndian(b), rest)
  }

  function Str8In(s: Text, end: Ending): Parse<Text> {
    var (n, rest) :- U8In(s, end);
    Take(rest, n, end)
  }

  function Str16In(s: Text, end: Ending): Parse<Text> {
    var (n, rest) :- U16In(s, end);
    Take(rest, n, end)
  }

  function Name8In(s: Text, end: Ending): Parse<Text> {
    var (name, rest) :- Str8In(s, end);
    if Utf8(name) then Got(name, rest) else Bad(NotUtf8)
  }

  function Text16In(s: Text, end: Ending): Parse<Text> {
    var (text, rest) :- Str16In(s, end);
    if Utf8(text) then Got(text, rest) else Bad(NotUtf8)
  }

  function JobIn(s: Text, end: Ending): Parse<u64> {
    var (id, rest) :- U64In(s, end);
    if id == 0 then Bad(JobZero) else Got(id, rest)
  }

  function SlotsIn(s: Text, end: Ending): Parse<u16> {
    var (n, rest) :- U16In(s, end);
    if n < 1 then Bad(NoSlots) else Got(n, rest)
  }

  function StatusIn(s: Text, end: Ending): Parse<u16> {
    var (n, rest) :- U16In(s, end);
    if n < MIN_STATUS || n > MAX_STATUS then Bad(BadStatus) else Got(n, rest)
  }

  function ChunkIn(s: Text, end: Ending): Parse<Text> {
    var (n, rest) :- U32In(s, end);
    if n < 1 then Bad(EmptyChunk) else Take(rest, n, end)
  }

  function HeaderIn(s: Text, end: Ending): Parse<Header> {
    var (name, s1) :- Str8In(s, end);
    var (value, s2) :- Str16In(s1, end);
    Got(Header(name, value), s2)
  }

  function HeaderSeqIn(count: nat, s: Text, end: Ending): (p: Parse<seq<Header>>)
    ensures p.Got? ==> |p.value| == count
  {
    if count == 0 then Got([], s) else
      var (h, s1) :- HeaderIn(s, end);
      var (hs, s2) :- HeaderSeqIn(count - 1, s1, end);
      Got([h] + hs, s2)
  }

  function HeadersIn(s: Text, end: Ending): Parse<seq<Header>> {
    var (count, rest) :- U16In(s, end);
    HeaderSeqIn(count, rest, end)
  }

  function ProviderIn(s: Text, end: Ending): Parse<ProviderInfo> {
    var (service, s1) :- Name8In(s, end);
    var (slots, s2) :- SlotsIn(s1, end);
    var (priority, s3) :- U16In(s2, end);
    Got(ProviderInfo(service, slots, priority), s3)
  }

  function ProviderSeqIn(count: nat, s: Text, end: Ending): (p: Parse<seq<ProviderInfo>>)
    ensures p.Got? ==> |p.value| == count
  {
    if count == 0 then Got([], s) else
      var (info, s1) :- ProviderIn(s, end);
      var (infos, s2) :- ProviderSeqIn(count - 1, s1, end);
      Got([info] + infos, s2)
  }

  // ---------- messages ----------

  function HelloIn(s: Text, end: Ending): (p: Parse<Message>)
    ensures p.Got? ==> p.value.Hello?
  {
    var (name, s1) :- Name8In(s, end);
    var (count, s2) :- U8In(s1, end);
    var (providers, s3) :- ProviderSeqIn(count, s2, end);
    Got(Hello(name, providers), s3)
  }

  function RequestIn(s: Text, end: Ending): (p: Parse<Message>)
    ensures p.Got? ==> p.value.Request?
  {
    var (job, s1) :- JobIn(s, end);
    var (service, s2) :- Name8In(s1, end);
    var (verb, s3) :- Str8In(s2, end);
    var (target, s4) :- Str16In(s3, end);
    var (headers, s5) :- HeadersIn(s4, end);
    Got(Request(job, service, verb, target, headers), s5)
  }

  function ResponseIn(s: Text, end: Ending): (p: Parse<Message>)
    ensures p.Got? ==> p.value.Response?
  {
    var (job, s1) :- JobIn(s, end);
    var (status, s2) :- StatusIn(s1, end);
    var (headers, s3) :- HeadersIn(s2, end);
    Got(Response(job, status, headers), s3)
  }

  function BodyIn(s: Text, end: Ending): (p: Parse<Message>)
    ensures p.Got? ==> p.value.Body?
  {
    var (job, s1) :- JobIn(s, end);
    var (bytes, s2) :- ChunkIn(s1, end);
    Got(Body(job, bytes), s2)
  }

  function EndIn(s: Text, end: Ending): (p: Parse<Message>)
    ensures p.Got? ==> p.value.End?
  {
    var (job, s1) :- JobIn(s, end);
    var (trailers, s2) :- HeadersIn(s1, end);
    Got(End(job, trailers), s2)
  }

  function CancelIn(s: Text, end: Ending): (p: Parse<Message>)
    ensures p.Got? ==> p.value.Cancel?
  {
    var (job, s1) :- JobIn(s, end);
    Got(Cancel(job), s1)
  }

  function FailIn(s: Text, end: Ending): (p: Parse<Message>)
    ensures p.Got? ==> p.value.Fail?
  {
    var (job, s1) :- JobIn(s, end);
    var (reason, s2) :- Text16In(s1, end);
    Got(Fail(job, reason), s2)
  }

  /** The fields of one kind, the kind octet already consumed. */
  function FieldsIn(kind: byte, s: Text, end: Ending): Parse<Message> {
    if kind == HELLO then HelloIn(s, end)
    else if kind == PING then Got(Ping, s)
    else if kind == PONG then Got(Pong, s)
    else if kind == REQUEST then RequestIn(s, end)
    else if kind == RESPONSE then ResponseIn(s, end)
    else if kind == BODY then BodyIn(s, end)
    else if kind == END then EndIn(s, end)
    else if kind == CANCEL then CancelIn(s, end)
    else if kind == FAIL then FailIn(s, end)
    else Bad(UnknownKind)
  }

  /** The HELLO rules stand in front of the fields. */
  function MessageIn(role: Role, gotHello: bool, kind: byte, s: Text, end: Ending): Parse<Message> {
    if role == Server && !gotHello && kind != HELLO then Bad(BeforeHello)
    else if kind == HELLO && role == Client then Bad(ServerHello)
    else if kind == HELLO && gotHello then Bad(HelloTwice)
    else FieldsIn(kind, s, end)
  }

  /** What one call of the decoder comes to. */
  datatype Step = Yield(m: Message, rest: Text) | CleanEnd | Refused(why: Refusal)

  /** One message off the stream s of a decoder that has refused nothing yet. */
  function StepIn(role: Role, gotHello: bool, s: Text, end: Ending): Step {
    if s == [] then (if end.Eof? then CleanEnd else Refused(TransportFailed))
    else
      match MessageIn(role, gotHello, s[0], s[1..], end)
      case Got(m, rest) => Yield(m, rest)
      case Bad(why) => Refused(why)
  }

  // ---------- the decoder ----------

  /** A read from (err0, in0) that should have come out as p did come out as v, leaving (err1, in1). */
  ghost predicate Reads<T>(err0: Option<Refusal>, p: Parse<T>, v: T, err1: Option<Refusal>, in1: Text) {
    if err0.Some? then err1 == err0
    else if p.Got? then err1.None? && v == p.value && in1 == p.rest
    else err1 == Some(p.why)
  }

  class Decoder {
    const role: Role
    const ending: Ending
    /** What the transport has yet to hand over. */
    var input: Text
    var gotHello: bool
    var err: Option<Refusal>

    constructor (role: Role, input: Text, ending: Ending)
      ensures this.role == role && this.input == input && this.ending == ending && !gotHello && err.None?
    {
      this.role, this.input, this.ending := role, input, ending;
      gotHello, err := false, None;
    }

    method Refuse(why: Refusal)
      modifies this`err
      ensures err == if old(err).Some? then old(err) else Some(why)
    {
      if err.None? {
        err := Some(why);
      }
    }

    /** Consumes exactly n octets. */
    method ReadOctets(n: nat) returns (b: Text)
      modifies this`err, this`input
      ensures Reads(old(err), Take(old(input), n, ending), b, err, input)
    {
      b := [];
      if err.Some? {
        return;
      }
      if n > |input| {
        err, input := Some(Short(ending)), [];
        return;
      }
      b, input := input[..n], input[n..];
    }

    method U8() returns (v: byte)
      modifies this`err, this`input
      ensures Reads(old(err), U8In(old(input), ending), v, err, input)
    {
      v := 0;
      var b := ReadOctets(1);
      if err.None? {
        Widths();
        v := FromLittleEndian(b);
      }
    }

    method U16() returns (v: u16)
      modifies this`err, this`input
      ensures Reads(old(err), U16In(old(input), ending), v, err, input)
    {
      v := 0;
      var b := ReadOctets(2);
      if err.None? {
        Widths();
        v := FromLittleEndian(b);
      }
    }

    method U32() returns (v: u32)
      modifies this`err, this`input
      ensures Reads(old(err), U32In(old(input), ending), v, err, input)
    {
      v := 0;
      var b := ReadOctets(4);
      if err.None? {
        Widths();
        v := FromLittleEndian(b);
      }
    }

    method U64() returns (v: u64)
      modifies this`err, this`input
      ensures Reads(old(err), U64In(old(input), ending), v, err, input)
    {
      v := 0;
      var b := ReadOctets(8);
      if err.None? {
        Widths();
        v := FromLittleEndian(b);
      }
    }

    /** A counted run of octets; a count of zero reads nothing at all. */
    method Octets(n: nat) returns (b: Text)
      modifies this`err, this`input
      ensures Reads(old(err), Take(old(input), n, ending), b, err, input)
    {
      b := [];
      if err.Some? || n == 0 {
        return;
      }
      b := ReadOctets(n);
    }

    method Str8() returns (s: Text)
      modifies this`err, this`input
      ensures Reads(old(err), Str8In(old(input), ending), s, err, input)
    {
      var n := U8();
      s := Octets(n);
    }

    method Str16() returns (s: Text)
      modifies this`err, this`input
      ensures Reads(old(err), Str16In(old(input), ending), s, err, input)
    {
      var n := U16();
      s := Octets(n);
    }

    method Name8() returns (s: Text)
      modifies this`err, this`input
      ensures Reads(old(err), Name8In(old(input), ending), s, err, input)
    {
      s := Str8();
      if err.None? && !Utf8(s) {
        Refuse(NotUtf8);
        s := [];
      }
    }

    method Text16() returns (s: Text)
      modifies this`err, this`input
      ensures Reads(old(err), Text16In(old(input), ending), s, err, input)
    {
      s := Str16();
      if err.None? && !Utf8(s) {
        Refuse(NotUtf8);
        s := [];
      }
    }

    method Job() returns (id: u64)
      modifies this`err, this`input
      ensures Reads(old(err), JobIn(old(input), ending), id, err, input)
    {
      id := U64();
      if err.None? && id == 0 {
        Refuse(JobZero);
      }
    }

    method Slots() returns (n: u16)
      modifies this`err, this`input
      ensures Reads(old(err), SlotsIn(old(input), ending), n, err, input)
    {
      n := U16();
      if err.None? && n < 1 {
        Refuse(NoSlots);
      }
    }

    method Status() returns (n: u16)
      modifies this`err, this`input
      ensures Reads(old(err), StatusIn(old(input), ending), n, err, input)
    {
      n := U16();
      if err.None? && (n < MIN_STATUS || n > MAX_STATUS) {
        Refuse(BadStatus);
        n := 0;
      }
    }

    method Chunk() returns (b: Text)
      modifies this`err, this`input
      ensures Reads(old(err), ChunkIn(old(input), ending), b, err, input)
    {
      b := [];
      var n := U32();
      if err.Some? {
        return;
      }
      if n < 1 {
        Refuse(EmptyChunk);
        return;
      }
      b := Octets(n);
    }

    method Headers() returns (hs: seq<Header>)
      modifies this`err, this`input
      ensures Reads(old(err), HeadersIn(old(input), ending), hs, err, input)
    {
      hide U16In, Str8In, Str16In;
      hs := [];
      var count := U16();
      if err.Some? || count == 0 {
        return;
      }
      ghost var whole := HeaderSeqIn(count, input, ending);
      RejoinedNothing(whole);
      for i := 0 to count
        invariant err.None? && |hs| == i
        invariant Rejoined(hs, HeaderSeqIn(count - i, input, ending)) == whole
      {
        ghost var start := input;
        var name := Str8();
        var value := Str16();
        if err.Some? {
          return;
        }
        assert HeaderIn(start, ending) == Got(Header(name, value), input);
        RejoinedStep(hs, Header(name, value), HeaderSeqIn(count - i - 1, input, ending));
        hs := hs + [Header(name, value)];
      }
      assert hs + [] == hs;
    }

    method Providers(count: nat) returns (ps: seq<ProviderInfo>)
      modifies this`err, this`input
      ensures Reads(old(err), ProviderSeqIn(count, old(input), ending), ps, err, input)
    {
      hide Name8In, SlotsIn, U16In;
      ps := [];
      if err.Some? {
        return;
      }
      ghost var whole := ProviderSeqIn(count, input, ending);
      RejoinedNothing(whole);
      for i := 0 to count
        invariant err.None? && |ps| == i
        invariant Rejoined(ps, ProviderSeqIn(count - i, input, ending)) == whole
      {
        ghost var start := input;
        var service := Name8();
        var slots := Slots();
        var priority := U16();
        if err.Some? {
          return;
        }
        assert ProviderIn(start, ending) == Got(ProviderInfo(service, slots, priority), input);
        RejoinedStep(ps, ProviderInfo(service, slots, priority), ProviderSeqIn(count - i - 1, input, ending));
        ps := ps + [ProviderInfo(service, slots, priority)];
      }
      assert ps + [] == ps;
    }

    method HelloFields() returns (m: Message)
      requires err.None?
      modifies this
      ensures var p := MessageIn(role, old(gotHello), HELLO, old(input), ending);
              Reads(None, p, m, err, input) && gotHello == (old(gotHello) || p.Got?)
    {
      hide Name8In, U8In, ProviderSeqIn;
      m := Ping;
      if role == Client {
        Refuse(ServerHello);
        return;
      }
      if gotHello {
        Refuse(HelloTwice);
        return;
      }
      var name := Name8();
      var count := U8();
      if err.Some? {
        return;
      }
      var providers := Providers(count);
      if err.Some? {
        return;
      }
      gotHello := true;
      m := Hello(name, providers);
    }

    /** The fields of one kind, the kind octet already consumed. */
    method ReadMessage(kind: byte) returns (m: Message, refused: Option<Refusal>)
      requires err.None?
      modifies this
      ensures var p := MessageIn(role, old(gotHello), kind, old(input), ending);
              && Reads(None, p, m, refused, input)
              && (err.Some? ==> refused == err)
              && gotHello == (old(gotHello) || (p.Got? && p.value.Hello?))
    {
      hide HelloIn, JobIn, Name8In, Str8In, Str16In, Text16In, HeadersIn, StatusIn, ChunkIn;
      m := Ping;
      if role == Server && !gotHello && kind != HELLO {
        return m, Some(BeforeHello);
      }
      if kind == HELLO {
        m := HelloFields();
      } else if kind == PING {
        m := Ping;
      } else if kind == PONG {
        m := Pong;
      } else if kind == REQUEST {
        var job := Job();
        var service := Name8();
        var verb := Str8();
        var target := Str16();
        var headers := Headers();
        m := Request(job, service, verb, target, headers);
      } else if kind == RESPONSE {
        var job := Job();
        var status := Status();
        var headers := Headers();
        m := Response(job, status, headers);
      } else if kind == BODY {
        var job := Job();
        var bytes := Chunk();
        m := Body(job, bytes);
      } else if kind == END {
        var job := Job();
        var trailers := Headers();
        m := End(job, trailers);
      } else if kind == CANCEL {
        var job := Job();
        m := Cancel(job);
      } else if kind == FAIL {
        var job := Job();
        var reason := Text16();
        m := Fail(job, reason);
      } else {
        return m, Some(UnknownKind);
      }
      return m, err;
    }

    /** The next message. Everything but a clean end between messages is final. */
    method Next() returns (step: Step)
      modifies this
      ensures old(err).Some? ==> step == Refused(old(err).value) && err == old(err) && gotHello == old(gotHello)
      ensures old(err).None? ==>
                && step == StepIn(role, old(gotHello), old(input), ending)
                && err == (if step.Refused? then Some(step.why) else None)
                && (!step.Refused? ==> input == if step.Yield? then step.rest else old(input))
                && gotHello == (old(gotHello) || (step.Yield? && step.m.Hello?))
    {
      if err.Some? {
        return Refused(err.value);
      }
      if input == [] {
        if ending.Broken? {
          err := Some(TransportFailed);
          return Refused(TransportFailed);
        }
        return CleanEnd;
      }
      var kind := input[0];
      input := input[1..];
      var m, refused := ReadMessage(kind);
      if refused.Some? {
        err := refused;
        return Refused(refused.value);
      }
      return Yield(m, input);
    }
  }

  /** What a loop has collected so far, put in front of what the rest of it will. */
  ghost function Rejoined<T>(front: seq<T>, tail: Parse<seq<T>>): Parse<seq<T>> {
    if tail.Bad? then tail else Got(front + tail.value, tail.rest)
  }

  lemma RejoinedStep<T>(front: seq<T>, x: T, tail: Parse<seq<T>>)
    ensures Rejoined(front + [x], tail) == Rejoined(front, Rejoined([x], tail))
  {
    if tail.Got? {
      assert front + [x] + tail.value == front + ([x] + tail.value);
    }
  }

  lemma RejoinedNothing<T>(p: Parse<seq<T>>)
    ensures Rejoined([], p) == p
  {
    if p.Got? {
      assert [] + p.value == p.value;
    }
  }
}
