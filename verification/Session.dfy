/** Whole sessions: which message sequences an encoder lets out, and what a decoder makes of the stream. */
module Session {
  import opened Wire
  import opened Encode
  import opened Decode
  import opened CodecLaws

  function Opposite(role: Role): Role {
    if role == Client then Server else Client
  }

  /** What an encoder that writes ms one after another puts out, or its first refusal. */
  function StreamOut(role: Role, sentHello: bool, ms: seq<Message>): Encoded
    decreases |ms|
  {
    if ms == [] then Bytes([])
    else Cat(StepOut(role, sentHello, ms[0]), StreamOut(role, sentHello || ms[0].Hello?, ms[1..]))
  }

  /** What a decoder yields until it stops, and the refusal it stops with; None is a clean end. */
  datatype Heard = Heard(messages: seq<Message>, stop: Option<Refusal>)

  function StreamIn(role: Role, gotHello: bool, s: Text, end: Ending): Heard
    decreases |s|
  {
    match StepIn(role, gotHello, s, end)
    case CleanEnd => Heard([], None)
    case Refused(why) => Heard([], Some(why))
    case Yield(m, rest) =>
      StepConsumes(role, gotHello, s, end);
      var later := StreamIn(role, gotHello || m.Hello?, rest, end);
      Heard([m] + later.messages, later.stop)
  }

  /** A decoder step is the codec's own reading behind the HELLO rules. */
  lemma StepConsumes(role: Role, gotHello: bool, s: Text, end: Ending)
    requires StepIn(role, gotHello, s, end).Yield?
    ensures var step := StepIn(role, gotHello, s, end);
            && |step.rest| < |s|
            && Encodable(step.m) && MessageOut(step.m).Bytes? && s == MessageOut(step.m).b + step.rest
            && StepOut(Opposite(role), gotHello, step.m) == MessageOut(step.m)
  {
    hide FieldsIn, FieldsOut;
    assert MessageOff(s, end).Got?;
    Canonical(s, end);
    FieldsCanonical(s[0], s[1..], end);
  }

  /** What one end's encoder lets out is what the other end's decoder lets in, cut or whole. */
  lemma StepInverts(role: Role, flag: bool, m: Message, s: Text, end: Ending)
    requires StepOut(role, flag, m).Bytes?
    ensures Encodable(m) && MessageOut(m) == StepOut(role, flag, m)
    ensures MessageOut(m).b <= s ==> StepIn(Opposite(role), flag, s, end) == Yield(m, s[|MessageOut(m).b|..])
    ensures s < MessageOut(m).b && s != [] ==> StepIn(Opposite(role), flag, s, end) == Step.Refused(Short(end))
  {
    hide FieldsIn, FieldsOut;
    EncodesExactlyEncodable(m);
    MessageInverts(m, s, end);
    if s != [] && (MessageOut(m).b <= s || s < MessageOut(m).b) {
      assert s[0] == MessageOut(m).b[0] == Kind(m);
      assert MessageIn(Opposite(role), flag, s[0], s[1..], end) == MessageOff(s, end);
    }
  }

  /** A stream cut anywhere yields the messages that came whole and stops at the cut; the whole stream yields
      them all and ends cleanly. */
  lemma {:induction false} StreamCut(role: Role, flag: bool, ms: seq<Message>, s: Text, end: Ending)
    requires StreamOut(role, flag, ms).Bytes? && s <= StreamOut(role, flag, ms).b
    ensures var heard := StreamIn(Opposite(role), flag, s, end);
            && heard.messages <= ms
            && (heard.stop == None || heard.stop == Some(Short(end)))
            && (s == StreamOut(role, flag, ms).b ==> heard.messages == ms && (end.Eof? ==> heard.stop == None))
    decreases |ms|
  {
    hide MessageOut, FieldsIn;
    if ms != [] {
      var m, later := ms[0], flag || ms[0].Hello?;
      var first, others := StepOut(role, flag, m).b, StreamOut(role, later, ms[1..]).b;
      StepInverts(role, flag, m, s, end);
      Chain(first, others, s);
      if first <= s {
        StreamCut(role, later, ms[1..], s[|first|..], end);
        assert (first + others)[|first|..] == others;
        assert [m] + ms[1..] == ms;
      }
    }
  }

  /** A stream that ends cleanly is the one encoding of what it yields, and the other end may send exactly that. */
  lemma {:induction false} StreamCanonical(role: Role, flag: bool, s: Text)
    requires StreamIn(Opposite(role), flag, s, Eof).stop == None
    ensures StreamOut(role, flag, StreamIn(Opposite(role), flag, s, Eof).messages) == Bytes(s)
    decreases |s|
  {
    var step := StepIn(Opposite(role), flag, s, Eof);
    if step.Yield? {
      StepConsumes(Opposite(role), flag, s, Eof);
      var later := flag || step.m.Hello?;
      StreamCanonical(role, later, step.rest);
      var tail := StreamIn(Opposite(role), later, step.rest, Eof).messages;
      assert ([step.m] + tail)[1..] == tail;
      assert Opposite(Opposite(role)) == role;
    }
  }

  // ---------- which sessions those are ----------

  /** HELLO first and only first. */
  ghost predicate ClientSession(ms: seq<Message>, sentHello: bool) {
    forall i :: 0 <= i < |ms| ==> Encodable(ms[i]) && (ms[i].Hello? <==> i == 0 && !sentHello)
  }

  /** No HELLO at all. */
  ghost predicate ServerSession(ms: seq<Message>) {
    forall i :: 0 <= i < |ms| ==> Encodable(ms[i]) && !ms[i].Hello?
  }

  lemma {:induction false} ClientSends(ms: seq<Message>, sentHello: bool)
    ensures StreamOut(Client, sentHello, ms).Bytes? <==> ClientSession(ms, sentHello)
  {
    if ms != [] {
      hide MessageOut, StreamOut;
      EncodesExactlyEncodable(ms[0]);
      ClientSends(ms[1..], sentHello || ms[0].Hello?);
      StreamOutGrows(Client, sentHello, ms);
      var fits := Encodable(ms[0]) && (ms[0].Hello? <==> !sentHello);
      if fits && ClientSession(ms[1..], true) {
        forall i | 0 <= i < |ms| ensures Encodable(ms[i]) && (ms[i].Hello? <==> i == 0 && !sentHello) {
          if i > 0 {
            assert ms[i] == ms[1..][i - 1];
          }
        }
      }
      if ClientSession(ms, sentHello) {
        forall i | 0 <= i < |ms[1..]| ensures Encodable(ms[1..][i]) && !ms[1..][i].Hello? {
          assert ms[1..][i] == ms[i + 1];
        }
      }
    }
  }

  lemma StreamOutGrows(role: Role, flag: bool, ms: seq<Message>)
    requires ms != []
    ensures StreamOut(role, flag, ms).Bytes? <==>
              StepOut(role, flag, ms[0]).Bytes? && StreamOut(role, flag || ms[0].Hello?, ms[1..]).Bytes?
  {
  }

  lemma {:induction false} ServerSends(ms: seq<Message>, flag: bool)
    ensures StreamOut(Server, flag, ms).Bytes? <==> ServerSession(ms)
  {
    if ms != [] {
      hide MessageOut, StreamOut;
      EncodesExactlyEncodable(ms[0]);
      ServerSends(ms[1..], flag || ms[0].Hello?);
      StreamOutGrows(Server, flag, ms);
      if Encodable(ms[0]) && !ms[0].Hello? && ServerSession(ms[1..]) {
        forall i | 0 <= i < |ms| ensures Encodable(ms[i]) && !ms[i].Hello? {
          if i > 0 {
            assert ms[i] == ms[1..][i - 1];
          }
        }
      }
      if ServerSession(ms) {
        forall i | 0 <= i < |ms[1..]| ensures Encodable(ms[1..][i]) && !ms[1..][i].Hello? {
          assert ms[1..][i] == ms[i + 1];
        }
      }
    }
  }

  /** Both directions of a session at once: a sequence goes out of one end if and only if it comes out of some
      cleanly ended stream at the other, and the sequences are those with HELLO where it belongs. */
  lemma SessionsAgree(role: Role, ms: seq<Message>)
    ensures StreamOut(role, false, ms).Bytes?
            <==> exists s :: StreamIn(Opposite(role), false, s, Eof) == Heard(ms, None)
    ensures StreamOut(role, false, ms).Bytes?
            <==> if role == Client then ClientSession(ms, false) else ServerSession(ms)
  {
    if role == Client {
      ClientSends(ms, false);
    } else {
      ServerSends(ms, false);
    }
    if StreamOut(role, false, ms).Bytes? {
      var s := StreamOut(role, false, ms).b;
      StreamCut(role, false, ms, s, Eof);
      assert StreamIn(Opposite(role), false, s, Eof) == Heard(ms, None);
    }
    forall s | StreamIn(Opposite(role), false, s, Eof) == Heard(ms, None)
      ensures StreamOut(role, false, ms).Bytes?
    {
      StreamCanonical(role, false, s);
    }
  }
}
