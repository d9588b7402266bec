/** Layers 0 to 3 together: the preamble and the framed handshake that set a session up, and what a session set up
    so carries from one end's encoder to the other end's decoder. */
module Channel {
  import opened Wire
  import opened Symbolic
  import opened Records
  import N = Noise
  import E = Encode
  import D = Decode
  import S = Session

  /** "HPOL" and the one version there is; the same octets are the Noise prologue. */
  const MAGIC: Text := [0x48, 0x50, 0x4F, 0x4C]
  const VERSION_NEWEST: byte := 0
  const PREAMBLE: Text := [0x48, 0x50, 0x4F, 0x4C, 0]

  datatype SetupError = NotPeer | VersionMismatch(theirs: byte) | CutShort | TooSmall | Rejected | CannotWrite

  datatype Outcome<+T> = Ok(value: T) | Err(error: SetupError) {
    predicate IsFailure() { Err? }
    function PropagateFailure<U>(): Outcome<U> requires Err? { Err(error) }
    function Extract(): T requires Ok? { value }
  }

  // ---------- frames ----------

  /** The cells behind the peer's preamble, when it is a peer and speaks this version. */
  function ReadVersion(view: Cell -> byte, input: seq<Cell>): Outcome<seq<Cell>> {
    if |input| < 5 then Err(CutShort)
    else if exists i :: 0 <= i < 4 && view(input[i]) != MAGIC[i] then Err(NotPeer)
    else if view(input[4]) != VERSION_NEWEST then Err(VersionMismatch(view(input[4])))
    else Ok(input[5..])
  }

  function Frame(message: seq<Cell>): seq<Cell> {
    LengthHeader(|message|) + message
  }

  /** One framed handshake message and the cells behind it. */
  function ReadFramed(view: Cell -> byte, input: seq<Cell>): (r: Outcome<(seq<Cell>, seq<Cell>)>)
    ensures r.Ok? ==> |r.value.0| >= N.HANDSHAKE_MESSAGE_SIZE
  {
    if |input| < 2 then Err(CutShort)
    else
      var size := SizeOf(view, input[..2]);
      if size < N.HANDSHAKE_MESSAGE_SIZE then Err(TooSmall)
      else if |input| - 2 < size then Err(CutShort)
      else Ok((input[2..][..size], input[2..][size..]))
  }

  /** A peer is whoever says "HPOL", and one of this version adds 0. */
  lemma VersionExactly(view: Cell -> byte, input: seq<Cell>)
    ensures var hpol := |input| >= 5 && view(input[0]) == 'H' as int && view(input[1]) == 'P' as int
                          && view(input[2]) == 'O' as int && view(input[3]) == 'L' as int;
            ReadVersion(view, input) ==
              if |input| < 5 then Err(CutShort)
              else if !hpol then Err(NotPeer)
              else if view(input[4]) != 0 then Err(VersionMismatch(view(input[4])))
              else Ok(input[5..])
  {
    if |input| >= 5 {
      assert MAGIC[0] == 'H' as int && MAGIC[1] == 'P' as int && MAGIC[2] == 'O' as int && MAGIC[3] == 'L' as int;
    }
  }

  /** A handshake message has at least 48 octets, and is as long as the two in front of it say. */
  lemma FramedExactly(view: Cell -> byte, input: seq<Cell>)
    ensures var size: int := if |input| >= 2 then view(input[0]) + 0x100 * view(input[1]) as int else 0;
            ReadFramed(view, input) ==
              if |input| < 2 then Err(CutShort)
              else if size < 48 then Err(TooSmall)
              else if |input| < 2 + size then Err(CutShort)
              else Ok((input[2..2 + size], input[2 + size..]))
  {
    hide SizeOf;
    if |input| >= 2 {
      SizeIs(view, input[..2]);
      var size: int := SizeOf(view, input[..2]);
      if |input| >= 2 + size {
        assert input[2..][..size] == input[2..2 + size] && input[2..][size..] == input[2 + size..];
      }
    }
  }

  lemma PreambleReads(view: Cell -> byte, rest: seq<Cell>)
    requires Faithful(view)
    ensures ReadVersion(view, ClearAll(PREAMBLE) + rest) == Ok(rest)
  {
    var input := ClearAll(PREAMBLE) + rest;
    assert forall i :: 0 <= i < 5 ==> input[i] == Clear(PREAMBLE[i]);
    assert input[5..] == rest;
  }

  lemma FrameReads(view: Cell -> byte, message: seq<Cell>, rest: seq<Cell>)
    requires Faithful(view) && N.HANDSHAKE_MESSAGE_SIZE <= |message| <= MAX_MESSAGE_SIZE
    ensures ReadFramed(view, Frame(message) + rest) == Ok((message, rest))
  {
    var input := Frame(message) + rest;
    assert input[..2] == LengthHeader(|message|);
    HeaderReads(view, |message|);
    assert input[2..][..|message|] == message && input[2..][|message|..] == rest;
  }

  // ---------- setting a session up ----------

  /** A session: the keys to send and receive with, and the cells that already belong to the records. */
  datatype Keys = Keys(send: Term, receive: Term, rest: seq<Cell>)

  function First(psk: Text, secret: nat): (r: (N.Side, seq<Cell>))
    requires |psk| == KEY_SIZE
    ensures r.0.Valid() && r.0.Listens() && r.0.initiator && |r.1| == N.HANDSHAKE_MESSAGE_SIZE
  {
    N.ReadInvertsWrite(N.Start(true, psk, PREAMBLE), N.Start(false, psk, PREAMBLE), [], secret);
    N.WriteStep(N.Start(true, psk, PREAMBLE), [], Some(secret)).value
  }

  /** What the initiator sends at once, without waiting. */
  function Opening(psk: Text, secret: nat): seq<Cell>
    requires |psk| == KEY_SIZE
  {
    ClearAll(PREAMBLE) + Frame(First(psk, secret).1)
  }

  function Initiate(view: Cell -> byte, psk: Text, secret: nat, input: seq<Cell>): Outcome<Keys>
    requires |psk| == KEY_SIZE
  {
    var framed :- ReadVersion(view, input);
    var (answer, rest) :- ReadFramed(view, framed);
    match N.ReadStep(First(psk, secret).0, answer)
    case None => Err(Rejected)
    case Some(done) => Ok(Keys(N.SplitKeys(done.0).0, N.SplitKeys(done.0).1, rest))
  }

  /** The responder's answer, behind its own preamble, and its session. */
  function Respond(view: Cell -> byte, psk: Text, secret: nat, input: seq<Cell>): Outcome<(seq<Cell>, Keys)>
    requires |psk| == KEY_SIZE
  {
    var framed :- ReadVersion(view, input);
    var (message, rest) :- ReadFramed(view, framed);
    match N.ReadStep(N.Start(false, psk, PREAMBLE), message)
    case None => Err(Rejected)
    case Some(heard) =>
      match N.WriteStep(heard.0, [], Some(secret))
      case None => Err(Rejected)
      case Some(done) =>
        var keys := N.SplitKeys(done.0);
        Ok((ClearAll(PREAMBLE) + Frame(done.1), Keys(keys.0, keys.1, rest)))
  }

  /** With one secret the whole setup is one round trip: both sides succeed with crossed keys, and neither takes a
      cell of the records that follow. */
  lemma HonestSetup(view: Cell -> byte, psk: Text, a: nat, b: nat, x: seq<Cell>, y: seq<Cell>)
    requires Faithful(view) && |psk| == KEY_SIZE
    ensures var responder := Respond(view, psk, b, Opening(psk, a) + x);
      responder.Ok? && responder.value.1.rest == x &&
      var initiator := Initiate(view, psk, a, responder.value.0 + y);
      initiator.Ok? && initiator.value.rest == y &&
      initiator.value.send == responder.value.1.receive && initiator.value.receive == responder.value.1.send
  {
    hide N.ReadStep, N.WriteStep, ReadVersion, ReadFramed, Frame;
    N.HonestAgreement(psk, PREAMBLE, a, b, [], []);
    var (i1, m1) := First(psk, a);
    var r1 := N.ReadStep(N.Start(false, psk, PREAMBLE), m1).value.0;
    StageAfterRead(N.Start(false, psk, PREAMBLE), m1);
    AnswerSize(r1, b);
    var m2 := N.WriteStep(r1, [], Some(b)).value.1;
    assert Opening(psk, a) + x == ClearAll(PREAMBLE) + (Frame(m1) + x);
    PreambleReads(view, Frame(m1) + x);
    FrameReads(view, m1, x);
    assert ClearAll(PREAMBLE) + Frame(m2) + y == ClearAll(PREAMBLE) + (Frame(m2) + y);
    PreambleReads(view, Frame(m2) + y);
    FrameReads(view, m2, y);
  }

  lemma AnswerSize(side: N.Side, secret: nat)
    requires side.Valid() && side.Speaks() && N.WriteStep(side, [], Some(secret)).Some?
    ensures |N.WriteStep(side, [], Some(secret)).value.1| == N.HANDSHAKE_MESSAGE_SIZE
  {
  }

  /** Whatever came over the network: an initiator whose answer carries a ciphertext of some responder's answer has
      that responder's secret, the responder was answering it, and their keys are crossed. */
  lemma SetupAgrees(view: Cell -> byte, psk: Text, a: nat, input: seq<Cell>,
                    view': Cell -> byte, psk': Text, b: nat, input': seq<Cell>)
    requires |psk| == |psk'| == KEY_SIZE
    requires Initiate(view, psk, a, input).Ok? && Respond(view', psk', b, input').Ok?
    requires input[5 + 2 + PUBLIC_KEY_SIZE] in Respond(view', psk', b, input').value.0
    requires input[5 + 2 + PUBLIC_KEY_SIZE].Sealed?
    ensures psk == psk'
    ensures Initiate(view, psk, a, input).value.send == Respond(view', psk', b, input').value.1.receive
    ensures Initiate(view, psk, a, input).value.receive == Respond(view', psk', b, input').value.1.send
  {
    hide N.ReadStep, N.WriteStep;
    var answer := ReadFramed(view, input[5..]).value.0;
    var received := ReadFramed(view', input'[5..]).value.0;
    var r1 := N.ReadStep(N.Start(false, psk', PREAMBLE), received).value.0;
    StageAfterRead(N.Start(false, psk', PREAMBLE), received);
    var m2 := N.WriteStep(r1, [], Some(b)).value.1;
    var c := input[5 + 2 + PUBLIC_KEY_SIZE];
    assert answer[PUBLIC_KEY_SIZE] == c;
    assert c !in ClearAll(PREAMBLE) && c !in LengthHeader(|m2|);
    assert c in m2;
    InitiatorFirst(psk, a);
    N.InitiatorAcceptsOnlyItsResponder(psk, PREAMBLE, a, [], answer, psk', PREAMBLE, received, b, []);
  }

  lemma InitiatorFirst(psk: Text, a: nat)
    requires |psk| == KEY_SIZE
    ensures N.WriteStep(N.Start(true, psk, PREAMBLE), [], Some(a)) == Some(First(psk, a))
  {
    N.ReadInvertsWrite(N.Start(true, psk, PREAMBLE), N.Start(false, psk, PREAMBLE), [], a);
  }

  // ---------- the setup as it runs ----------

  /** The preamble and the handshake on a transport. random is where the ephemeral comes from. */
  method Setup(w: Transport, input: seq<Cell>, view: Cell -> byte, psk: Text, initiator: bool, random: nat)
      returns (session: Outcome<Keys>)
    modifies w
    ensures |psk| != 32 ==> session.Err? && w.taken == old(w.taken)
    ensures |psk| == 32 && initiator ==>
              var opening := Opening(psk, random);
              if |opening| <= old(w.room) then
                session == Initiate(view, psk, random, input) && w.taken == old(w.taken) + opening
              else session == Err(CannotWrite)
    ensures |psk| == 32 && !initiator ==>
              var r := Respond(view, psk, random, input);
              if r.Err? then session == Err(r.error) && w.taken == old(w.taken)
              else if |r.value.0| <= old(w.room) then session == Ok(r.value.1) && w.taken == old(w.taken) + r.value.0
              else session == Err(CannotWrite)
  {
    var hs := N.Handshake.New(initiator, psk, PREAMBLE);
    if hs == null {
      return Err(Rejected);
    }
    if initiator {
      session := SetupInitiator(w, input, view, psk, random, hs);
    } else {
      session := SetupResponder(w, input, view, psk, random, hs);
    }
  }

  /** The initiator's half, on a fresh handshake. */
  method SetupInitiator(w: Transport, input: seq<Cell>, view: Cell -> byte, psk: Text, random: nat, hs: N.Handshake)
      returns (session: Outcome<Keys>)
    requires |psk| == KEY_SIZE && hs.Valid() && !hs.failed && hs.Value() == N.Start(true, psk, PREAMBLE)
    modifies w, hs, hs.sym, hs.sym.cipher
    ensures var opening := Opening(psk, random);
            if |opening| <= old(w.room) then
              session == Initiate(view, psk, random, input) && w.taken == old(w.taken) + opening
            else session == Err(CannotWrite)
  {
    hide N.ReadStep, N.WriteStep;
    InitiatorFirst(psk, random);
    var message, refused := hs.WriteMessage([], Some(random));
    var ok := w.Write(ClearAll(PREAMBLE) + Frame(message));
    if !ok {
      return Err(CannotWrite);
    }
    var version := ReadVersion(view, input);
    if version.Err? {
      return Err(version.error);
    }
    var framed := ReadFramed(view, version.value);
    if framed.Err? {
      return Err(framed.error);
    }
    var _, denied := hs.ReadMessage(framed.value.0);
    if denied.Some? {
      return Err(Rejected);
    }
    StageAfterRead(First(psk, random).0, framed.value.0);
    var send, receive, err := hs.Split();
    return Ok(Keys(send.key, receive.key, framed.value.1));
  }

  /** The responder's half. */
  method SetupResponder(w: Transport, input: seq<Cell>, view: Cell -> byte, psk: Text, random: nat, hs: N.Handshake)
      returns (session: Outcome<Keys>)
    requires |psk| == KEY_SIZE && hs.Valid() && !hs.failed && hs.Value() == N.Start(false, psk, PREAMBLE)
    modifies w, hs, hs.sym, hs.sym.cipher
    ensures var r := Respond(view, psk, random, input);
            if r.Err? then session == Err(r.error) && w.taken == old(w.taken)
            else if |r.value.0| <= old(w.room) then session == Ok(r.value.1) && w.taken == old(w.taken) + r.value.0
            else session == Err(CannotWrite)
  {
    hide N.ReadStep, N.WriteStep;
    var side := N.Start(false, psk, PREAMBLE);
    var version := ReadVersion(view, input);
    if version.Err? {
      return Err(version.error);
    }
    var framed := ReadFramed(view, version.value);
    if framed.Err? {
      return Err(framed.error);
    }
    var _, refused := hs.ReadMessage(framed.value.0);
    if refused.Some? {
      return Err(Rejected);
    }
    StageAfterRead(side, framed.value.0);
    var answer, denied := hs.WriteMessage([], Some(random));
    if denied.Some? {
      return Err(Rejected);
    }
    StageAfterWrite(N.ReadStep(side, framed.value.0).value.0, random);
    var ok := w.Write(ClearAll(PREAMBLE) + Frame(answer));
    if !ok {
      return Err(CannotWrite);
    }
    var send, receive, err := hs.Split();
    return Ok(Keys(send.key, receive.key, framed.value.1));
  }

  lemma StageAfterRead(side: N.Side, message: seq<Cell>)
    requires side.Valid() && side.Listens() && |message| >= N.HANDSHAKE_MESSAGE_SIZE
    ensures var r := N.ReadStep(side, message);
            r.Some? ==>
              r.value.0.Valid() && r.value.0.stage == N.After(side.stage) && r.value.0.initiator == side.initiator
  {
  }

  lemma StageAfterWrite(side: N.Side, secret: nat)
    requires side.Valid() && side.Speaks()
    ensures var r := N.WriteStep(side, [], Some(secret));
            r.Some? ==> r.value.0.stage == N.After(side.stage) && r.value.0.initiator == side.initiator
  {
  }

  // ---------- messages over records ----------

  /** The plaintexts a record writer seals for the messages of one direction, each written whole. */
  function Plaintexts(ms: seq<Message>): seq<Text> {
    if ms == [] then []
    else (match E.MessageOut(ms[0]) case Bytes(b) => Chunks(b) case Refused(_) => []) + Plaintexts(ms[1..])
  }

  lemma {:induction false} PlaintextsConcat(role: Role, flag: bool, ms: seq<Message>)
    requires S.StreamOut(role, flag, ms).Bytes?
    ensures Concat(Plaintexts(ms)) == S.StreamOut(role, flag, ms).b
    decreases |ms|
  {
    hide E.FieldsOut, Chunks;
    if ms != [] {
      var first := E.MessageOut(ms[0]).b;
      PlaintextsConcat(role, flag || ms[0].Hello?, ms[1..]);
      ConcatSplit(Chunks(first), Plaintexts(ms[1..]));
      ChunksConcat(first);
    }
  }

  /** Whatever the network does to the records short of forging them, and however they are read, the messages that
      come out of the other end's decoder are the first of those that were sent. */
  lemma SessionUnderAttack(key: Term, view: Cell -> byte, role: Role, ms: seq<Message>,
                           net: seq<Cell>, sizes: seq<nat>, end: D.Ending)
    requires S.StreamOut(role, false, ms).Bytes?
    requires OnlyFrom(key, Plaintexts(ms), net)
    ensures S.StreamIn(S.Opposite(role), false, ReadAll(key, view, Reader(0, net, []), sizes), end).messages <= ms
  {
    PlaintextsConcat(role, false, ms);
    PrefixUnderAttack(key, view, Plaintexts(ms), net, sizes);
    S.StreamCut(role, false, ms, ReadAll(key, view, Reader(0, net, []), sizes), end);
  }

  /** Over an honest network they are all of them, and the session ends cleanly. */
  lemma SessionOverHonestNetwork(key: Term, view: Cell -> byte, role: Role, ms: seq<Message>, sizes: seq<nat>)
    requires Faithful(view) && S.StreamOut(role, false, ms).Bytes? && |Plaintexts(ms)| <= NONCE_RESERVED
    requires |sizes| >= |S.StreamOut(role, false, ms).b| && forall i :: 0 <= i < |sizes| ==> sizes[i] >= 1
    ensures var s := ReadAll(key, view, Reader(0, RecordsFrom(key, Plaintexts(ms), 0), []), sizes);
            S.StreamIn(S.Opposite(role), false, s, D.Eof) == S.Heard(ms, None)
  {
    PlaintextsConcat(role, false, ms);
    PlaintextsWritable(ms);
    AllOverHonestNetwork(key, view, Plaintexts(ms), sizes);
    S.StreamCut(role, false, ms, S.StreamOut(role, false, ms).b, D.Eof);
  }

  lemma {:induction false} PlaintextsWritable(ms: seq<Message>)
    ensures forall i :: 0 <= i < |Plaintexts(ms)| ==> 1 <= |Plaintexts(ms)[i]| <= MAX_PLAINTEXT_SIZE
  {
    hide Chunks;
    if ms != [] {
      var first := E.MessageOut(ms[0]);
      if first.Bytes? {
        ChunksArithmetic(first.b);
      }
      PlaintextsWritable(ms[1..]);
    }
  }
}
