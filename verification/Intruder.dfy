/** An active network without the pre-shared key: what it can build, and that a session set up through it is safe. */
module Intruder {
  import opened Wire
  import opened Symbolic
  import opened Records
  import opened Channel
  import N = Noise
  import D = Decode
  import S = Session

  // ---------- what can be built without the key ----------

  /** A term somebody can come to who hashes and derives whatever there is, with every Diffie-Hellman secret at hand,
      but never has the octets of psk to put in. */
  predicate Formable(t: Term, psk: Text)
    decreases t
  {
    match t
    case ProtocolName => true
    case Mixed(h, data) => Formable(h, psk) && FormableData(data, psk)
    case Derived(ck, ikm, _) => Formable(ck, psk) && FormableData(ikm, psk)
  }

  predicate FormableData(d: Data, psk: Text)
    decreases d
  {
    match d
    case Octets(cells) => cells != ClearAll(psk)
    case Inner(t) => Formable(t, psk)
    case Shared(_, _) => true
    case SharedWith(_, _) => true
  }

  /** Neither the chaining key nor the cipher's key can be built. */
  predicate Hidden(s: N.Sym, psk: Text) {
    !Formable(s.ck, psk) && s.cipher.Some? && !Formable(s.cipher.value.key, psk)
  }

  lemma PskHides(s: N.Sym, psk: Text)
    ensures Hidden(N.MixKeyAndHash(s, Octets(ClearAll(psk))), psk)
  {
  }

  lemma MixPublicHides(s: N.Sym, public: seq<Cell>, psk: Text)
    requires Hidden(s, psk)
    ensures Hidden(N.MixPublic(s, public), psk)
  {
  }

  lemma MixEeHides(stage: N.Stage, s: N.Sym, secret: nat, point: seq<Cell>, psk: Text)
    requires Hidden(s, psk) && |point| == PUBLIC_KEY_SIZE && N.MixEe(stage, s, secret, point).Some?
    ensures Hidden(N.MixEe(stage, s, secret, point).value, psk)
  {
  }

  /** From the first message on, a side's keys are out of reach of anybody without its psk. */
  lemma WriteHides(side: N.Side, payload: Text, random: Option<nat>)
    requires side.Valid() && side.Speaks() && N.WriteStep(side, payload, random).Some?
    requires side.stage == N.ResponderMessage ==> Hidden(side.sym, side.psk)
    ensures Hidden(N.WriteStep(side, payload, random).value.0.sym, side.psk)
  {
    hide Formable, N.Dh;
    var public := PublicKey(random.value);
    var point := if side.re.Some? then side.re.value else public;
    PskHides(side.sym, side.psk);
    MixPublicHides(N.MixPsk(side), public, side.psk);
    MixEeHides(side.stage, N.MixPublic(N.MixPsk(side), public), random.value, point, side.psk);
  }

  lemma ReadHides(side: N.Side, message: seq<Cell>)
    requires side.Valid() && side.Listens() && |message| >= N.HANDSHAKE_MESSAGE_SIZE && N.ReadStep(side, message).Some?
    requires side.stage == N.ResponderMessage ==> Hidden(side.sym, side.psk)
    ensures Hidden(N.ReadStep(side, message).value.0.sym, side.psk)
  {
    hide Formable, N.Dh;
    var point := message[..PUBLIC_KEY_SIZE];
    PskHides(side.sym, side.psk);
    MixPublicHides(N.MixPsk(side), point, side.psk);
    var secret := if side.e.Some? then side.e.value else 0;
    MixEeHides(side.stage, N.MixPublic(N.MixPsk(side), point), secret, point, side.psk);
  }

  lemma SplitHides(side: N.Side)
    requires side.stage == N.Complete && Hidden(side.sym, side.psk)
    ensures !Formable(N.SplitKeys(side).0, side.psk) && !Formable(N.SplitKeys(side).1, side.psk)
  {
  }

  lemma StageAfter(side: N.Side, payload: Text, random: Option<nat>, message: seq<Cell>)
    requires side.Valid() && side.stage != N.Complete && |message| >= N.HANDSHAKE_MESSAGE_SIZE
    ensures side.Speaks() && N.WriteStep(side, payload, random).Some? ==>
              var next := N.WriteStep(side, payload, random).value.0;
              next.Valid() && next.psk == side.psk && next.initiator == side.initiator
                && next.stage == N.After(side.stage)
    ensures side.Listens() && N.ReadStep(side, message).Some? ==>
              var next := N.ReadStep(side, message).value.0;
              next.Valid() && next.psk == side.psk && next.initiator == side.initiator
                && next.stage == N.After(side.stage)
  {
    hide N.Dh, N.MixHash, N.MixKey, N.MixKeyAndHash, N.EncryptAndHash, N.DecryptAndHash;
  }

  /** Whatever an initiator is answered, the transport keys it ends with cannot be built without its psk. */
  lemma InitiatorKeysHidden(psk: Text, prologue: Text, payload: Text, random: Option<nat>, answer: seq<Cell>)
    requires |psk| == KEY_SIZE && |answer| >= N.HANDSHAKE_MESSAGE_SIZE
    requires N.WriteStep(N.Start(true, psk, prologue), payload, random).Some?
    ensures var sent := N.WriteStep(N.Start(true, psk, prologue), payload, random).value.0;
            && sent.Valid() && sent.Listens()
            && (N.ReadStep(sent, answer).Some? ==>
                  var done := N.ReadStep(sent, answer).value.0;
                  && done.stage == N.Complete
                  && !Formable(N.SplitKeys(done).0, psk) && !Formable(N.SplitKeys(done).1, psk))
  {
    hide N.WriteStep, N.ReadStep, Formable, Hidden, N.SplitKeys;
    var start := N.Start(true, psk, prologue);
    StageAfter(start, payload, random, answer);
    WriteHides(start, payload, random);
    var sent := N.WriteStep(start, payload, random).value.0;
    StageAfter(sent, payload, random, answer);
    if N.ReadStep(sent, answer).Some? {
      ReadHides(sent, answer);
      SplitHides(N.ReadStep(sent, answer).value.0);
    }
  }

  /** Whatever opening a responder accepts, the transport keys it ends with cannot be built without its psk. */
  lemma ResponderKeysHidden(psk: Text, prologue: Text, opening: seq<Cell>, payload: Text, random: Option<nat>)
    requires |psk| == KEY_SIZE && |opening| >= N.HANDSHAKE_MESSAGE_SIZE
    requires N.ReadStep(N.Start(false, psk, prologue), opening).Some?
    ensures var heard := N.ReadStep(N.Start(false, psk, prologue), opening).value.0;
            && heard.Valid() && heard.Speaks()
            && (N.WriteStep(heard, payload, random).Some? ==>
                  var done := N.WriteStep(heard, payload, random).value.0;
                  && done.stage == N.Complete
                  && !Formable(N.SplitKeys(done).0, psk) && !Formable(N.SplitKeys(done).1, psk))
  {
    hide N.WriteStep, N.ReadStep, Formable, Hidden, N.SplitKeys;
    var start := N.Start(false, psk, prologue);
    StageAfter(start, payload, random, opening);
    ReadHides(start, opening);
    var heard := N.ReadStep(start, opening).value.0;
    StageAfter(heard, payload, random, opening);
    if N.WriteStep(heard, payload, random).Some? {
      WriteHides(heard, payload, random);
      SplitHides(N.WriteStep(heard, payload, random).value.0);
    }
  }

  // ---------- whose key is whose ----------

  /** What a cell of a handshake or a record was sealed under tells them apart. */
  predicate OpeningKey(c: Cell) {
    c.Sealed? && c.key.Derived? && c.key.ikm.Octets? && |c.key.ikm.cells| == PUBLIC_KEY_SIZE && c.ad.Some?
  }

  predicate AnswerKey(c: Cell) {
    c.Sealed? && c.key.Derived? && (c.key.ikm.Shared? || c.key.ikm.SharedWith?) && c.ad.Some?
  }

  predicate TransportKey(t: Term) {
    t.Derived? && t.ikm == Octets([])
  }

  lemma SealedPart(a: seq<Cell>, sealed: seq<Cell>, c: Cell)
    requires c in a + sealed && c.Sealed? && forall x :: x in a ==> !x.Sealed?
    ensures c in sealed
  {
  }

  lemma OpeningSealed(psk: Text, secret: nat, c: Cell)
    requires |psk| == KEY_SIZE && c in Opening(psk, secret) && c.Sealed?
    ensures OpeningKey(c)
  {
    InitiatorFirst(psk, secret);
    var message := First(psk, secret).1;
    SealedPart(ClearAll(PREAMBLE), Frame(message), c);
    SealedPart(LengthHeader(|message|), message, c);
    MessageSealed(N.Start(true, psk, PREAMBLE), secret, c);
  }

  /** The sealed cells of a message are sealed under the key its mixes gave, with the hash as data. */
  lemma MessageSealed(side: N.Side, secret: nat, c: Cell)
    requires side.Valid() && side.Speaks() && N.WriteStep(side, [], Some(secret)).Some?
    requires c in N.WriteStep(side, [], Some(secret)).value.1 && c.Sealed?
    ensures if side.stage == N.InitiatorMessage then OpeningKey(c) else AnswerKey(c)
  {
    hide N.SmallOrder;
    var public := PublicKey(secret);
    var point := if side.re.Some? then side.re.value else public;
    var s := N.MixEe(side.stage, N.MixPublic(N.MixPsk(side), public), secret, point).value;
    var sealed := N.EncryptAndHash(s, []).value.1;
    SealedPart(public, sealed, c);
  }

  lemma AnswerSealed(view: Cell -> byte, psk: Text, secret: nat, input: seq<Cell>, c: Cell)
    requires |psk| == KEY_SIZE && Respond(view, psk, secret, input).Ok?
    requires c in Respond(view, psk, secret, input).value.0 && c.Sealed?
    ensures AnswerKey(c)
  {
    hide N.ReadStep, N.WriteStep, OpeningKey, AnswerKey;
    var message := ReadFramed(view, ReadVersion(view, input).value).value.0;
    var heard := N.ReadStep(N.Start(false, psk, PREAMBLE), message).value.0;
    StageAfterRead(N.Start(false, psk, PREAMBLE), message);
    var answer := N.WriteStep(heard, [], Some(secret)).value.1;
    SealedPart(ClearAll(PREAMBLE), Frame(answer), c);
    SealedPart(LengthHeader(|answer|), answer, c);
    MessageSealed(heard, secret, c);
  }

  /** The ciphertext an initiator accepts is sealed under a key that cannot be built without its psk. */
  lemma AcceptedSealed(view: Cell -> byte, psk: Text, secret: nat, input: seq<Cell>)
    requires |psk| == KEY_SIZE && Initiate(view, psk, secret, input).Ok?
    ensures |input| > 5 + 2 + PUBLIC_KEY_SIZE
    ensures var c := input[5 + 2 + PUBLIC_KEY_SIZE]; AnswerKey(c) && !Formable(c.key, psk)
    ensures var keys := Initiate(view, psk, secret, input).value;
            && TransportKey(keys.receive) && !Formable(keys.receive, psk)
            && TransportKey(keys.send) && !Formable(keys.send, psk)
  {
    hide N.WriteStep, N.ReadStep, Formable;
    InitiatorFirst(psk, secret);
    var side := First(psk, secret).0;
    WriteHides(N.Start(true, psk, PREAMBLE), [], Some(secret));
    SameSide(psk, secret);
    var answer := ReadFramed(view, input[5..]).value.0;
    ReadHides(side, answer);
    AnswerOpened(side, answer);
    SplitHides(N.ReadStep(side, answer).value.0);
    assert answer[PUBLIC_KEY_SIZE] == input[5 + 2 + PUBLIC_KEY_SIZE];
  }

  lemma SameSide(psk: Text, secret: nat)
    requires |psk| == KEY_SIZE
    ensures var side := First(psk, secret).0; side.psk == psk && side.stage == N.ResponderMessage
  {
  }

  lemma AnswerOpened(side: N.Side, message: seq<Cell>)
    requires side.Valid() && side.Listens() && side.stage == N.ResponderMessage && Hidden(side.sym, side.psk)
    requires |message| >= N.HANDSHAKE_MESSAGE_SIZE && N.ReadStep(side, message).Some?
    ensures var c := message[PUBLIC_KEY_SIZE]; AnswerKey(c) && !Formable(c.key, side.psk)
    ensures var done := N.ReadStep(side, message).value.0; done.psk == side.psk && done.stage == N.Complete
  {
    hide N.SmallOrder, Formable;
    var point := message[..PUBLIC_KEY_SIZE];
    var mixed := N.MixPublic(N.MixPsk(side), point);
    var secret := if side.e.Some? then side.e.value else 0;
    var s := N.MixEe(side.stage, mixed, secret, point).value;
    MixPublicHides(N.MixPsk(side), point, side.psk);
    MixEeHides(side.stage, mixed, secret, point, side.psk);
    assert message[PUBLIC_KEY_SIZE..][0] == message[PUBLIC_KEY_SIZE];
  }

  // ---------- a session through such a network ----------

  /** A responder's setup: how it reads, its ephemeral, and what came in. */
  datatype Answering = Answering(view: Cell -> byte, secret: nat, input: seq<Cell>)

  /** Everybody who has the psk: the initiators' ephemerals, the responders' setups, and what the one writer of each key
      has written under it. */
  datatype World = World(psk: Text, openings: seq<nat>, answers: seq<Answering>, written: Term -> seq<Text>) {
    ghost predicate Valid() {
      && |psk| == KEY_SIZE
      && forall i :: 0 <= i < |answers| ==> Respond(answers[i].view, psk, answers[i].secret, answers[i].input).Ok?
    }

    ghost predicate Sealed(c: Cell)
      requires Valid()
    {
      || (exists i :: 0 <= i < |openings| && c in Opening(psk, openings[i]))
      || (exists i :: 0 <= i < |answers| && c in Respond(answers[i].view, psk, answers[i].secret,
           answers[i].input).value.0)
      || (c.Sealed? && c in RecordsFrom(c.key, written(c.key), 0))
    }

    /** A network that has seen all of it, has every secret but the psk, and puts together what it can. */
    ghost predicate Network(net: seq<Cell>)
      requires Valid()
    {
      forall c :: c in net && c.Sealed? ==> Formable(c.key, psk) || Sealed(c)
    }
  }

  lemma RecordCell(key: Term, sent: seq<Text>, c: Cell)
    requires c in RecordsFrom(key, sent, 0) && c.Sealed?
    ensures c.ad == None
  {
    SealedOnce(key, sent, 0, c);
  }

  /** Such a network forges nothing under a key it cannot build: what is sealed under a transport key was written
      under it. */
  lemma NoForgery(world: World, key: Term, net: seq<Cell>)
    requires world.Valid() && world.Network(net) && TransportKey(key) && !Formable(key, world.psk)
    ensures OnlyFrom(key, world.written(key), net)
  {
    hide Opening, Respond, Formable;
    forall c | c in net && c.Sealed? && c.key == key ensures c in RecordsFrom(key, world.written(key), 0) {
      assert world.Sealed(c);
      if i :| 0 <= i < |world.openings| && c in Opening(world.psk, world.openings[i]) {
        OpeningSealed(world.psk, world.openings[i], c);
      } else if i :| 0 <= i < |world.answers|
                     && c in Respond(world.answers[i].view, world.psk, world.answers[i].secret,
                          world.answers[i].input).value.0 {
        var a := world.answers[i];
        AnswerSealed(a.view, world.psk, a.secret, a.input, c);
      }
    }
  }

  /** An initiator whose setup completes through such a network has its keys with a responder that has the psk, crossed;
      and what it decodes under them is, whatever the network does, a beginning of what was written for it. */
  lemma SecureSession(world: World, view: Cell -> byte, secret: nat, input: seq<Cell>, net: seq<Cell>,
                      role: Role, ms: seq<Message>, sizes: seq<nat>, end: D.Ending) returns (i: nat)
    requires world.Valid() && world.Network(input) && world.Network(net)
    requires Initiate(view, world.psk, secret, input).Ok?
    requires S.StreamOut(role, false, ms).Bytes?
    requires world.written(Initiate(view, world.psk, secret, input).value.receive) == Plaintexts(ms)
    ensures i < |world.answers|
    ensures var a := world.answers[i];
            var mine, theirs := Initiate(view, world.psk, secret, input).value,
              Respond(a.view, world.psk, a.secret, a.input).value.1;
            mine.send == theirs.receive && mine.receive == theirs.send
    ensures var key := Initiate(view, world.psk, secret, input).value.receive;
            S.StreamIn(S.Opposite(role), false, ReadAll(key, view, Reader(0, net, []), sizes), end).messages <= ms
  {
    hide Initiate, Respond, Opening, Formable, S.StreamIn, S.StreamOut;
    AcceptedSealed(view, world.psk, secret, input);
    var keys := Initiate(view, world.psk, secret, input).value;
    i := WhoAnswered(world, view, secret, input);
    var a := world.answers[i];
    SetupAgrees(view, world.psk, secret, input, a.view, world.psk, a.secret, a.input);
    NoForgery(world, keys.receive, net);
    SessionUnderAttack(keys.receive, view, role, ms, net, sizes, end);
  }

  lemma WhoAnswered(world: World, view: Cell -> byte, secret: nat, input: seq<Cell>) returns (i: nat)
    requires world.Valid() && world.Network(input) && Initiate(view, world.psk, secret, input).Ok?
    ensures |input| > 5 + 2 + PUBLIC_KEY_SIZE && input[5 + 2 + PUBLIC_KEY_SIZE].Sealed? && i < |world.answers|
    ensures var a := world.answers[i];
            input[5 + 2 + PUBLIC_KEY_SIZE] in Respond(a.view, world.psk, a.secret, a.input).value.0
  {
    hide Initiate, Respond, Opening, Formable;
    AcceptedSealed(view, world.psk, secret, input);
    var c := input[5 + 2 + PUBLIC_KEY_SIZE];
    assert world.Sealed(c);
    if j :| 0 <= j < |world.openings| && c in Opening(world.psk, world.openings[j]) {
      OpeningSealed(world.psk, world.openings[j], c);
      assert false;
    }
    if c in RecordsFrom(c.key, world.written(c.key), 0) {
      RecordCell(c.key, world.written(c.key), c);
      assert false;
    }
    i :| 0 <= i < |world.answers|
         && c in Respond(world.answers[i].view, world.psk, world.answers[i].secret, world.answers[i].input).value.0;
  }

  // ---------- the responder's side ----------

  /** The ciphertext a responder accepts is sealed under a key that cannot be built without its psk. */
  lemma OpeningAccepted(view: Cell -> byte, psk: Text, secret: nat, input: seq<Cell>)
    requires |psk| == KEY_SIZE && Respond(view, psk, secret, input).Ok?
    ensures |input| > 5 + 2 + PUBLIC_KEY_SIZE
    ensures var c := input[5 + 2 + PUBLIC_KEY_SIZE]; OpeningKey(c) && !Formable(c.key, psk)
    ensures var keys := Respond(view, psk, secret, input).value.1;
            TransportKey(keys.receive) && !Formable(keys.receive, psk)
  {
    hide N.WriteStep, N.ReadStep, Formable;
    var message := ReadFramed(view, input[5..]).value.0;
    var start := N.Start(false, psk, PREAMBLE);
    ResponderKeysHidden(psk, PREAMBLE, message, [], Some(secret));
    StageAfterRead(start, message);
    FirstOpened(start, message);
    assert message[PUBLIC_KEY_SIZE] == input[5 + 2 + PUBLIC_KEY_SIZE];
  }

  lemma FirstOpened(side: N.Side, message: seq<Cell>)
    requires side.Valid() && side.Listens() && side.stage == N.InitiatorMessage
    requires |message| >= N.HANDSHAKE_MESSAGE_SIZE && N.ReadStep(side, message).Some?
    ensures var c := message[PUBLIC_KEY_SIZE]; OpeningKey(c) && !Formable(c.key, side.psk)
  {
    hide N.SmallOrder, Formable;
    var point := message[..PUBLIC_KEY_SIZE];
    PskHides(side.sym, side.psk);
    MixPublicHides(N.MixPsk(side), point, side.psk);
    assert message[PUBLIC_KEY_SIZE..][0] == message[PUBLIC_KEY_SIZE];
  }

  lemma WhoOpened(world: World, view: Cell -> byte, secret: nat, input: seq<Cell>) returns (i: nat)
    requires world.Valid() && world.Network(input) && Respond(view, world.psk, secret, input).Ok?
    ensures |input| > 5 + 2 + PUBLIC_KEY_SIZE && i < |world.openings|
    ensures var c := input[5 + 2 + PUBLIC_KEY_SIZE]; c.Sealed? && c in Opening(world.psk, world.openings[i])
  {
    hide Respond, Opening, Formable;
    OpeningAccepted(view, world.psk, secret, input);
    var c := input[5 + 2 + PUBLIC_KEY_SIZE];
    assert world.Sealed(c);
    if j :| 0 <= j < |world.answers|
            && c in Respond(world.answers[j].view, world.psk, world.answers[j].secret, world.answers[j].input).value.0 {
      var a := world.answers[j];
      AnswerSealed(a.view, world.psk, a.secret, a.input, c);
      assert false;
    }
    if c in RecordsFrom(c.key, world.written(c.key), 0) {
      RecordCell(c.key, world.written(c.key), c);
      assert false;
    }
    i :| 0 <= i < |world.openings| && c in Opening(world.psk, world.openings[i]);
  }

  /** The handshake message inside what a responder reads is the one it accepted. */
  lemma AcceptedOpening(view: Cell -> byte, psk: Text, secret: nat, input: seq<Cell>, a: nat)
    requires |psk| == KEY_SIZE && Respond(view, psk, secret, input).Ok?
    requires |input| > 5 + 2 + PUBLIC_KEY_SIZE && input[5 + 2 + PUBLIC_KEY_SIZE].Sealed?
    requires input[5 + 2 + PUBLIC_KEY_SIZE] in Opening(psk, a)
    ensures ReadFramed(view, input[5..]).Ok? && ReadFramed(view, input[5..]).value.0 == First(psk, a).1
  {
    hide N.ReadStep, N.WriteStep;
    var message, c := ReadFramed(view, input[5..]).value.0, input[5 + 2 + PUBLIC_KEY_SIZE];
    InitiatorFirst(psk, a);
    var first := First(psk, a).1;
    SealedPart(ClearAll(PREAMBLE), Frame(first), c);
    SealedPart(LengthHeader(|first|), first, c);
    assert message[PUBLIC_KEY_SIZE] == c;
    N.ResponderAcceptsOnlyItsInitiator(psk, PREAMBLE, message, psk, PREAMBLE, a, []);
  }

  /** An opening a responder accepts through such a network is, cell for cell, that of an initiator with its psk; and
      what the responder decodes under its keys is, whatever the network does, a beginning of what was written for
      it. */
  lemma SecureResponder(world: World, view: Cell -> byte, secret: nat, input: seq<Cell>, net: seq<Cell>,
                        role: Role, ms: seq<Message>, sizes: seq<nat>, end: D.Ending) returns (i: nat)
    requires world.Valid() && world.Network(input) && world.Network(net)
    requires Respond(view, world.psk, secret, input).Ok?
    requires S.StreamOut(role, false, ms).Bytes?
    requires world.written(Respond(view, world.psk, secret, input).value.1.receive) == Plaintexts(ms)
    ensures i < |world.openings| && ReadFramed(view, input[5..]).Ok?
    ensures ReadFramed(view, input[5..]).value.0 == First(world.psk, world.openings[i]).1
    ensures var key := Respond(view, world.psk, secret, input).value.1.receive;
            S.StreamIn(S.Opposite(role), false, ReadAll(key, view, Reader(0, net, []), sizes), end).messages <= ms
  {
    hide Respond, Opening, Formable, ReadFramed, First, S.StreamIn, S.StreamOut;
    OpeningAccepted(view, world.psk, secret, input);
    i := WhoOpened(world, view, secret, input);
    AcceptedOpening(view, world.psk, secret, input, world.openings[i]);
    var key := Respond(view, world.psk, secret, input).value.1.receive;
    NoForgery(world, key, net);
    SessionUnderAttack(key, view, role, ms, net, sizes, end);
  }
}
