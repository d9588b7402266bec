/** Noise_NNpsk0 as this program composes it: the symmetric state, the two handshake messages and the split. */
module Noise {
  import opened Wire
  import opened Symbolic

  const HANDSHAKE_MESSAGE_SIZE := PUBLIC_KEY_SIZE + TAG_SIZE

  // ---------- the symmetric state as a value ----------

  datatype Keyed = Keyed(key: Term, nonce: nat)

  /** The handshake hash, the chaining key, and the cipher keyed by the mixes so far. */
  datatype Sym = Sym(h: Term, ck: Term, cipher: Option<Keyed>)

  function NewSym(prologue: Text): Sym {
    Sym(Mixed(ProtocolName, Octets(ClearAll(prologue))), ProtocolName, None)
  }

  function MixHash(s: Sym, data: Data): Sym {
    s.(h := Mixed(s.h, data))
  }

  function MixKey(s: Sym, ikm: Data): Sym {
    s.(ck := Derived(s.ck, ikm, 0), cipher := Some(Keyed(Derived(s.ck, ikm, 1), 0)))
  }

  function MixKeyAndHash(s: Sym, ikm: Data): Sym {
    Sym(Mixed(s.h, Inner(Derived(s.ck, ikm, 1))), Derived(s.ck, ikm, 0),
        Some(Keyed(Derived(s.ck, ikm, 2), 0)))
  }

  /** The state after sealing a payload under h, and the ciphertext. */
  function EncryptAndHash(s: Sym, plain: Text): Option<(Sym, seq<Cell>)> {
    if s.cipher.None? || s.cipher.value.nonce == NONCE_RESERVED || |plain| > MAX_PLAINTEXT_SIZE then None
    else
      var k := s.cipher.value;
      var c := Seal(k.key, k.nonce, Some(s.h), plain);
      Some((MixHash(s, Octets(c)).(cipher := Some(Keyed(k.key, k.nonce + 1))), c))
  }

  /** The state after opening a ciphertext under h as it was before it, and the payload. */
  function DecryptAndHash(s: Sym, c: seq<Cell>): Option<(Sym, Text)> {
    if s.cipher.None? || s.cipher.value.nonce == NONCE_RESERVED || |c| > MAX_MESSAGE_SIZE then None
    else
      var k := s.cipher.value;
      match Open(k.key, k.nonce, Some(s.h), c)
      case None => None
      case Some(plain) => Some((MixHash(s, Octets(c)).(cipher := Some(Keyed(k.key, k.nonce + 1))), plain))
  }

  // ---------- Diffie-Hellman ----------

  /** The field of Curve25519 has 2^255 - 19 elements. */
  const PRIME: nat := 0x7FFFFFFFFFFFFFFFFFFFFFFFFFFFFFFFFFFFFFFFFFFFFFFFFFFFFFFFFFFFFFED

  /** The coordinates below 2^255 of points of order 1, 2, 4 and 8, on the curve and on its twist. */
  predicate SmallOrderAt(u: nat) {
    u in {
      0, 1, PRIME - 1, PRIME, PRIME + 1,
      325606250916557431795983626356110631294008115727848805560023387167927233504,
      39382357235489614581723060781553021112529911719440698176882885853963445705823
    }
  }

  /** These are of small order indeed: twice the point is one of order 4 (x = 1), or it is one of order 4 or less. */
  lemma SmallOrderDoubles(u: nat)
    requires SmallOrderAt(u)
    ensures u < 0x8000000000000000000000000000000000000000000000000000000000000000
    ensures u % PRIME in {0, 1, PRIME - 1}
         || ((u * u - 1) * (u * u - 1) - 4 * u * (u * u + 486662 * u + 1)) % PRIME == 0
  {
  }

  /** The points whose shared secret is zero whoever multiplies them; X25519 refuses these. The bit above the
      255 of a coordinate is ignored. */
  predicate SmallOrder(point: seq<Cell>)
    requires |point| == PUBLIC_KEY_SIZE
  {
    && (forall i :: 0 <= i < PUBLIC_KEY_SIZE ==> point[i].Clear?)
    && var octets: Text := seq(PUBLIC_KEY_SIZE, i requires 0 <= i < PUBLIC_KEY_SIZE => point[i].b);
       SmallOrderAt(FromLittleEndian(octets[31 := octets[31] % 128]))
  }

  /** The shared secret of a private key and a point off the wire: the same from both ends of two honest keys. */
  function Dh(secret: nat, point: seq<Cell>): Option<Data>
    requires |point| == PUBLIC_KEY_SIZE
  {
    if point[0].Public? && point == PublicKey(point[0].secret) then
      var other := point[0].secret;
      Some(if secret <= other then Shared(secret, other) else Shared(other, secret))
    else if SmallOrder(point) then None
    else Some(SharedWith(secret, point))
  }

  lemma DhCommutes(a: nat, b: nat)
    ensures Dh(a, PublicKey(b)).Some? && Dh(a, PublicKey(b)) == Dh(b, PublicKey(a))
  {
    assert PublicKey(a)[0] == Public(a, 0) && PublicKey(b)[0] == Public(b, 0);
  }

  // ---------- the handshake as a value ----------

  datatype Stage = InitiatorMessage | ResponderMessage | Complete

  function After(stage: Stage): Stage {
    if stage == InitiatorMessage then ResponderMessage else Complete
  }

  /** One side of a handshake that has refused nothing. */
  datatype Side = Side(initiator: bool, psk: Text, sym: Sym, e: Option<nat>, re: Option<seq<Cell>>, stage: Stage) {
    ghost predicate Valid() {
      && |psk| == KEY_SIZE
      && (re.Some? ==> |re.value| == PUBLIC_KEY_SIZE)
      && (stage == ResponderMessage ==> if initiator then e.Some? else re.Some?)
    }

    /** Whether it is this side that speaks next. */
    predicate Speaks() {
      stage != Complete && initiator == (stage == InitiatorMessage)
    }

    predicate Listens() {
      stage != Complete && !Speaks()
    }
  }

  function Start(initiator: bool, psk: Text, prologue: Text): Side {
    Side(initiator, psk, NewSym(prologue), None, None, InitiatorMessage)
  }

  /** The psk token, which only the first message has. */
  function MixPsk(side: Side): Sym {
    if side.stage == InitiatorMessage then MixKeyAndHash(side.sym, Octets(ClearAll(side.psk))) else side.sym
  }

  /** An ephemeral goes into the hash and, in psk mode, into the chaining key as well. */
  function MixPublic(s: Sym, public: seq<Cell>): Sym {
    MixKey(MixHash(s, Octets(public)), Octets(public))
  }

  /** The ee token, which only the second message has. */
  function MixEe(stage: Stage, s: Sym, secret: nat, point: seq<Cell>): Option<Sym>
    requires |point| == PUBLIC_KEY_SIZE
  {
    if stage == InitiatorMessage then Some(s)
    else
      match Dh(secret, point)
      case None => None
      case Some(shared) => Some(MixKey(s, shared))
  }

  /** The next side and the message it sends, or nothing when it is refused. */
  function WriteStep(side: Side, payload: Text, random: Option<nat>): Option<(Side, seq<Cell>)>
    requires side.Valid() && side.Speaks()
  {
    if random.None? then None
    else
      var public := PublicKey(random.value);
      var mixed := MixPublic(MixPsk(side), public);
      var point := if side.re.Some? then side.re.value else public;
      match MixEe(side.stage, mixed, random.value, point)
      case None => None
      case Some(s) =>
        match EncryptAndHash(s, payload)
        case None => None
        case Some(pair) =>
          Some((side.(sym := pair.0, e := random, stage := After(side.stage)), public + pair.1))
  }

  /** The next side and the payload it read, or nothing when the message is refused. */
  function ReadStep(side: Side, message: seq<Cell>): Option<(Side, Text)>
    requires side.Valid() && side.Listens() && |message| >= HANDSHAKE_MESSAGE_SIZE
  {
    var point := message[..PUBLIC_KEY_SIZE];
    var mixed := MixPublic(MixPsk(side), point);
    match MixEe(side.stage, mixed, if side.e.Some? then side.e.value else 0, point)
    case None => None
    case Some(s) =>
      match DecryptAndHash(s, message[PUBLIC_KEY_SIZE..])
      case None => None
      case Some(pair) =>
        Some((side.(sym := pair.0, re := Some(point), stage := After(side.stage)), pair.1))
  }

  /** The send and receive keys of a completed side. */
  function SplitKeys(side: Side): (Term, Term)
    requires side.stage == Complete
  {
    var k1, k2 := Derived(side.sym.ck, Octets([]), 0), Derived(side.sym.ck, Octets([]), 1);
    if side.initiator then (k1, k2) else (k2, k1)
  }

  // ---------- honest peers agree ----------

  /** With one psk and one prologue and nothing altered on the way, both messages are accepted with their payloads,
      the two sides hold the same hash and chaining key after each, and each sends with what the other receives with. */
  lemma HonestAgreement(psk: Text, prologue: Text, a: nat, b: nat, p: Text, q: Text)
    requires |psk| == KEY_SIZE && |p| <= MAX_PLAINTEXT_SIZE && |q| <= MAX_PLAINTEXT_SIZE
    ensures var first := WriteStep(Start(true, psk, prologue), p, Some(a));
      first.Some? &&
      var heard := ReadStep(Start(false, psk, prologue), first.value.1);
      heard.Some? && heard.value.1 == p && heard.value.0.sym == first.value.0.sym &&
      var answer := WriteStep(heard.value.0, q, Some(b));
      answer.Some? &&
      var done := ReadStep(first.value.0, answer.value.1);
      done.Some? && done.value.1 == q && done.value.0.sym == answer.value.0.sym &&
      var (sendI, receiveI) := SplitKeys(done.value.0);
      var (sendR, receiveR) := SplitKeys(answer.value.0);
      sendI == receiveR && sendR == receiveI && sendI != receiveI
  {
    DhCommutes(a, b);
    var (i1, m1) := WriteStep(Start(true, psk, prologue), p, Some(a)).value;
    ReadInvertsWrite(Start(true, psk, prologue), Start(false, psk, prologue), p, a);
    var r1 := ReadStep(Start(false, psk, prologue), m1).value.0;
    ReadInvertsWrite(r1, i1, q, b);
  }

  /** A message is read back with its payload by a side in the same state that can form the same shared secret. */
  lemma ReadInvertsWrite(writer: Side, reader: Side, payload: Text, secret: nat)
    requires writer.Valid() && reader.Valid() && writer.Speaks() && reader.Listens()
    requires writer.sym == reader.sym && writer.psk == reader.psk && writer.stage == reader.stage
    requires writer.stage == ResponderMessage ==>
               writer.re == Some(PublicKey(reader.e.value))
                 && Dh(secret, writer.re.value) == Dh(reader.e.value, PublicKey(secret))
    requires |payload| <= MAX_PLAINTEXT_SIZE
    ensures var sent := WriteStep(writer, payload, Some(secret));
      sent.Some? && |sent.value.1| == HANDSHAKE_MESSAGE_SIZE + |payload| &&
      sent.value.1[..PUBLIC_KEY_SIZE] == PublicKey(secret) &&
      var heard := ReadStep(reader, sent.value.1);
      heard.Some? && heard.value.1 == payload && heard.value.0.sym == sent.value.0.sym
      && heard.value.0.re == Some(PublicKey(secret))
  {
    hide SmallOrder;
    var public := PublicKey(secret);
    if writer.stage == ResponderMessage {
      DhCommutes(secret, reader.e.value);
    }
    var mixed := MixPublic(MixPsk(writer), public);
    var s := MixEe(writer.stage, mixed, secret, if writer.re.Some? then writer.re.value else public).value;
    var k := s.cipher.value;
    var c := Seal(k.key, k.nonce, Some(s.h), payload);
    OpensExactlySealed(k.key, k.nonce, Some(s.h), c, payload);
    assert (public + c)[..PUBLIC_KEY_SIZE] == public && (public + c)[PUBLIC_KEY_SIZE..] == c;
  }

  // ---------- what goes into what, written out ----------

  /** The hash, the chaining key and the key of a message, token by token: psk and e, and then e and ee. */
  datatype Transcript = Transcript(h: Term, ck: Term, key: Term)

  function FirstTokens(psk: Text, prologue: Text, a: nat): Transcript {
    var secret, public := Octets(ClearAll(psk)), Octets(PublicKey(a));
    var h := Mixed(Mixed(ProtocolName, Octets(ClearAll(prologue))), Inner(Derived(ProtocolName, secret, 1)));
    var ck := Derived(ProtocolName, secret, 0);
    Transcript(Mixed(h, public), Derived(ck, public, 0), Derived(ck, public, 1))
  }

  function SecondTokens(h: Term, ck: Term, a: nat, b: nat): Transcript {
    var public, shared := Octets(PublicKey(b)), if a <= b then Shared(a, b) else Shared(b, a);
    var behind := Derived(ck, public, 0);
    Transcript(Mixed(h, public), Derived(behind, shared, 0), Derived(behind, shared, 1))
  }

  /** The first message and both hands' state behind it: psk goes into hash and chaining key, the ephemeral into the
      hash and the chaining key too, the payload is sealed under the hash and then goes into it. */
  lemma FirstMessage(psk: Text, prologue: Text, a: nat, p: Text)
    requires |psk| == KEY_SIZE && |p| <= MAX_PLAINTEXT_SIZE
    ensures var t := FirstTokens(psk, prologue, a);
      var c := Seal(t.key, 0, Some(t.h), p);
      var (i1, m1) := WriteStep(Start(true, psk, prologue), p, Some(a)).value;
      && m1 == PublicKey(a) + c && i1.sym.h == Mixed(t.h, Octets(c)) && i1.sym.ck == t.ck
      && ReadStep(Start(false, psk, prologue), m1).value.0.sym == i1.sym
  {
    ReadInvertsWrite(Start(true, psk, prologue), Start(false, psk, prologue), p, a);
  }

  /** The second message, and the transport keys: the first of the two is the one the initiator sends with. */
  lemma SecondMessage(psk: Text, prologue: Text, a: nat, b: nat, p: Text, q: Text)
    requires |psk| == KEY_SIZE && |p| <= MAX_PLAINTEXT_SIZE && |q| <= MAX_PLAINTEXT_SIZE
    ensures var (i1, m1) := WriteStep(Start(true, psk, prologue), p, Some(a)).value;
      var r1 := ReadStep(Start(false, psk, prologue), m1).value.0;
      var (r2, m2) := WriteStep(r1, q, Some(b)).value;
      var i2 := ReadStep(i1, m2).value.0;
      var t := SecondTokens(i1.sym.h, i1.sym.ck, a, b);
      var c := Seal(t.key, 0, Some(t.h), q);
      && m2 == PublicKey(b) + c && i2.sym == r2.sym && i2.sym.h == Mixed(t.h, Octets(c)) && i2.sym.ck == t.ck
      && i2.stage == r2.stage == Complete
      && SplitKeys(i2) == (Derived(t.ck, Octets([]), 0), Derived(t.ck, Octets([]), 1))
      && SplitKeys(r2) == (Derived(t.ck, Octets([]), 1), Derived(t.ck, Octets([]), 0))
  {
    HonestAgreement(psk, prologue, a, b, p, q);
    DhCommutes(a, b);
    ReadInvertsWrite(Start(true, psk, prologue), Start(false, psk, prologue), p, a);
    assert PublicKey(a)[0] == Public(a, 0);
  }

  // ---------- accepting means agreeing ----------

  lemma ClearAllInjective(p: Text, q: Text)
    requires ClearAll(p) == ClearAll(q)
    ensures p == q
  {
    forall i | 0 <= i < |p| ensures |p| == |q| && p[i] == q[i] {
      assert ClearAll(p)[i] == ClearAll(q)[i];
    }
    assert |ClearAll(p)| == |ClearAll(q)|;
  }

  /** A responder that accepts any message whose ciphertext starts with a cell some initiator sealed has that
      initiator's psk and prologue, was sent exactly that initiator's message, and is in the same state. */
  lemma ResponderAcceptsOnlyItsInitiator(
      psk: Text, prologue: Text, message: seq<Cell>,
      psk': Text, prologue': Text, a: nat, p: Text)
    requires |psk| == |psk'| == KEY_SIZE && |p| <= MAX_PLAINTEXT_SIZE && |message| >= HANDSHAKE_MESSAGE_SIZE
    requires ReadStep(Start(false, psk, prologue), message).Some?
    requires message[PUBLIC_KEY_SIZE] in WriteStep(Start(true, psk', prologue'), p, Some(a)).value.1
    ensures psk == psk' && prologue == prologue'
    ensures var (i1, m1) := WriteStep(Start(true, psk', prologue'), p, Some(a)).value;
      var (r1, heard) := ReadStep(Start(false, psk, prologue), message).value;
      message == m1 && heard == p && r1.sym == i1.sym
  {
    var (i1, m1) := WriteStep(Start(true, psk', prologue'), p, Some(a)).value;
    var (r1, heard) := ReadStep(Start(false, psk, prologue), message).value;
    var point, c := message[..PUBLIC_KEY_SIZE], message[PUBLIC_KEY_SIZE..];
    var sr := MixPublic(MixPsk(Start(false, psk, prologue)), point);
    var si := MixPublic(MixPsk(Start(true, psk', prologue')), PublicKey(a));
    OpensExactlySealed(sr.cipher.value.key, 0, Some(sr.h), c, heard);
    assert c[0] == Sealed(sr.cipher.value.key, 0, Some(sr.h), heard, 0);
    assert c[0] in Seal(si.cipher.value.key, 0, Some(si.h), p) by {
      assert c[0] !in PublicKey(a);
    }
    assert sr.cipher.value.key == si.cipher.value.key && sr.h == si.h && heard == p;
    assert point == PublicKey(a);
    ClearAllInjective(psk, psk');
    ClearAllInjective(prologue, prologue');
    assert message == point + c;
  }

  /** An initiator that accepts any answer whose ciphertext starts with a cell some responder sealed shares that
      responder's psk and prologue; the responder was answering exactly this initiator's message, the answer arrived
      unaltered, and each side's send key is the other's receive key. */
  lemma InitiatorAcceptsOnlyItsResponder(
      psk: Text, prologue: Text, a: nat, p: Text, answer: seq<Cell>,
      psk': Text, prologue': Text, received: seq<Cell>, b: nat, q: Text)
    requires |psk| == |psk'| == KEY_SIZE && |p| <= MAX_PLAINTEXT_SIZE && |q| <= MAX_PLAINTEXT_SIZE
    requires |answer| >= HANDSHAKE_MESSAGE_SIZE && |received| >= HANDSHAKE_MESSAGE_SIZE
    requires ReadStep(Start(false, psk', prologue'), received).Some?
    requires WriteStep(ReadStep(Start(false, psk', prologue'), received).value.0, q, Some(b)).Some?
    requires ReadStep(WriteStep(Start(true, psk, prologue), p, Some(a)).value.0, answer).Some?
    requires answer[PUBLIC_KEY_SIZE] in WriteStep(ReadStep(Start(false, psk', prologue'), received).value.0, q,
             Some(b)).value.1
    ensures psk == psk' && prologue == prologue'
    ensures var (i1, m1) := WriteStep(Start(true, psk, prologue), p, Some(a)).value;
      var r1 := ReadStep(Start(false, psk', prologue'), received).value.0;
      var (r2, m2) := WriteStep(r1, q, Some(b)).value;
      var (i2, heard) := ReadStep(i1, answer).value;
      && received == m1 && answer == m2 && heard == q && i2.sym == r2.sym
      && SplitKeys(i2).0 == SplitKeys(r2).1 && SplitKeys(i2).1 == SplitKeys(r2).0
  {
    hide SmallOrder;
    var (i1, m1) := WriteStep(Start(true, psk, prologue), p, Some(a)).value;
    var (r1, heard1) := ReadStep(Start(false, psk', prologue'), received).value;
    var (r2, m2) := WriteStep(r1, q, Some(b)).value;
    var (i2, heard) := ReadStep(i1, answer).value;
    var point, c := answer[..PUBLIC_KEY_SIZE], answer[PUBLIC_KEY_SIZE..];
    var si := MixEe(ResponderMessage, MixPublic(i1.sym, point), a, point).value;
    var sr := MixEe(ResponderMessage, MixPublic(r1.sym, PublicKey(b)), b, r1.re.value).value;
    OpensExactlySealed(si.cipher.value.key, 0, Some(si.h), c, heard);
    assert c[0] == Sealed(si.cipher.value.key, 0, Some(si.h), heard, 0);
    assert c[0] in Seal(sr.cipher.value.key, 0, Some(sr.h), q) by {
      assert c[0] !in PublicKey(b);
    }
    assert si.h == sr.h && si.cipher.value.key == sr.cipher.value.key && heard == q;
    assert i1.sym.h == r1.sym.h && point == PublicKey(b);
    // The hashes end in the first ciphertext and, under it, the first ephemeral.
    var c1, d1 := m1[PUBLIC_KEY_SIZE..], received[PUBLIC_KEY_SIZE..];
    assert i1.sym.h == Mixed(i1.sym.h.h, Octets(c1)) && r1.sym.h == Mixed(r1.sym.h.h, Octets(d1));
    assert c1 == d1 && m1[..PUBLIC_KEY_SIZE] == received[..PUBLIC_KEY_SIZE];
    assert m1 == m1[..PUBLIC_KEY_SIZE] + c1 && received == received[..PUBLIC_KEY_SIZE] + d1;
    ClearAllInjective(psk, psk');
    ClearAllInjective(prologue, prologue');
    assert answer == point + c;
  }

  // ---------- the symmetric state as it runs ----------

  class Symmetric {
    var h: Term
    var ck: Term
    var cipher: CipherState?

    ghost function Value(): Sym
      reads this, cipher
    {
      Sym(h, ck, if cipher == null then None else Some(Keyed(cipher.key, cipher.nonce)))
    }

    constructor (prologue: Text)
      ensures Value() == NewSym(prologue) && cipher == null
    {
      h := Mixed(ProtocolName, Octets(ClearAll(prologue)));
      ck := ProtocolName;
      cipher := null;
    }

    method MixHashIn(data: Data)
      modifies this`h
      ensures Value() == MixHash(old(Value()), data)
    {
      h := Mixed(h, data);
    }

    method MixKeyIn(ikm: Data)
      modifies this`ck, this`cipher
      ensures Value() == MixKey(old(Value()), ikm) && fresh(cipher)
    {
      cipher := new CipherState(Derived(ck, ikm, 1));
      ck := Derived(ck, ikm, 0);
    }

    method MixKeyAndHashIn(ikm: Data)
      modifies this
      ensures Value() == MixKeyAndHash(old(Value()), ikm) && fresh(cipher)
    {
      cipher := new CipherState(Derived(ck, ikm, 2));
      var middle := Derived(ck, ikm, 1);
      ck := Derived(ck, ikm, 0);
      MixHashIn(Inner(middle));
    }

    method Encrypt(plain: Text) returns (c: Option<seq<Cell>>)
      modifies this, cipher
      ensures cipher == old(cipher)
      ensures var r := EncryptAndHash(old(Value()), plain);
        if r.Some? then Value() == r.value.0 && c == Some(r.value.1) else c.None?
    {
      if cipher == null {
        return None;
      }
      var sealed, ok := cipher.SealNext([], Some(h), plain);
      if !ok {
        return None;
      }
      assert [] + Seal(cipher.key, old(cipher.nonce), Some(h), plain)
        == Seal(cipher.key, old(cipher.nonce), Some(h), plain);
      MixHashIn(Octets(sealed));
      return Some(sealed);
    }

    method Decrypt(c: seq<Cell>) returns (plain: Option<Text>)
      modifies this, cipher
      ensures cipher == old(cipher)
      ensures var r := DecryptAndHash(old(Value()), c);
        if r.Some? then Value() == r.value.0 && plain == Some(r.value.1) else plain.None?
    {
      if cipher == null {
        return None;
      }
      var text, ok := cipher.OpenNext(Some(h), c);
      if !ok {
        return None;
      }
      OpensExactlySealed(cipher.key, old(cipher.nonce), Some(h), c, text);
      MixHashIn(Octets(c));
      return Some(text);
    }
  }

  // ---------- the handshake as it runs ----------

  datatype Refused = HasFailed | IsComplete | NotItsTurn | TooShort | BadMessage

  class Handshake {
    const initiator: bool
    const psk: Text
    const sym: Symmetric
    var e: Option<nat>
    var re: Option<seq<Cell>>
    var stage: Stage
    var failed: bool

    ghost predicate Valid()
      reads this, sym, sym.cipher
    {
      !failed ==> Value().Valid()
    }

    ghost function Value(): Side
      reads this, sym, sym.cipher
    {
      Side(initiator, psk, sym.Value(), e, re, stage)
    }

    /** A pre-shared key of any other size is refused. */
    static method New(initiator: bool, psk: Text, prologue: Text) returns (hs: Handshake?)
      ensures hs != null <==> |psk| == 32
      ensures hs != null ==> fresh(hs) && fresh(hs.sym) && hs.sym.cipher == null && hs.Valid() && !hs.failed
      ensures hs != null ==> hs.Value() == Start(initiator, psk, prologue)
    {
      if |psk| != KEY_SIZE {
        return null;
      }
      hs := new Handshake.Fresh(initiator, psk, prologue);
    }

    constructor Fresh(initiator: bool, psk: Text, prologue: Text)
      requires |psk| == KEY_SIZE
      ensures fresh(sym) && sym.cipher == null && Valid() && !failed
      ensures Value() == Start(initiator, psk, prologue)
    {
      var state := new Symmetric(prologue);
      this.initiator, this.psk, sym := initiator, psk, state;
      e, re, stage, failed := None, None, InitiatorMessage, false;
    }

    /** The secret of the two ephemerals, mixed in. */
    method MixDh(secret: nat, point: seq<Cell>) returns (ok: bool)
      requires |point| == PUBLIC_KEY_SIZE
      modifies sym
      ensures fresh(sym.cipher) || sym.cipher == old(sym.cipher)
      ensures var r := MixEe(ResponderMessage, old(sym.Value()), secret, point);
        ok == r.Some? && sym.Value() == (if ok then r.value else old(sym.Value()))
    {
      var shared := Dh(secret, point);
      if shared.None? {
        return false;
      }
      sym.MixKeyIn(shared.value);
      return true;
    }

    /** This side's next message. A refusal of the turn changes nothing; any other is for good. */
    method WriteMessage(payload: Text, random: Option<nat>) returns (message: seq<Cell>, err: Option<Refused>)
      requires Valid()
      modifies this, sym, sym.cipher
      ensures Valid() && (fresh(sym.cipher) || sym.cipher == old(sym.cipher))
      ensures old(failed) ==> err == Some(HasFailed) && failed
      ensures !old(failed) && !old(Value()).Speaks() ==>
                && err == Some(if old(stage) == Complete then IsComplete else NotItsTurn)
                && !failed && Value() == old(Value())
      ensures !old(failed) && old(Value()).Speaks() ==>
                var r := WriteStep(old(Value()), payload, random);
                if r.Some? then err.None? && !failed && (Value(), message) == r.value
                else err == Some(BadMessage) && failed
    {
      hide Dh, MixHash, MixKey, MixKeyAndHash;
      message := [];
      if failed {
        return message, Some(HasFailed);
      }
      if stage == Complete {
        return message, Some(IsComplete);
      }
      if initiator != (stage == InitiatorMessage) {
        return message, Some(NotItsTurn);
      }
      if stage == InitiatorMessage {
        sym.MixKeyAndHashIn(Octets(ClearAll(psk)));
      }
      if random.None? {
        failed := true;
        return message, Some(BadMessage);
      }
      e := random;
      var public := PublicKey(random.value);
      sym.MixHashIn(Octets(public));
      sym.MixKeyIn(Octets(public));
      if stage == ResponderMessage {
        var ok := MixDh(random.value, re.value);
        if !ok {
          failed := true;
          return message, Some(BadMessage);
        }
      }
      var c := sym.Encrypt(payload);
      if c.None? {
        failed := true;
        return message, Some(BadMessage);
      }
      stage := After(stage);
      return public + c.value, None;
    }

    /** The other side's next message. Refusals of turn or length change nothing; any other is for good. */
    method ReadMessage(message: seq<Cell>) returns (payload: Text, err: Option<Refused>)
      requires Valid()
      modifies this, sym, sym.cipher
      ensures Valid() && (fresh(sym.cipher) || sym.cipher == old(sym.cipher))
      ensures old(failed) ==> err == Some(HasFailed) && failed
      ensures !old(failed) && !old(Value()).Listens() ==>
                && err == Some(if old(stage) == Complete then IsComplete else NotItsTurn)
                && !failed && Value() == old(Value())
      ensures !old(failed) && old(Value()).Listens() && |message| < HANDSHAKE_MESSAGE_SIZE ==>
                err == Some(TooShort) && !failed && Value() == old(Value())
      ensures !old(failed) && old(Value()).Listens() && |message| >= HANDSHAKE_MESSAGE_SIZE ==>
                var r := ReadStep(old(Value()), message);
                if r.Some? then err.None? && !failed && (Value(), payload) == r.value
                else err == Some(BadMessage) && failed
    {
      hide Dh, MixHash, MixKey, MixKeyAndHash;
      payload := [];
      if failed {
        return payload, Some(HasFailed);
      }
      if stage == Complete {
        return payload, Some(IsComplete);
      }
      if initiator == (stage == InitiatorMessage) {
        return payload, Some(NotItsTurn);
      }
      if |message| < HANDSHAKE_MESSAGE_SIZE {
        return payload, Some(TooShort);
      }
      if stage == InitiatorMessage {
        sym.MixKeyAndHashIn(Octets(ClearAll(psk)));
      }
      var point := message[..PUBLIC_KEY_SIZE];
      re := Some(point);
      sym.MixHashIn(Octets(point));
      sym.MixKeyIn(Octets(point));
      if stage == ResponderMessage {
        var ok := MixDh(e.value, point);
        if !ok {
          failed := true;
          return payload, Some(BadMessage);
        }
      }
      var text := sym.Decrypt(message[PUBLIC_KEY_SIZE..]);
      if text.None? {
        failed := true;
        return payload, Some(BadMessage);
      }
      stage := After(stage);
      return text.value, None;
    }

    /** The two transport ciphers, counters at zero: what this side sends with, and what it receives with. */
    method Split() returns (send: CipherState?, receive: CipherState?, err: Option<Refused>)
      requires Valid()
      ensures err == (if failed then Some(HasFailed) else if stage != Complete then Some(NotItsTurn) else None)
      ensures err.None? ==> send != null && receive != null && fresh(send) && fresh(receive) && send != receive
      ensures err.None? ==> send.nonce == 0 == receive.nonce && (send.key, receive.key) == SplitKeys(Value())
    {
      if failed {
        return null, null, Some(HasFailed);
      }
      if stage != Complete {
        return null, null, Some(NotItsTurn);
      }
      var first := new CipherState(Derived(sym.ck, Octets([]), 0));
      var second := new CipherState(Derived(sym.ck, Octets([]), 1));
      if initiator {
        return first, second, None;
      }
      return second, first, None;
    }
  }

  /** A responder asked to speak out of turn, and then given a message that is too short, refuses both and still
      completes: neither refusal is for good. */
  method RefusedAndStillDone(psk: Text, prologue: Text, a: nat, b: nat)
      returns (early: Option<Refused>, short: Option<Refused>, done: bool)
    requires |psk| == KEY_SIZE
    ensures early == Some(NotItsTurn) && short == Some(TooShort) && done
  {
    hide WriteStep, ReadStep;
    var initiator := Handshake.New(true, psk, prologue);
    var responder := Handshake.New(false, psk, prologue);
    HonestAgreement(psk, prologue, a, b, [], []);
    OneRound(psk, prologue, a, b);
    var _, refused := responder.WriteMessage([], Some(b));
    var _, tooShort := responder.ReadMessage([]);
    early, short := refused, tooShort;
    var opening, e1 := initiator.WriteMessage([], Some(a));
    var _, e2 := responder.ReadMessage(opening);
    var answer, e3 := responder.WriteMessage([], Some(b));
    var _, e4 := initiator.ReadMessage(answer);
    done := e1.None? && e2.None? && e3.None? && e4.None?
            && initiator.stage == Complete && responder.stage == Complete;
  }

  /** Whose turn it is, message by message. */
  lemma OneRound(psk: Text, prologue: Text, a: nat, b: nat)
    requires |psk| == KEY_SIZE
    ensures Start(true, psk, prologue).Speaks() && Start(false, psk, prologue).Listens()
    ensures var first := WriteStep(Start(true, psk, prologue), [], Some(a));
            && first.Some? && |first.value.1| >= HANDSHAKE_MESSAGE_SIZE && first.value.0.Valid()
                 && first.value.0.Listens()
            && var heard := ReadStep(Start(false, psk, prologue), first.value.1);
            && heard.Some? && heard.value.0.Valid() && heard.value.0.Speaks()
            && var answer := WriteStep(heard.value.0, [], Some(b));
            && answer.Some? && answer.value.0.stage == Complete && |answer.value.1| >= HANDSHAKE_MESSAGE_SIZE
            && var last := ReadStep(first.value.0, answer.value.1);
            && last.Some? && last.value.0.stage == Complete
  {
    HonestAgreement(psk, prologue, a, b, [], []);
    var (i1, m1) := WriteStep(Start(true, psk, prologue), [], Some(a)).value;
    var r1 := ReadStep(Start(false, psk, prologue), m1).value.0;
    ReadInvertsWrite(Start(true, psk, prologue), Start(false, psk, prologue), [], a);
    DhCommutes(a, b);
    ReadInvertsWrite(r1, i1, [], b);
  }
}
