/** The primitives as constructors: what is on a wire is a row of cells, and a cell of a ciphertext or of a
    public key remembers what made it. Opening a ciphertext inverts exactly the sealing that made it. */
module Symbolic {
  import opened Wire

  const TAG_SIZE := 16
  const KEY_SIZE := 32
  const PUBLIC_KEY_SIZE := 32
  const MAX_MESSAGE_SIZE := 65535
  const MAX_PLAINTEXT_SIZE := MAX_MESSAGE_SIZE - TAG_SIZE
  /** The counter value the Noise specification reserves; a stream that reaches it is finished. */
  const NONCE_RESERVED: nat := 0xFFFF_FFFF_FFFF_FFFF

  /** One octet on the wire. */
  datatype Cell =
    | Clear(b: byte)
    | Public(secret: nat, index: nat)
    | Sealed(key: Term, nonce: nat, ad: Option<Term>, plain: Text, index: nat)

  /** A hash output: a handshake hash, a chaining key or a cipher key. */
  datatype Term =
    | ProtocolName
    | Mixed(h: Term, data: Data)
    | Derived(ck: Term, ikm: Data, index: nat)

  /** What goes into a hash or a key derivation. */
  datatype Data =
    | Octets(cells: seq<Cell>)
    | Inner(t: Term)
    | Shared(low: nat, high: nat)
    | SharedWith(secret: nat, point: seq<Cell>)

  function ClearAll(p: Text): (c: seq<Cell>)
    ensures |c| == |p| && forall i :: 0 <= i < |p| ==> c[i] == Clear(p[i])
  {
    seq(|p|, i requires 0 <= i < |p| => Clear(p[i]))
  }

  function PublicKey(secret: nat): (c: seq<Cell>)
    ensures |c| == PUBLIC_KEY_SIZE && forall i :: 0 <= i < |c| ==> c[i] == Public(secret, i)
  {
    seq(PUBLIC_KEY_SIZE, i requires 0 <= i < PUBLIC_KEY_SIZE => Public(secret, i))
  }

  function Seal(key: Term, nonce: nat, ad: Option<Term>, plain: Text): (c: seq<Cell>)
    ensures |c| == |plain| + TAG_SIZE
    ensures forall i :: 0 <= i < |c| ==> c[i] == Sealed(key, nonce, ad, plain, i)
  {
    seq(|plain| + TAG_SIZE, i requires 0 <= i < |plain| + TAG_SIZE => Sealed(key, nonce, ad, plain, i))
  }

  function Open(key: Term, nonce: nat, ad: Option<Term>, c: seq<Cell>): Option<Text> {
    if |c| >= TAG_SIZE && c[0].Sealed? && c == Seal(key, nonce, ad, c[0].plain) then Some(c[0].plain) else None
  }

  /** The AEAD is ideal: a ciphertext opens to p under a key, counter and data if and only if it was sealed so. */
  lemma OpensExactlySealed(key: Term, nonce: nat, ad: Option<Term>, c: seq<Cell>, p: Text)
    ensures Open(key, nonce, ad, c) == Some(p) <==> c == Seal(key, nonce, ad, p)
  {
    if c == Seal(key, nonce, ad, p) {
      assert c[0] == Sealed(key, nonce, ad, p, 0);
    }
  }

  /** The counter as the suite writes it: four zero octets and a little-endian u64. */
  function NonceBytes(n: nat): (b: Text)
    ensures |b| == 12
  {
    [0, 0, 0, 0] + LittleEndian(8, n)
  }

  /** No two counters below the reserved one give the cipher the same nonce. */
  lemma NoncesDistinct(m: nat, n: nat)
    requires m <= NONCE_RESERVED && n <= NONCE_RESERVED
    ensures NonceBytes(m) == NonceBytes(n) <==> m == n
  {
    Widths();
    IntegerRoundTrip(8, m);
    IntegerRoundTrip(8, n);
    assert NonceBytes(m)[4..] == LittleEndian(8, m);
    assert NonceBytes(n)[4..] == LittleEndian(8, n);
  }

  /** One direction of messages: a key that never changes and a counter that is never reused. */
  class CipherState {
    const key: Term
    var nonce: nat

    constructor (key: Term)
      ensures this.key == key && nonce == 0
    {
      this.key, nonce := key, 0;
    }

    method SealNext(out: seq<Cell>, ad: Option<Term>, plain: Text) returns (sealed: seq<Cell>, ok: bool)
      modifies this
      ensures ok <==> old(nonce) != 0xFFFF_FFFF_FFFF_FFFF && |plain| <= 65519
      ensures ok ==> sealed == out + Seal(key, old(nonce), ad, plain) && nonce == old(nonce) + 1
      ensures !ok ==> nonce == old(nonce)
    {
      if nonce == NONCE_RESERVED || |plain| > MAX_PLAINTEXT_SIZE {
        return out, false;
      }
      sealed, ok := out + Seal(key, nonce, ad, plain), true;
      nonce := nonce + 1;
    }

    method OpenNext(ad: Option<Term>, c: seq<Cell>) returns (plain: Text, ok: bool)
      modifies this
      ensures ok <==> old(nonce) != 0xFFFF_FFFF_FFFF_FFFF && |c| <= 65535 && Open(key, old(nonce), ad, c).Some?
      ensures ok ==> c == Seal(key, old(nonce), ad, plain) && nonce == old(nonce) + 1
      ensures !ok ==> nonce == old(nonce)
    {
      if nonce == NONCE_RESERVED || |c| < TAG_SIZE || |c| > MAX_MESSAGE_SIZE {
        return [], false;
      }
      var found := Open(key, nonce, ad, c);
      if found.None? {
        return [], false;
      }
      plain, ok := found.value, true;
      nonce := nonce + 1;
    }
  }
}
