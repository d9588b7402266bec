/** The record stream: chunking and sealing on one side, reading back in place on the other, and what a network
    that drops, repeats, reorders, cuts or alters cells can make of it. */
module Records {
  import opened Wire
  import opened Symbolic

  const MIN_RECORD_SIZE := TAG_SIZE + 1
  /** What k records add to their plaintexts: each a length of two octets and a tag of sixteen. */
  function Overhead(k: nat): nat { 18 * k }

  function Concat(ps: seq<Text>): Text {
    if ps == [] then [] else Concat(ps[..|ps| - 1]) + ps[|ps| - 1]
  }

  // ---------- chunks ----------

  function FirstChunk(p: Text): (c: Text)
    ensures |c| <= |p| && |c| <= MAX_PLAINTEXT_SIZE && c == p[..|c|] && (p != [] ==> c != [])
  {
    if |p| > MAX_PLAINTEXT_SIZE then p[..MAX_PLAINTEXT_SIZE] else p
  }

  /** The plaintexts of the records one write becomes. */
  function Chunks(p: Text): (cs: seq<Text>)
    decreases |p|
  {
    if p == [] then [] else [FirstChunk(p)] + Chunks(p[|FirstChunk(p)|..])
  }

  lemma {:induction false} ConcatFront(x: Text, ps: seq<Text>)
    ensures Concat([x] + ps) == x + Concat(ps)
  {
    hide Concat;
    ConcatNothing();
    if ps == [] {
      ConcatLast([], x);
      assert [x] + ps == [] + [x];
    } else {
      var init, last := ps[..|ps| - 1], ps[|ps| - 1];
      assert ps == init + [last] && [x] + ps == [x] + init + [last];
      ConcatFront(x, init);
      ConcatLast(init, last);
      ConcatLast([x] + init, last);
      assert x + Concat(init) + last == x + (Concat(init) + last);
    }
  }

  lemma ConcatNothing()
    ensures Concat([]) == []
  {
  }

  lemma ConcatLast(ps: seq<Text>, p: Text)
    ensures Concat(ps + [p]) == Concat(ps) + p
  {
    var all := ps + [p];
    assert all[..|all| - 1] == ps && all[|all| - 1] == p;
  }

  lemma {:induction false} ConcatSplit(ps: seq<Text>, qs: seq<Text>)
    ensures Concat(ps + qs) == Concat(ps) + Concat(qs)
  {
    hide Concat;
    if qs == [] {
      ConcatNothing();
      assert ps + qs == ps;
    } else {
      var init, last := qs[..|qs| - 1], qs[|qs| - 1];
      assert qs == init + [last] && ps + qs == ps + init + [last];
      ConcatSplit(ps, init);
      ConcatLast(init, last);
      ConcatLast(ps + init, last);
      assert Concat(ps) + Concat(init) + last == Concat(ps) + (Concat(init) + last);
    }
  }

  lemma {:induction false} ConcatPrefix(ps: seq<Text>, n: nat)
    requires n <= |ps|
    ensures Concat(ps[..n]) <= Concat(ps)
  {
    assert ps == ps[..n] + ps[n..];
    ConcatSplit(ps[..n], ps[n..]);
  }

  /** A write of n octets makes ceil(n / 65519) records, all but the last full. */
  lemma {:induction false} ChunksArithmetic(p: Text)
    ensures |Chunks(p)| == (|p| + 65518) / 65519
    ensures forall i :: 0 <= i < |Chunks(p)| - 1 ==> |Chunks(p)[i]| == 65519
    ensures forall i :: 0 <= i < |Chunks(p)| ==> 17 <= |Chunks(p)[i]| + 16 <= 65535
    decreases |p|
  {
    if p != [] {
      ChunksArithmetic(p[|FirstChunk(p)|..]);
    }
  }

  /** And it loses nothing. */
  lemma {:induction false} ChunksConcat(p: Text)
    ensures Concat(Chunks(p)) == p
    decreases |p|
  {
    hide Concat;
    if p == [] {
      ConcatNothing();
    } else {
      var c, rest := FirstChunk(p), p[|FirstChunk(p)|..];
      ChunksConcat(rest);
      ConcatFront(c, Chunks(rest));
    }
  }

  lemma NoChunks()
    ensures Chunks([]) == []
  {
  }

  lemma Regroup<T>(front: seq<T>, x: T, tail: seq<T>)
    ensures front + ([x] + tail) == front + [x] + tail && front + [x] <= front + ([x] + tail)
  {
  }

  /** The chunk a write comes to next, behind those it has sealed. */
  lemma ChunkStep(sealed: seq<Text>, rest: Text)
    requires rest != []
    ensures 1 <= |FirstChunk(rest)| <= MAX_PLAINTEXT_SIZE
    ensures Chunks(rest) == [FirstChunk(rest)] + Chunks(rest[|FirstChunk(rest)|..])
    ensures sealed + Chunks(rest) == sealed + [FirstChunk(rest)] + Chunks(rest[|FirstChunk(rest)|..])
    ensures sealed + [FirstChunk(rest)] <= sealed + Chunks(rest)
  {
    Regroup(sealed, FirstChunk(rest), Chunks(rest[|FirstChunk(rest)|..]));
    hide FirstChunk;
  }

  // ---------- what honest writing looks like ----------

  /** The u16 length in front of a record, in the clear. */
  function LengthHeader(size: nat): (c: seq<Cell>)
    ensures |c| == 2
  {
    ClearAll(LittleEndian(2, size))
  }

  function Record(key: Term, nonce: nat, plain: Text): (c: seq<Cell>)
    ensures |c| == 2 + |plain| + TAG_SIZE
  {
    LengthHeader(|plain| + TAG_SIZE) + Seal(key, nonce, None, plain)
  }

  /** The records of plaintexts sent[from..], the counter being the index. */
  function RecordsFrom(key: Term, sent: seq<Text>, from: nat): seq<Cell>
    requires from <= |sent|
    decreases |sent| - from
  {
    if from == |sent| then [] else Record(key, from, sent[from]) + RecordsFrom(key, sent, from + 1)
  }

  lemma {:induction false} RecordsGrow(key: Term, sent: seq<Text>, p: Text, from: nat)
    requires from <= |sent|
    ensures RecordsFrom(key, sent + [p], from) == RecordsFrom(key, sent, from) + Record(key, |sent|, p)
    decreases |sent| - from
  {
    if from < |sent| {
      RecordsGrow(key, sent, p, from + 1);
      assert (sent + [p])[from] == sent[from];
    } else {
      assert RecordsFrom(key, sent + [p], from + 1) == [];
      assert Record(key, from, p) + [] == Record(key, from, p) == [] + Record(key, from, p);
    }
  }

  /** Every record of a direction has its own counter, and the counter names the plaintext. */
  lemma {:induction false} SealedOnce(key: Term, sent: seq<Text>, from: nat, c: Cell)
    requires from <= |sent| && c in RecordsFrom(key, sent, from) && c.Sealed?
    ensures from <= c.nonce < |sent| && c.plain == sent[c.nonce] && c.key == key && c.ad == None
    decreases |sent| - from
  {
    if c !in Record(key, from, sent[from]) {
      SealedOnce(key, sent, from + 1, c);
    }
  }

  /** The cipher is never given the same twelve nonce octets for two plaintexts of a direction. */
  lemma NeverTwoPlaintexts(key: Term, sent: seq<Text>, c: Cell, d: Cell)
    requires |sent| <= NONCE_RESERVED && c in RecordsFrom(key, sent, 0) && d in RecordsFrom(key, sent, 0)
    requires c.Sealed? && d.Sealed? && NonceBytes(c.nonce) == NonceBytes(d.nonce)
    ensures c.nonce == d.nonce && c.plain == d.plain
  {
    hide NonceBytes;
    SealedOnce(key, sent, 0, c);
    SealedOnce(key, sent, 0, d);
    NoncesDistinct(c.nonce, d.nonce);
  }

  // ---------- the writer ----------

  /** A connection that takes so many cells and no more: once it has failed it stays dead. */
  class Transport {
    var taken: seq<Cell>
    var room: nat

    constructor (room: nat)
      ensures taken == [] && this.room == room
    {
      taken, this.room := [], room;
    }

    method Write(c: seq<Cell>) returns (ok: bool)
      modifies this
      ensures ok <==> |c| <= old(room)
      ensures ok ==> taken == old(taken) + c && room == old(room) - |c|
      ensures !ok ==> taken == old(taken) + c[..old(room)] && room == 0
    {
      if |c| > room {
        taken, room := taken + c[..room], 0;
        return false;
      }
      taken, room := taken + c, room - |c|;
      return true;
    }
  }

  class RecordWriter {
    const w: Transport
    const cipher: CipherState
    var buf: seq<Cell>
    /** The plaintexts sealed so far, one a record. */
    ghost var sent: seq<Text>
    ghost var broken: bool

    /** The counter is the number of records, and the transport holds them all, or a prefix once it broke. */
    ghost predicate Valid()
      reads this, w, cipher
    {
      && cipher.nonce == |sent| <= NONCE_RESERVED
      && w.taken <= RecordsFrom(cipher.key, sent, 0)
      && (!broken ==> w.taken == RecordsFrom(cipher.key, sent, 0))
      && (broken ==> w.room == 0)
      && forall i :: 0 <= i < |sent| ==> 1 <= |sent[i]| <= MAX_PLAINTEXT_SIZE
    }

    constructor (w: Transport, cipher: CipherState)
      requires w.taken == [] && cipher.nonce == 0
      ensures Valid() && this.w == w && this.cipher == cipher && sent == [] && !broken
    {
      this.w, this.cipher := w, cipher;
      buf, sent, broken := [], [], false;
    }

    /** Seals one chunk and writes its record. */
    method WriteRecord(chunk: Text) returns (ok: bool)
      requires Valid() && 1 <= |chunk| <= MAX_PLAINTEXT_SIZE
      modifies this, w, cipher
      ensures Valid()
      ensures ok <==> old(cipher.nonce) != NONCE_RESERVED && |chunk| + Overhead(1) <= old(w.room)
      ensures sent == if old(cipher.nonce) == NONCE_RESERVED then old(sent) else old(sent) + [chunk]
      ensures ok ==> w.room == old(w.room) - |chunk| - Overhead(1) && broken == old(broken)
      ensures cipher.nonce == old(cipher.nonce) + (|sent| - |old(sent)|) <= NONCE_RESERVED
    {
      hide RecordsFrom;
      buf := [Clear(0), Clear(0)];
      var record, sealed := cipher.SealNext(buf, None, chunk);
      if !sealed {
        return false;
      }
      buf := LengthHeader(|record| - 2) + record[2..];
      assert buf == Record(cipher.key, |sent|, chunk);
      RecordsGrow(cipher.key, sent, chunk, 0);
      sent := sent + [chunk];
      ok := w.Write(buf);
      broken := broken || !ok;
    }

    /** Writes p as few records as it fits in. It succeeds exactly when the counters and the connection last for
        all of them; a write that fails has sealed the first of them. */
    method Write(p: Text) returns (written: nat, ok: bool)
      requires Valid()
      modifies this, w, cipher
      ensures Valid()
      ensures ok <==> old(cipher.nonce) + |Chunks(p)| <= NONCE_RESERVED && |p| + Overhead(|Chunks(p)|) <= old(w.room)
      ensures ok ==> written == |p| && sent == old(sent) + Chunks(p) && broken == old(broken)
      ensures old(sent) <= sent <= old(sent) + Chunks(p)
    {
      assert cipher.nonce <= NONCE_RESERVED;
      hide Record, RecordsFrom, Chunks, FirstChunk, Valid, Concat;
      ghost var all, cs := sent + Chunks(p), Chunks(p);
      written, ok := 0, true;
      var rest := p;
      while ok && rest != []
        invariant Valid() && old(sent) <= sent <= all && written + |rest| == |p|
        invariant ok ==> sent + Chunks(rest) == all && broken == old(broken)
        invariant ok ==> cipher.nonce + |Chunks(rest)| == old(cipher.nonce) + |cs| && cipher.nonce <= NONCE_RESERVED
        invariant ok ==> w.room - |rest| - Overhead(|Chunks(rest)|) == old(w.room) - |p| - Overhead(|cs|)
        invariant !ok ==> old(cipher.nonce) + |cs| > NONCE_RESERVED || |p| + Overhead(|cs|) > old(w.room)
        decreases ok, |rest|
      {
        var chunk := FirstChunk(rest);
        ChunkStep(sent, rest);
        ok := WriteRecord(chunk);
        if ok {
          written := written + |chunk|;
          rest := rest[|chunk|..];
        }
      }
      NoChunks();
    }
  }

  // ---------- the reader as a value ----------

  datatype RecordError = Eof | Cut | Malformed | Forged

  /** The counter, what the network has yet to deliver, and what is left of the last record. */
  datatype Reader = Reader(nonce: nat, net: seq<Cell>, plain: Text)

  /** The octet a cell shows to somebody who just reads it: a clear one its own, any other whatever it may be. */
  ghost predicate Faithful(view: Cell -> byte) {
    forall b: byte :: view(Clear(b)) == b
  }

  /** The u16 a reader takes two cells for. */
  function SizeOf(view: Cell -> byte, header: seq<Cell>): (n: u16)
    requires |header| == 2
  {
    Widths();
    assert |[view(header[0]), view(header[1])]| == 2;
    FromLittleEndian([view(header[0]), view(header[1])])
  }

  function NextRecord(key: Term, view: Cell -> byte, r: Reader): (Reader, Option<RecordError>) {
    if |r.net| < 2 then (r.(net := []), Some(if r.net == [] then Eof else Cut))
    else
      var size, rest := SizeOf(view, r.net[..2]), r.net[2..];
      if size < MIN_RECORD_SIZE then (r.(net := rest), Some(Malformed))
      else if |rest| < size then (r.(net := []), Some(if rest == [] then Eof else Cut))
      else
        var found := if r.nonce == NONCE_RESERVED then None else Open(key, r.nonce, None, rest[..size]);
        match found
        case None => (r.(net := rest[size..]), Some(Forged))
        case Some(plain) => (Reader(r.nonce + 1, rest[size..], plain), None)
  }

  lemma SizeIs(view: Cell -> byte, header: seq<Cell>)
    requires |header| == 2
    ensures SizeOf(view, header) == view(header[0]) + 0x100 * view(header[1]) as int
  {
    var octets: Text := [view(header[0]), view(header[1])];
    var second: Text := octets[1..];
    assert second == [view(header[1])] && second[1..] == [];
    assert FromLittleEndian(second) == second[0] + 256 * FromLittleEndian(second[1..]);
    assert FromLittleEndian(octets) == octets[0] + 256 * FromLittleEndian(second);
  }

  /** What the next two octets and what follows them decide: nothing there, too little there, a length no record has,
      a record, or a forgery. */
  lemma NextOutcome(key: Term, view: Cell -> byte, r: Reader)
    ensures var (next, err) := NextRecord(key, view, r);
            var n, size := |r.net|, if |r.net| >= 2 then view(r.net[0]) + 0x100 * view(r.net[1]) as int else 0;
            && (err == Some(Eof) <==> n == 0 || (n == 2 && size >= 17))
            && (err == Some(Cut) <==> n == 1 || (n > 2 && size >= 17 && n < 2 + size))
            && (err == Some(Malformed) <==> n >= 2 && size < 17)
            && (err == None <==>
                  && size >= 17 && n >= 2 + size && r.nonce != 0xFFFF_FFFF_FFFF_FFFF
                  && exists plain :: r.net[2..2 + size] == Seal(key, r.nonce, None, plain))
            && (err == None ==> next.nonce == r.nonce + 1 && next.net == r.net[2 + size..])
            && (err == None ==> r.net[2..2 + size] == Seal(key, r.nonce, None, next.plain))
            && (err != None ==> next.nonce == r.nonce && next.plain == r.plain)
  {
    hide SizeOf;
    if |r.net| >= 2 {
      SizeIs(view, r.net[..2]);
      var size, rest := SizeOf(view, r.net[..2]), r.net[2..];
      if size >= 17 && |rest| >= size {
        var c := rest[..size];
        assert r.net[2..2 + size] == c && rest[size..] == r.net[2 + size..];
        forall plain ensures Open(key, r.nonce, None, c) == Some(plain) <==> c == Seal(key, r.nonce, None, plain) {
          OpensExactlySealed(key, r.nonce, None, c, plain);
        }
      }
    }
  }

  /** One read into a buffer of n octets: the state after it, the octets handed out and the error if any. */
  function ReadStep(key: Term, view: Cell -> byte, r: Reader, n: nat): (Reader, Text, Option<RecordError>) {
    var (next, err) := if r.plain == [] then NextRecord(key, view, r) else (r, None);
    if err.Some? then (next, [], err)
    else
      var k := if n <= |next.plain| then n else |next.plain|;
      (next.(plain := next.plain[k..]), next.plain[..k], None)
  }

  // ---------- the reader as it runs ----------

  class RecordReader {
    const cipher: CipherState
    const view: Cell -> byte
    /** What the network has yet to deliver. */
    var net: seq<Cell>
    /** Holds a ciphertext and then, in the same place, its plaintext. */
    var record: array<Cell>
    /** The undelivered plaintext is record[lo..hi]. */
    var lo: nat
    var hi: nat
    ghost var plain: Text

    ghost predicate Valid()
      reads this, record
    {
      && lo <= hi <= record.Length
      && |plain| == hi - lo
      && forall i :: 0 <= i < |plain| ==> record[lo + i] == Clear(plain[i])
    }

    ghost function Value(): Reader
      reads this, cipher
    {
      Reader(cipher.nonce, net, plain)
    }

    constructor (cipher: CipherState, view: Cell -> byte, net: seq<Cell>)
      ensures Valid() && fresh(record) && this.cipher == cipher && this.view == view
      ensures Value() == Reader(cipher.nonce, net, [])
    {
      this.cipher, this.view, this.net := cipher, view, net;
      record := new Cell[0];
      lo, hi, plain := 0, 0, [];
    }

    /** Takes one ciphertext off the network into the buffer, a new one if the old is too small. */
    method Load(size: nat)
      requires Valid() && plain == [] && size <= |net|
      modifies this, record
      ensures Valid() && plain == [] && (record == old(record) || fresh(record))
      ensures size <= record.Length && record[..size] == old(net)[..size] && net == old(net)[size..]
    {
      if record.Length < size {
        record := new Cell[size](_ => Clear(0));
        lo, hi := 0, 0;
      }
      forall i | 0 <= i < size {
        record[i] := net[i];
      }
      net := net[size..];
    }

    /** Decrypts the ciphertext in the buffer over itself. */
    method Unseal(size: nat) returns (ok: bool)
      requires Valid() && plain == [] && size <= record.Length && size <= MAX_MESSAGE_SIZE
      modifies this`lo, this`hi, this`plain, record, cipher
      ensures Valid()
      ensures var c := old(record[..size]);
              var found := if old(cipher.nonce) == NONCE_RESERVED then None
                else Open(cipher.key, old(cipher.nonce), None, c);
              && ok == found.Some?
              && plain == (if ok then found.value else [])
              && cipher.nonce == old(cipher.nonce) + if ok then 1 else 0
    {
      ghost var c := record[..size];
      var text;
      text, ok := cipher.OpenNext(None, record[..size]);
      if !ok {
        return;
      }
      OpensExactlySealed(cipher.key, old(cipher.nonce), None, c, text);
      forall i | 0 <= i < |text| {
        record[i] := Clear(text[i]);
      }
      lo, hi, plain := 0, |text|, text;
    }

    /** Reads and decrypts one record; only ever called with nothing left of the last. */
    method Next() returns (err: Option<RecordError>)
      requires Valid() && plain == []
      modifies this, record, cipher
      ensures Valid() && (record == old(record) || fresh(record))
      ensures (Value(), err) == NextRecord(cipher.key, view, old(Value()))
    {
      hide SizeOf, Open;
      if |net| < 2 {
        err := Some(if net == [] then Eof else Cut);
        net := [];
        return;
      }
      var size := SizeOf(view, net[..2]);
      net := net[2..];
      if size < MIN_RECORD_SIZE {
        return Some(Malformed);
      }
      if |net| < size {
        err := Some(if net == [] then Eof else Cut);
        net := [];
        return;
      }
      Load(size);
      var ok := Unseal(size);
      err := if ok then None else Some(Forged);
    }

    /** Copies as much undelivered plaintext as p holds. */
    method HandOut(p: array<byte>) returns (n: nat)
      requires Valid()
      modifies this`lo, this`plain, p
      ensures Valid()
      ensures n == (if p.Length <= |old(plain)| then p.Length else |old(plain)|)
      ensures p[..n] == old(plain)[..n] && p[n..] == old(p[..])[n..] && plain == old(plain)[n..]
    {
      n := if p.Length <= hi - lo then p.Length else hi - lo;
      forall i | 0 <= i < n {
        p[i] := (match record[lo + i] case Clear(b) => b case _ => 0);
      }
      lo, plain := lo + n, plain[n..];
    }

    /** Hands out what is left of the last record, reading one more when nothing is. */
    method Read(p: array<byte>) returns (n: nat, err: Option<RecordError>)
      requires Valid()
      modifies this, record, cipher, p
      ensures Valid() && (record == old(record) || fresh(record))
      ensures n <= p.Length && p[n..] == old(p[..])[n..]
      ensures (Value(), p[..n], err) == ReadStep(cipher.key, view, old(Value()), p.Length)
    {
      hide NextRecord;
      if lo == hi {
        err := Next();
        if err.Some? {
          n := 0;
          return;
        }
      }
      n := HandOut(p);
      err := None;
    }
  }

  // ---------- any network ----------

  /** The sealed cells under this key that are on the net all came from the records of sent. */
  ghost predicate OnlyFrom(key: Term, sent: seq<Text>, net: seq<Cell>) {
    forall c :: c in net && c.Sealed? && c.key == key ==> c in RecordsFrom(key, sent, 0)
  }

  /** What was handed out and what is left to hand out are the records accepted so far, in order. */
  ghost predicate InStep(key: Term, sent: seq<Text>, r: Reader, delivered: Text) {
    && r.nonce <= |sent|
    && delivered + r.plain == Concat(sent[..r.nonce])
    && OnlyFrom(key, sent, r.net)
  }

  lemma NextInStep(key: Term, view: Cell -> byte, sent: seq<Text>, r: Reader, delivered: Text)
    requires InStep(key, sent, r, delivered) && r.plain == []
    ensures InStep(key, sent, NextRecord(key, view, r).0, delivered)
  {
    var (next, err) := NextRecord(key, view, r);
    assert forall c :: c in next.net ==> c in r.net;
    if err.None? {
      var size := SizeOf(view, r.net[..2]);
      var c := r.net[2..][..size];
      assert c[0] in r.net && c[0].Sealed?;
      OpensExactlySealed(key, r.nonce, None, c, next.plain);
      SealedOnce(key, sent, 0, c[0]);
      assert sent[..r.nonce + 1][..r.nonce] == sent[..r.nonce];
      assert delivered + [] == delivered;
    }
  }

  lemma ReadInStep(key: Term, view: Cell -> byte, sent: seq<Text>, r: Reader, delivered: Text, n: nat)
    requires InStep(key, sent, r, delivered)
    ensures var (next, out, _) := ReadStep(key, view, r, n);
            InStep(key, sent, next, delivered + out)
  {
    hide NextRecord, OnlyFrom;
    if r.plain == [] {
      NextInStep(key, view, sent, r, delivered);
    }
    var (mid, err) := if r.plain == [] then NextRecord(key, view, r) else (r, None);
    assert InStep(key, sent, mid, delivered);
    if err.None? {
      var k := if n <= |mid.plain| then n else |mid.plain|;
      assert mid.plain == mid.plain[..k] + mid.plain[k..];
      assert delivered + mid.plain == delivered + mid.plain[..k] + mid.plain[k..];
    } else {
      assert delivered + [] == delivered;
    }
  }

  /** Everything a run of reads of these sizes hands out, reading on even after a refusal. */
  function ReadAll(key: Term, view: Cell -> byte, r: Reader, sizes: seq<nat>): Text
    decreases |sizes|
  {
    if sizes == [] then []
    else
      var (next, out, _) := ReadStep(key, view, r, sizes[0]);
      out + ReadAll(key, view, next, sizes[1..])
  }

  lemma {:induction false} ReadAllInStep(key: Term, view: Cell -> byte, sent: seq<Text>, r: Reader, delivered: Text,
      sizes: seq<nat>)
    requires InStep(key, sent, r, delivered)
    ensures delivered + ReadAll(key, view, r, sizes) <= Concat(sent)
    decreases |sizes|
  {
    if sizes == [] {
      ConcatPrefix(sent, r.nonce);
      assert delivered + [] == delivered <= delivered + r.plain;
    } else {
      var (next, out, _) := ReadStep(key, view, r, sizes[0]);
      ReadInStep(key, view, sent, r, delivered, sizes[0]);
      ReadAllInStep(key, view, sent, next, delivered + out, sizes[1..]);
      assert delivered + out + ReadAll(key, view, next, sizes[1..])
        == delivered + (out + ReadAll(key, view, next, sizes[1..]));
    }
  }

  /** Whatever the network does short of forging a tag, and however the reader reads, what comes out is a prefix
      of what was written. */
  lemma PrefixUnderAttack(key: Term, view: Cell -> byte, sent: seq<Text>, net: seq<Cell>, sizes: seq<nat>)
    requires OnlyFrom(key, sent, net)
    ensures ReadAll(key, view, Reader(0, net, []), sizes) <= Concat(sent)
  {
    assert sent[..0] == [];
    ReadAllInStep(key, view, sent, Reader(0, net, []), [], sizes);
    assert [] + ReadAll(key, view, Reader(0, net, []), sizes) == ReadAll(key, view, Reader(0, net, []), sizes);
  }

  // ---------- an honest network ----------

  /** Plaintexts a writer can have sealed. */
  ghost predicate Writable(sent: seq<Text>) {
    |sent| <= NONCE_RESERVED && forall i :: 0 <= i < |sent| ==> 1 <= |sent[i]| <= MAX_PLAINTEXT_SIZE
  }

  lemma HeaderReads(view: Cell -> byte, size: nat)
    requires Faithful(view) && size < 0x1_0000
    ensures SizeOf(view, LengthHeader(size)) == size
  {
    Widths();
    IntegerRoundTrip(2, size);
    var b := LittleEndian(2, size);
    var header := LengthHeader(size);
    assert header[0] == Clear(b[0]) && header[1] == Clear(b[1]);
    assert [view(header[0]), view(header[1])] == b;
  }

  lemma NextHonest(key: Term, view: Cell -> byte, sent: seq<Text>, n: nat)
    requires Faithful(view) && Writable(sent) && n < |sent|
    ensures NextRecord(key, view, Reader(n, RecordsFrom(key, sent, n), []))
            == (Reader(n + 1, RecordsFrom(key, sent, n + 1), sent[n]), None)
  {
    var p, rest := sent[n], RecordsFrom(key, sent, n + 1);
    var net := RecordsFrom(key, sent, n);
    assert net == LengthHeader(|p| + TAG_SIZE) + Seal(key, n, None, p) + rest;
    assert net[..2] == LengthHeader(|p| + TAG_SIZE);
    HeaderReads(view, |p| + TAG_SIZE);
    assert net[2..][..|p| + TAG_SIZE] == Seal(key, n, None, p);
    assert net[2..][|p| + TAG_SIZE..] == rest;
    OpensExactlySealed(key, n, None, Seal(key, n, None, p), p);
  }

  /** Octets a reader at counter n with this left of its record has yet to hand out. */
  ghost function Owed(sent: seq<Text>, n: nat, plain: Text): Text
    requires n <= |sent|
  {
    plain + Concat(sent[n..])
  }

  /** One read of an honest stream hands out some of what is owed and leaves the rest owed. */
  lemma ReadHonest(key: Term, view: Cell -> byte, sent: seq<Text>, n: nat, plain: Text, size: nat)
      returns (m: nat, left: Text, out: Text)
    requires Faithful(view) && Writable(sent) && n <= |sent| && size >= 1
    requires plain != [] || n < |sent|
    ensures n <= m <= |sent| && out != [] && Owed(sent, n, plain) == out + Owed(sent, m, left)
    ensures ReadStep(key, view, Reader(n, RecordsFrom(key, sent, n), plain), size)
            == (Reader(m, RecordsFrom(key, sent, m), left), out, None)
  {
    hide NextRecord, RecordsFrom;
    var full := plain;
    m := n;
    if plain == [] {
      NextHonest(key, view, sent, n);
      ConcatFront(sent[n], sent[n + 1..]);
      assert sent[n..] == [sent[n]] + sent[n + 1..];
      m, full := n + 1, sent[n];
    }
    assert Owed(sent, m, full) == Owed(sent, n, plain);
    var k := if size <= |full| then size else |full|;
    left, out := full[k..], full[..k];
    assert full == out + left;
    assert out + left + Concat(sent[m..]) == out + (left + Concat(sent[m..]));
  }

  lemma {:induction false} ReadAllHonest(key: Term, view: Cell -> byte, sent: seq<Text>, n: nat, plain: Text,
      sizes: seq<nat>)
    requires Faithful(view) && Writable(sent) && n <= |sent|
    requires |sizes| >= |Owed(sent, n, plain)| && forall i :: 0 <= i < |sizes| ==> sizes[i] >= 1
    ensures ReadAll(key, view, Reader(n, RecordsFrom(key, sent, n), plain), sizes) == Owed(sent, n, plain)
    decreases |sizes|
  {
    if plain == [] && n == |sent| {
      assert sent[n..] == [];
      ReadAllSpent(key, view, Reader(n, RecordsFrom(key, sent, n), plain), sizes);
    } else {
      hide ReadStep, RecordsFrom;
      assert |Owed(sent, n, plain)| > 0 by {
        if plain == [] {
          ConcatFront(sent[n], sent[n + 1..]);
          assert sent[n..] == [sent[n]] + sent[n + 1..];
        }
      }
      var m, left, out := ReadHonest(key, view, sent, n, plain, sizes[0]);
      ReadAllHonest(key, view, sent, m, left, sizes[1..]);
    }
  }

  lemma {:induction false} ReadAllSpent(key: Term, view: Cell -> byte, r: Reader, sizes: seq<nat>)
    requires r.net == [] && r.plain == []
    ensures ReadAll(key, view, r, sizes) == []
    decreases |sizes|
  {
    if sizes != [] {
      ReadAllSpent(key, view, r, sizes[1..]);
    }
  }

  /** Over a network that delivers what was sent, enough reads of at least one octet hand out all of it. */
  lemma AllOverHonestNetwork(key: Term, view: Cell -> byte, sent: seq<Text>, sizes: seq<nat>)
    requires Faithful(view) && Writable(sent)
    requires |sizes| >= |Concat(sent)| && forall i :: 0 <= i < |sizes| ==> sizes[i] >= 1
    ensures ReadAll(key, view, Reader(0, RecordsFrom(key, sent, 0), []), sizes) == Concat(sent)
  {
    assert sent[0..] == sent;
    assert [] + Concat(sent) == Concat(sent);
    ReadAllHonest(key, view, sent, 0, [], sizes);
  }

  // ---------- what the reader does not promise ----------

  /** EOF is not only a record boundary: a stream cut right behind a length header ends the same way. */
  lemma EofExactly(key: Term, view: Cell -> byte, r: Reader)
    ensures NextRecord(key, view, r).1 == Some(Eof) <==>
              r.net == [] || (|r.net| == 2 && SizeOf(view, r.net) >= MIN_RECORD_SIZE)
  {
    if |r.net| == 2 {
      assert r.net[..2] == r.net;
    }
  }

  /** A stream of genuine records cut right behind a length header, for instance. */
  lemma CutBehindHeader(key: Term, view: Cell -> byte, sent: seq<Text>, n: nat)
    requires Faithful(view) && Writable(sent) && n < |sent|
    ensures var cut := RecordsFrom(key, sent, n)[..2];
            cut != [] && NextRecord(key, view, Reader(n, cut, [])).1 == Some(Eof)
  {
    HeaderReads(view, |sent[n]| + TAG_SIZE);
    var cut := RecordsFrom(key, sent, n)[..2];
    assert cut == LengthHeader(|sent[n]| + TAG_SIZE) && cut[..2] == cut;
  }

  /** A refusal leaves the counter where it was, so a reader asked again goes on: at any counter, behind a garbage
      record the genuine one is still accepted. Ending the stream is left to whoever reads. */
  lemma RefusalIsNotFinal(key: Term, view: Cell -> byte, sent: seq<Text>, n: nat, garbage: Text)
    requires Faithful(view) && Writable(sent) && n < |sent|
    requires MIN_RECORD_SIZE <= |garbage| <= MAX_MESSAGE_SIZE
    ensures var r := Reader(n, LengthHeader(|garbage|) + ClearAll(garbage) + RecordsFrom(key, sent, n), []);
            && NextRecord(key, view, r).1 == Some(Forged)
            && NextRecord(key, view, NextRecord(key, view, r).0)
                 == (Reader(n + 1, RecordsFrom(key, sent, n + 1), sent[n]), None)
  {
    hide RecordsFrom, LengthHeader;
    var genuine := RecordsFrom(key, sent, n);
    var net := LengthHeader(|garbage|) + ClearAll(garbage) + genuine;
    HeaderReads(view, |garbage|);
    assert net[..2] == LengthHeader(|garbage|) && net[2..] == ClearAll(garbage) + genuine;
    assert net[2..][..|garbage|] == ClearAll(garbage) && net[2..][|garbage|..] == genuine;
    NextHonest(key, view, sent, n);
  }

  /** A record is accepted only if its first cell behind the length was sealed at the reader's counter. */
  lemma AcceptedIsSealed(key: Term, view: Cell -> byte, r: Reader)
    requires NextRecord(key, view, r).1.None?
    ensures |r.net| > 2 && r.net[2].Sealed? && r.net[2].key == key && r.net[2].nonce == r.nonce
  {
    var c := r.net[2..][..SizeOf(view, r.net[..2])];
    OpensExactlySealed(key, r.nonce, None, c, NextRecord(key, view, r).0.plain);
    assert c[0] == r.net[2];
  }

  /** The counter is the defence all the same: while no record sealed at it is on its way, nothing is handed out,
      however much else arrives and however often the reader is asked. */
  lemma {:induction false} NothingWithoutItsRecord(key: Term, view: Cell -> byte, r: Reader, sizes: seq<nat>)
    requires r.plain == [] && forall c :: c in r.net && c.Sealed? && c.key == key ==> c.nonce != r.nonce
    ensures ReadAll(key, view, r, sizes) == []
    decreases |sizes|
  {
    if sizes != [] {
      var (next, err) := NextRecord(key, view, r);
      if err.None? {
        AcceptedIsSealed(key, view, r);
        assert false;
      }
      NothingWithoutItsRecord(key, view, next, sizes[1..]);
    }
  }

  /** The ciphertexts a reader that goes on after every refusal would cut from what is on the net. */
  function Tried(view: Cell -> byte, net: seq<Cell>): seq<seq<Cell>> {
    if |net| < 2 then []
    else
      var size, rest := SizeOf(view, net[..2]), net[2..];
      if size < MIN_RECORD_SIZE then Tried(view, rest)
      else if |rest| < size then []
      else [rest[..size]] + Tried(view, rest[size..])
  }

  ghost predicate OpensNone(key: Term, nonce: nat, cs: seq<seq<Cell>>) {
    forall i :: 0 <= i < |cs| ==> Open(key, nonce, None, cs[i]).None?
  }

  lemma OpensNoneStep(key: Term, nonce: nat, c: seq<Cell>, cs: seq<seq<Cell>>)
    ensures OpensNone(key, nonce, [c] + cs) <==> Open(key, nonce, None, c).None? && OpensNone(key, nonce, cs)
  {
    var all := [c] + cs;
    assert all[0] == c && forall i :: 0 <= i < |cs| ==> cs[i] == all[i + 1];
  }

  lemma {:induction false} SilentIfNoneOpens(key: Term, view: Cell -> byte, r: Reader, sizes: seq<nat>)
    requires r.plain == [] && OpensNone(key, r.nonce, Tried(view, r.net))
    ensures ReadAll(key, view, r, sizes) == []
    decreases |sizes|
  {
    hide OpensNone, Open;
    if sizes != [] {
      if |r.net| >= 2 {
        var size, rest := SizeOf(view, r.net[..2]), r.net[2..];
        if MIN_RECORD_SIZE <= size <= |rest| {
          OpensNoneStep(key, r.nonce, rest[..size], Tried(view, rest[size..]));
        }
      }
      NothingTried(key, view, r.nonce);
      SilentIfNoneOpens(key, view, NextRecord(key, view, r).0, sizes[1..]);
    }
  }

  lemma NothingTried(key: Term, view: Cell -> byte, nonce: nat)
    ensures OpensNone(key, nonce, Tried(view, []))
  {
  }

  lemma {:induction false} SpeaksIfOneOpens(key: Term, view: Cell -> byte, r: Reader) returns (sizes: seq<nat>)
    requires r.plain == [] && r.nonce != NONCE_RESERVED && !OpensNone(key, r.nonce, Tried(view, r.net))
    ensures ReadAll(key, view, r, sizes) != []
    decreases |r.net|
  {
    hide OpensNone, Open;
    NothingTried(key, view, r.nonce);
    assert Tried(view, []) == [];
    var (next, err) := NextRecord(key, view, r);
    if err.None? {
      OpenedIsLonger(key, r.nonce, r.net[2..][..SizeOf(view, r.net[..2])]);
      sizes := [1];
    } else {
      var size, rest := SizeOf(view, r.net[..2]), r.net[2..];
      if size >= MIN_RECORD_SIZE {
        OpensNoneStep(key, r.nonce, rest[..size], Tried(view, rest[size..]));
      }
      sizes := SpeaksIfOneOpens(key, view, next);
      var more := [1] + sizes;
      assert more[1..] == sizes;
      sizes := more;
    }
  }

  lemma OpenedIsLonger(key: Term, nonce: nat, c: seq<Cell>)
    requires Open(key, nonce, None, c).Some? && |c| >= MIN_RECORD_SIZE
    ensures Open(key, nonce, None, c).value != []
  {
    OpensExactlySealed(key, nonce, None, c, Open(key, nonce, None, c).value);
  }

  /** When a stream is over for good: however a reader with nothing left goes on, it gets nothing more, exactly if none
      of the ciphertexts it would still cut opens at its counter. */
  lemma OverForGoodExactly(key: Term, view: Cell -> byte, r: Reader)
    requires r.plain == [] && r.nonce != NONCE_RESERVED
    ensures (forall sizes :: ReadAll(key, view, r, sizes) == [])
        <==> forall i :: 0 <= i < |Tried(view, r.net)| ==> Open(key, r.nonce, None, Tried(view, r.net)[i]).None?
  {
    if OpensNone(key, r.nonce, Tried(view, r.net)) {
      forall sizes ensures ReadAll(key, view, r, sizes) == [] {
        SilentIfNoneOpens(key, view, r, sizes);
      }
    } else {
      var sizes := SpeaksIfOneOpens(key, view, r);
    }
  }
}
