/** Headers between HTTP and the wire: what is dropped at a hop, in what order the rest travels, and what a hop gives
    back. */
module Headers {
  import opened Wire
  import opened Tokens

  /** Go's http.Header: the values of each name, in order. */
  type HttpHeader = map<Text, seq<Text>>

  const HOP_BY_HOP: set<Text> := {
    Ascii("Connection"), Ascii("Keep-Alive"), Ascii("Transfer-Encoding"), Ascii("Te"), Ascii("Trailer"),
    Ascii("Upgrade"), Ascii("Proxy-Connection"), Ascii("Host"), Ascii("Proxy-Authenticate")
  }

  // ---------- names ----------

  predicate TokenByte(b: byte) {
    || 0x30 <= b <= 0x39 || 0x41 <= b <= 0x5A || 0x61 <= b <= 0x7A
    || b in {0x21, 0x23, 0x24, 0x25, 0x26, 0x27, 0x2A, 0x2B, 0x2D, 0x2E, 0x5E, 0x5F, 0x60, 0x7C, 0x7E}
  }

  predicate Token(s: Text) {
    forall i :: 0 <= i < |s| ==> TokenByte(s[i])
  }

  function Cased(b: byte, upper: bool): byte {
    if upper && 0x61 <= b <= 0x7A then b - 0x20 else if !upper && 0x41 <= b <= 0x5A then b + 0x20 else b
  }

  /** A capital first and after every hyphen, no other. */
  function Capitalised(s: Text, upper: bool): (c: Text)
    ensures |c| == |s|
  {
    if s == [] then [] else [Cased(s[0], upper)] + Capitalised(s[1..], s[0] == 0x2D)
  }

  /** textproto.CanonicalMIMEHeaderKey: a name that is no token stays as it is. */
  function Canonical(name: Text): Text {
    if Token(name) then Capitalised(name, true) else name
  }

  lemma {:induction false} CapitalisedTwice(s: Text, upper: bool)
    ensures Capitalised(Capitalised(s, upper), upper) == Capitalised(s, upper)
    ensures Token(s) ==> Token(Capitalised(s, upper))
  {
    if s != [] {
      var rest := Capitalised(s[1..], s[0] == 0x2D);
      CapitalisedTwice(s[1..], s[0] == 0x2D);
      assert Capitalised(s, upper)[1..] == rest;
      assert Token(s) ==> Token(s[1..]) && TokenByte(s[0]);
      assert TokenByte(s[0]) ==> TokenByte(Cased(s[0], upper));
    }
  }

  /** There is one canonical spelling of a name. */
  lemma CanonicalTwice(name: Text)
    ensures Canonical(Canonical(name)) == Canonical(name)
  {
    CapitalisedTwice(name, true);
  }

  ghost predicate IsToken(s: Text) {
    forall i :: 0 <= i < |s| ==>
      || '0' as int <= s[i] <= '9' as int || 'a' as int <= s[i] <= 'z' as int || 'A' as int <= s[i] <= 'Z' as int
      || s[i] in Ascii("!#$%&'*+-.^_`|~")
  }

  /** Octet for octet: in a token the letters that come first or behind a hyphen are capitals and the others are not;
      anything else is left alone. */
  lemma CanonicalExactly(name: Text, i: nat)
    requires i < |name|
    ensures |Canonical(name)| == |name|
    ensures var was, now, first := name[i], Canonical(name)[i], i == 0 || name[i - 1] == '-' as int;
            if IsToken(name) && first && 'a' as int <= was <= 'z' as int then now == was - 32
            else if IsToken(name) && !first && 'A' as int <= was <= 'Z' as int then now == was + 32
            else now == was
  {
    TokenExactly(name);
    CapitalisedAt(name, true, i);
  }

  lemma TokenExactly(s: Text)
    ensures Token(s) <==> IsToken(s)
  {
    var marks := Ascii("!#$%&'*+-.^_`|~");
    assert marks == [0x21, 0x23, 0x24, 0x25, 0x26, 0x27, 0x2A, 0x2B, 0x2D, 0x2E, 0x5E, 0x5F, 0x60, 0x7C, 0x7E];
  }

  lemma {:induction false} CapitalisedAt(s: Text, upper: bool, i: nat)
    requires i < |s|
    ensures Capitalised(s, upper)[i] == Cased(s[i], if i == 0 then upper else s[i - 1] == 0x2D)
  {
    if i > 0 {
      CapitalisedAt(s[1..], s[0] == 0x2D, i - 1);
    }
  }

  // ---------- the order of names ----------

  predicate Leq(a: Text, b: Text) {
    a == [] || (b != [] && (a[0] < b[0] || (a[0] == b[0] && Leq(a[1..], b[1..]))))
  }

  lemma {:induction false} LeqTotal(a: Text, b: Text)
    ensures Leq(a, b) || Leq(b, a)
    ensures Leq(a, b) && Leq(b, a) ==> a == b
  {
    if a != [] && b != [] && a[0] == b[0] {
      LeqTotal(a[1..], b[1..]);
      assert a == [a[0]] + a[1..] && b == [b[0]] + b[1..];
    }
  }

  lemma {:induction false} LeqTransitive(a: Text, b: Text, c: Text)
    requires Leq(a, b) && Leq(b, c)
    ensures Leq(a, c)
  {
    if a != [] && a[0] == b[0] && b[0] == c[0] {
      LeqTransitive(a[1..], b[1..], c[1..]);
    }
  }

  /** Each name once, in order. */
  ghost predicate Ordered(names: seq<Text>) {
    forall i, j :: 0 <= i < j < |names| ==> Leq(names[i], names[j]) && names[i] != names[j]
  }

  function Elements(names: seq<Text>): set<Text> {
    set n | n in names
  }

  lemma HeadAndTail(names: seq<Text>)
    requires Ordered(names) && names != []
    ensures Ordered(names[1..]) && names[0] !in names[1..] && names == [names[0]] + names[1..]
    ensures Elements(names[1..]) == Elements(names) - {names[0]}
    ensures forall n :: n in names ==> Leq(names[0], n)
  {
    LeqTotal(names[0], names[0]);
    assert names == [names[0]] + names[1..];
  }

  /** There is one way to put a set of names in order. */
  lemma {:induction false} OrderedIsUnique(a: seq<Text>, b: seq<Text>)
    requires Ordered(a) && Ordered(b) && Elements(a) == Elements(b)
    ensures a == b
    decreases |a|
  {
    assert forall i :: 0 <= i < |a| ==> a[i] in Elements(a);
    assert forall i :: 0 <= i < |b| ==> b[i] in Elements(b);
    if a != [] {
      HeadAndTail(a);
      HeadAndTail(b);
      LeqTotal(a[0], b[0]);
      OrderedIsUnique(a[1..], b[1..]);
    }
  }

  function Insert(n: Text, names: seq<Text>): seq<Text> {
    if names == [] || Leq(n, names[0]) then [n] + names else [names[0]] + Insert(n, names[1..])
  }

  /** sort.Strings. */
  function Sort(names: seq<Text>): seq<Text> {
    if names == [] then [] else Insert(names[0], Sort(names[1..]))
  }

  lemma {:induction false} InsertOrdered(n: Text, names: seq<Text>)
    requires Ordered(names) && n !in names
    ensures Ordered(Insert(n, names)) && Elements(Insert(n, names)) == Elements(names) + {n}
  {
    if names != [] {
      HeadAndTail(names);
      if Leq(n, names[0]) {
        forall m | m in names ensures Leq(n, m) {
          LeqTransitive(n, names[0], m);
        }
      } else {
        LeqTotal(n, names[0]);
        var rest := Insert(n, names[1..]);
        InsertOrdered(n, names[1..]);
        forall m | m in rest ensures Leq(names[0], m) && m != names[0] {
          assert m in Elements(rest);
        }
        forall m ensures m in Elements(Insert(n, names)) <==> m in Elements(names) + {n} {
          assert m in Elements(rest) <==> m in Elements(names[1..]) + {n};
        }
      }
    }
  }

  ghost predicate Once(names: seq<Text>) {
    forall i, j :: 0 <= i < j < |names| ==> names[i] != names[j]
  }

  lemma {:induction false} SortOrders(names: seq<Text>)
    requires Once(names)
    ensures Ordered(Sort(names)) && Elements(Sort(names)) == Elements(names)
  {
    if names != [] {
      SortOrders(names[1..]);
      assert names == [names[0]] + names[1..];
      assert names[0] !in names[1..];
      assert names[0] !in Elements(Sort(names[1..]));
      InsertOrdered(names[0], Sort(names[1..]));
    }
  }

  /** Some order of a set of names, as Go's range over a map gives one. */
  ghost predicate Enumerates(order: seq<Text>, names: set<Text>) {
    Once(order) && Elements(order) == names
  }

  ghost function AnyOrder(names: set<Text>): (order: seq<Text>)
    ensures Enumerates(order, names)
  {
    if names == {} then []
    else
      var n :| n in names;
      var rest := AnyOrder(names - {n});
      assert n !in Elements(rest);
      assert Elements([n] + rest) == {n} + Elements(rest);
      [n] + rest
  }

  // ---------- Connection ----------

  /** The names in a list of tokens. */
  function Named(tokens: seq<Text>): set<Text> {
    if tokens == [] then {}
    else
      var t := Trimmed(tokens[0]);
      (if t == [] then {} else {Canonical(t)}) + Named(tokens[1..])
  }

  function NamedIn(values: seq<Text>): set<Text> {
    if values == [] then {} else Named(Split([], values[0])) + NamedIn(values[1..])
  }

  /** The names a Connection header lists. */
  function ConnectionHeaders(h: HttpHeader): set<Text> {
    if Ascii("Connection") in h then NamedIn(h[Ascii("Connection")]) else {}
  }

  ghost predicate ListedByConnection(h: HttpHeader, n: Text) {
    && Ascii("Connection") in h
    && exists v, i, j, t ::
         v in h[Ascii("Connection")] && Between(v, i, j) && Within(v[i..j], t) && n == Canonical(t)
  }

  /** A Connection header lists exactly the canonical spellings of what stands, between white space, between the commas
      of one of its values. */
  lemma ConnectionHeadersExactly(h: HttpHeader, n: Text)
    ensures n in ConnectionHeaders(h) <==> ListedByConnection(h, n)
  {
    hide Canonical, Split, Between, Within;
    if Ascii("Connection") in h {
      NamedInExactly(h[Ascii("Connection")], n);
    }
  }

  lemma {:induction false} NamedInExactly(values: seq<Text>, n: Text)
    ensures n in NamedIn(values) <==>
            exists v, i, j, t :: v in values && Between(v, i, j) && Within(v[i..j], t) && n == Canonical(t)
  {
    hide Canonical, Split, Between, Within, Named;
    if values != [] {
      var rest := values[1..];
      NamedInExactly(rest, n);
      NamedOf(values[0], n);
      assert values == [values[0]] + rest;
    }
  }

  lemma NamedOf(v: Text, n: Text)
    ensures n in Named(Split([], v)) <==> exists i, j, t :: Between(v, i, j) && Within(v[i..j], t) && n == Canonical(t)
  {
    hide Canonical, Split, Within, Named;
    NamedExactly(Split([], v), n);
    forall p ensures p in Split([], v) <==> exists i, j :: 0 <= i && Between(v, i, j) && v[i..j] == p {
      SplitExactly(v, 0, 0, p);
      assert v[0..0] == [] && v[0..] == v;
    }
  }

  lemma {:induction false} NamedExactly(tokens: seq<Text>, n: Text)
    ensures n in Named(tokens) <==> exists p, t :: p in tokens && Within(p, t) && n == Canonical(t)
  {
    hide Canonical, Within, Trimmed;
    if tokens != [] {
      var rest, t := tokens[1..], Trimmed(tokens[0]);
      NamedExactly(rest, n);
      TrimmedExactly(tokens[0], t);
      forall p, t | p in tokens && Within(p, t) && n == Canonical(t) ensures n in Named(tokens) {
        assert p == tokens[0] || p in rest;
        TrimmedExactly(p, t);
      }
    }
  }

  // ---------- to the wire and back ----------

  function Skip(drop: seq<Text>): set<Text> {
    set n | n in drop :: Canonical(n)
  }

  /** The names that travel. */
  function Travelling(h: HttpHeader, drop: seq<Text>): set<Text> {
    set n | n in h.Keys && n !in HOP_BY_HOP && n !in ConnectionHeaders(h) && n !in Skip(drop)
  }

  function Each(name: Text, values: seq<Text>): seq<Header> {
    if values == [] then [] else [Header(name, values[0])] + Each(name, values[1..])
  }

  function Flat(h: HttpHeader, names: seq<Text>): seq<Header>
    requires forall n :: n in names ==> n in h
  {
    if names == [] then [] else Each(names[0], h[names[0]]) + Flat(h, names[1..])
  }

  ghost function FromHttp(h: HttpHeader, drop: seq<Text>): seq<Header> {
    var names := AnyOrder(Travelling(h, drop));
    SortOrders(names);
    assert forall n :: n in Sort(names) ==> n in Elements(Sort(names));
    Flat(h, Sort(names))
  }

  function Values(hs: seq<Header>, name: Text): seq<Text> {
    if hs == [] then []
    else if Canonical(hs[0].name) == name then [hs[0].value] + Values(hs[1..], name)
    else Values(hs[1..], name)
  }

  function Names(hs: seq<Header>): set<Text> {
    set x | x in hs :: Canonical(x.name)
  }

  function ToHttp(hs: seq<Header>, drop: seq<Text>): HttpHeader {
    map n | n in Names(hs) && n !in HOP_BY_HOP && n !in Skip(drop) :: Values(hs, n)
  }

  // ---------- as they run ----------

  method NamedByConnection(h: HttpHeader) returns (named: set<Text>)
    ensures named == ConnectionHeaders(h)
  {
    hide Canonical, Trimmed, Split;
    named := {};
    if Ascii("Connection") !in h {
      return;
    }
    var values := h[Ascii("Connection")];
    while values != []
      invariant named + NamedIn(values) == ConnectionHeaders(h)
      decreases |values|
    {
      var tokens := Split([], values[0]);
      ghost var want := named + Named(tokens);
      while tokens != []
        invariant named + Named(tokens) == want
        decreases |tokens|
      {
        var token := Trimmed(tokens[0]);
        if token != [] {
          named := named + {Canonical(token)};
        }
        tokens := tokens[1..];
      }
      values := values[1..];
    }
  }

  /** The names to send, in the order of the range over the map. */
  method Kept(order: seq<Text>, skip: set<Text>) returns (names: seq<Text>)
    requires Once(order)
    ensures Once(names) && Elements(names) == set n | n in order && n !in HOP_BY_HOP && n !in skip
  {
    names := [];
    ghost var seen := {};
    for i := 0 to |order|
      invariant Once(names) && seen == set j | 0 <= j < i :: order[j]
      invariant Elements(names) == set n | n in seen && n !in HOP_BY_HOP && n !in skip
    {
      var name := order[i];
      assert name !in seen && name !in Elements(names);
      if name !in HOP_BY_HOP && name !in skip {
        assert Elements(names + [name]) == Elements(names) + {name};
        names := names + [name];
      }
      seen := seen + {name};
    }
    assert seen == Elements(order);
  }

  method Append(out: seq<Header>, name: Text, values: seq<Text>) returns (r: seq<Header>)
    ensures r == out + Each(name, values)
  {
    r := out;
    var left := values;
    while left != []
      invariant out + Each(name, values) == r + Each(name, left)
      decreases |left|
    {
      assert r + Each(name, left) == r + [Header(name, left[0])] + Each(name, left[1..]);
      r, left := r + [Header(name, left[0])], left[1..];
    }
  }

  method Flattened(h: HttpHeader, names: seq<Text>) returns (out: seq<Header>)
    requires forall n :: n in names ==> n in h
    ensures out == Flat(h, names)
  {
    hide Each;
    out := [];
    var left := names;
    while left != []
      invariant forall n :: n in left ==> n in h
      invariant Flat(h, names) == out + Flat(h, left)
      decreases |left|
    {
      var name := left[0];
      assert out + (Each(name, h[name]) + Flat(h, left[1..])) == out + Each(name, h[name]) + Flat(h, left[1..]);
      out := Append(out, name, h[name]);
      left := left[1..];
    }
  }

  /** order is whatever the range over the map gives. */
  method FromHttpInOrder(h: HttpHeader, drop: seq<Text>, order: seq<Text>) returns (out: seq<Header>)
    requires Enumerates(order, h.Keys)
    ensures out == FromHttp(h, drop)
  {
    hide Canonical, ConnectionHeaders, Leq, Sort, Skip, Flat;
    var listed := NamedByConnection(h);
    var names := Kept(order, listed + Skip(drop));
    assert Elements(names) == Travelling(h, drop) by {
      assert forall n :: n in order <==> n in Elements(order);
    }
    OrderDoesNotMatter(names, AnyOrder(Travelling(h, drop)));
    SortOrders(names);
    names := Sort(names);
    assert forall n :: n in names ==> n in Elements(names);
    out := Flattened(h, names);
  }

  /** The wire form is the same whatever order the map is ranged over. */
  lemma OrderDoesNotMatter(a: seq<Text>, b: seq<Text>)
    requires Once(a) && Once(b) && Elements(a) == Elements(b)
    ensures Sort(a) == Sort(b)
  {
    SortOrders(a);
    SortOrders(b);
    OrderedIsUnique(Sort(a), Sort(b));
  }

  /** Wire headers back into a map, in the order they came. */
  method ToHttpInOrder(hs: seq<Header>, drop: seq<Text>) returns (h: HttpHeader)
    ensures h == ToHttp(hs, drop)
  {
    hide Canonical;
    var skip := Skip(drop);
    h := map[];
    for i := 0 to |hs|
      invariant h == ToHttp(hs[..i], drop)
    {
      var name, value := Canonical(hs[i].name), hs[i].value;
      assert hs[..i + 1] == hs[..i] + [hs[i]];
      OneMore(hs[..i], hs[i], drop);
      if name !in HOP_BY_HOP && name !in skip {
        h := h[name := (if name in h then h[name] else []) + [value]];
      }
    }
    assert hs[..|hs|] == hs;
  }

  lemma {:induction false} ValuesSplit(a: seq<Header>, b: seq<Header>, k: Text)
    ensures Values(a + b, k) == Values(a, k) + Values(b, k)
  {
    hide Canonical;
    if a == [] {
      assert a + b == b;
    } else {
      ValuesSplit(a[1..], b, k);
      assert (a + b)[0] == a[0] && (a + b)[1..] == a[1..] + b;
      assert [a[0].value] + (Values(a[1..], k) + Values(b, k)) == [a[0].value] + Values(a[1..], k) + Values(b, k);
    }
  }

  lemma {:induction false} ValuesExactlyOfNames(hs: seq<Header>, k: Text)
    ensures Values(hs, k) != [] <==> k in Names(hs)
  {
    hide Canonical;
    if hs != [] {
      ValuesExactlyOfNames(hs[1..], k);
      assert hs == [hs[0]] + hs[1..];
    }
  }

  lemma ValuesOneMore(hs: seq<Header>, x: Header, k: Text)
    ensures Values(hs + [x], k) == if Canonical(x.name) == k then Values(hs, k) + [x.value] else Values(hs, k)
  {
    hide Canonical;
    ValuesSplit(hs, [x], k);
    assert [x][1..] == [];
  }

  lemma OneMore(hs: seq<Header>, x: Header, drop: seq<Text>)
    ensures var h, h', name := ToHttp(hs, drop), ToHttp(hs + [x], drop), Canonical(x.name);
            h' == if name in HOP_BY_HOP || name in Skip(drop) then h
                  else h[name := (if name in h then h[name] else []) + [x.value]]
  {
    hide Canonical, Values, Names, Skip;
    var name := Canonical(x.name);
    NamesSplit(hs, [x]);
    NameOfOne(x);
    forall k ensures Values(hs + [x], k) == if name == k then Values(hs, k) + [x.value] else Values(hs, k) {
      ValuesOneMore(hs, x, k);
    }
    ValuesExactlyOfNames(hs, name);
    if name !in Names(hs) {
      assert [] + [x.value] == Values(hs, name) + [x.value];
    }
  }

  lemma NameOfOne(x: Header)
    ensures Names([x]) == {Canonical(x.name)}
  {
    hide Canonical;
    assert x in [x];
  }

  // ---------- what a hop gives back ----------

  /** What is left of a header after a hop. */
  function AfterHop(h: HttpHeader, drop: seq<Text>): HttpHeader {
    map k | k in Travelling(h, drop) && h[k] != [] :: h[k]
  }

  lemma {:induction false} ValuesOfEach(name: Text, values: seq<Text>, k: Text)
    ensures Values(Each(name, values), k) == if Canonical(name) == k then values else []
    ensures Names(Each(name, values)) == if values == [] then {} else {Canonical(name)}
  {
    hide Canonical;
    if values != [] {
      ValuesOfEach(name, values[1..], k);
      var each := Each(name, values);
      assert each[1..] == Each(name, values[1..]);
      assert each == [each[0]] + each[1..];
    }
  }

  /** The names with values that travel are spelt canonically, as Go's parser leaves them. */
  ghost predicate Spelt(h: HttpHeader, names: set<Text>) {
    forall n :: n in names && n in h && h[n] != [] ==> Canonical(n) == n
  }

  lemma NamesSplit(a: seq<Header>, b: seq<Header>)
    ensures Names(a + b) == Names(a) + Names(b)
  {
    hide Canonical;
    assert forall x :: x in a + b <==> x in a || x in b;
  }

  lemma {:induction false} FlatNames(h: HttpHeader, names: seq<Text>)
    requires forall n :: n in names ==> n in h
    ensures Names(Flat(h, names)) == set n | n in names && h[n] != [] :: Canonical(n)
  {
    hide Canonical, Each, Names;
    if names == [] {
      NamesOfNone();
    } else {
      var name, rest := names[0], names[1..];
      FlatNames(h, rest);
      ValuesOfEach(name, h[name], []);
      NamesSplit(Each(name, h[name]), Flat(h, rest));
      assert names == [name] + rest;
    }
  }

  lemma NamesOfNone()
    ensures Names([]) == {}
  {
  }

  lemma {:induction false} FlatValues(h: HttpHeader, names: seq<Text>, k: Text)
    requires Ordered(names) && (forall n :: n in names ==> n in h) && Spelt(h, Elements(names))
    ensures Values(Flat(h, names), k) == if k in names then h[k] else []
  {
    hide Canonical, Leq, Each;
    if names != [] {
      var name, rest := names[0], names[1..];
      HeadAndTail(names);
      FlatValues(h, rest, k);
      ValuesOfEach(name, h[name], k);
      ValuesSplit(Each(name, h[name]), Flat(h, rest), k);
      assert name in Elements(names);
    }
  }

  /** A hop drops what belongs to one connection, what Connection lists, what it is told to and names without values,
      and gives back the rest with its values in order: exactly when the names that travel are spelt canonically. */
  lemma ThereAndBack(h: HttpHeader, drop: seq<Text>)
    ensures ToHttp(FromHttp(h, drop), []) == AfterHop(h, drop) <==> Spelt(h, Travelling(h, drop))
  {
    hide Canonical, Leq, Sort, ConnectionHeaders, Values, Flat, Names;
    var names := Sort(AnyOrder(Travelling(h, drop)));
    SortOrders(AnyOrder(Travelling(h, drop)));
    assert forall n :: n in names <==> n in Elements(names);
    var hs, back, kept := FromHttp(h, drop), ToHttp(FromHttp(h, drop), []), AfterHop(h, drop);
    FlatNames(h, names);
    assert Skip([]) == {};
    if Spelt(h, Travelling(h, drop)) {
      forall k ensures k in back <==> k in kept {
        if k in back {
          var n :| n in names && h[n] != [] && Canonical(n) == k;
        }
        if k in kept {
          assert k in Travelling(h, drop) && Canonical(k) == k;
        }
      }
      forall k | k in kept ensures back[k] == kept[k] {
        FlatValues(h, names, k);
      }
    } else {
      var n :| n in Travelling(h, drop) && h[n] != [] && Canonical(n) != n;
      assert n in kept;
      if n in back {
        var m :| m in names && Canonical(m) == n;
        CanonicalTwice(m);
      }
    }
  }

  lemma {:induction false} EmptyValuesDoNotTravel(h: HttpHeader, h': HttpHeader, names: seq<Text>)
      returns (full: seq<Text>)
    requires Ordered(names) && forall n :: n in names ==> n in h
    requires forall n :: n in names && h[n] != [] ==> n in h' && h'[n] == h[n]
    ensures Ordered(full) && Elements(full) == set n | n in names && h[n] != []
    ensures (forall n :: n in full ==> n in h') && Flat(h', full) == Flat(h, names)
  {
    hide Leq, Ordered, Each;
    full := [];
    if names == [] {
      NothingOrdered();
    } else {
      HeadAndTail(names);
      var name := names[0];
      full := EmptyValuesDoNotTravel(h, h', names[1..]);
      assert forall n :: n in full <==> n in Elements(full);
      if h[name] == [] {
        NothingEach(name, Flat(h, names[1..]));
      } else {
        var rest := full;
        OrderedCons(name, rest);
        full := [name] + rest;
        assert full[1..] == rest;
        assert Elements(full) == {name} + Elements(rest);
      }
    }
  }

  lemma NothingOrdered()
    ensures Ordered([])
  {
  }

  lemma OrderedCons(n: Text, names: seq<Text>)
    requires Ordered(names) && forall m :: m in names ==> Leq(n, m) && m != n
    ensures Ordered([n] + names)
  {
    hide Leq;
    var all := [n] + names;
    forall i, j | 0 <= i < j < |all| ensures Leq(all[i], all[j]) && all[i] != all[j] {
      assert all[j] == names[j - 1];
      assert i > 0 ==> all[i] == names[i - 1];
    }
  }

  lemma NothingEach(name: Text, hs: seq<Header>)
    ensures Each(name, []) + hs == hs
  {
  }

  /** What belongs to one connection and what a hop is told to leave out. */
  ghost predicate LeftOut(n: Text, drop: seq<Text>) {
    || n == Ascii("Connection") || n == Ascii("Keep-Alive") || n == Ascii("Transfer-Encoding") || n == Ascii("Te")
    || n == Ascii("Trailer") || n == Ascii("Upgrade") || n == Ascii("Proxy-Connection") || n == Ascii("Host")
    || n == Ascii("Proxy-Authenticate")
    || exists d :: d in drop && n == Canonical(d)
  }

  /** What survives a hop, name by name. */
  lemma AfterHopExactly(h: HttpHeader, drop: seq<Text>, n: Text)
    ensures n in AfterHop(h, drop) <==> n in h && h[n] != [] && !LeftOut(n, drop) && !ListedByConnection(h, n)
    ensures n in AfterHop(h, drop) ==> AfterHop(h, drop)[n] == h[n]
  {
    hide Canonical, ConnectionHeaders, ListedByConnection;
    ConnectionHeadersExactly(h, n);
    assert n in Skip(drop) <==> exists d :: d in drop && n == Canonical(d);
  }

  /** What comes back from the wire, name by name. */
  lemma ToHttpExactly(hs: seq<Header>, drop: seq<Text>, n: Text)
    ensures n in ToHttp(hs, drop) <==> !LeftOut(n, drop) && exists i :: 0 <= i < |hs| && Canonical(hs[i].name) == n
  {
    hide Canonical, Values;
    assert n in Skip(drop) <==> exists d :: d in drop && n == Canonical(d);
    if n in Names(hs) {
      var x :| x in hs && Canonical(x.name) == n;
      var i :| 0 <= i < |hs| && hs[i] == x;
    }
  }

  /** a comes before b octet by octet. */
  ghost predicate Before(a: Text, b: Text) {
    exists k :: 0 <= k <= |a| && k < |b| && a[..k] == b[..k] && (k == |a| || a[k] < b[k])
  }

  lemma {:induction false} LeqIsBefore(a: Text, b: Text)
    requires Leq(a, b) && a != b
    ensures Before(a, b)
  {
    if a == [] || a[0] < b[0] {
      assert a[..0] == b[..0];
    } else {
      assert a == [a[0]] + a[1..] && b == [b[0]] + b[1..];
      LeqIsBefore(a[1..], b[1..]);
      var a', b' := a[1..], b[1..];
      var k :| 0 <= k <= |a'| && k < |b'| && a'[..k] == b'[..k] && (k == |a'| || a'[k] < b'[k]);
      assert a[..k + 1] == [a[0]] + a[1..][..k] && b[..k + 1] == [b[0]] + b[1..][..k];
    }
  }

  ghost predicate InOrder(hs: seq<Header>) {
    forall i, j :: 0 <= i < j < |hs| ==> hs[i].name == hs[j].name || Before(hs[i].name, hs[j].name)
  }

  /** The values sent under just this name, in order. */
  ghost function SentAs(hs: seq<Header>, name: Text): seq<Text> {
    if hs == [] then [] else (if hs[0].name == name then [hs[0].value] else []) + SentAs(hs[1..], name)
  }

  /** On the wire names come in order, and each with all its values in theirs. */
  lemma SentInOrder(h: HttpHeader, drop: seq<Text>, n: Text)
    ensures var hs := FromHttp(h, drop);
            && InOrder(hs)
            && SentAs(hs, n) == if n in AfterHop(h, drop) then h[n] else []
  {
    hide Canonical, Leq, Sort, ConnectionHeaders, Flat, Before;
    var names := Sort(AnyOrder(Travelling(h, drop)));
    SortOrders(AnyOrder(Travelling(h, drop)));
    assert forall n :: n in names <==> n in Elements(names);
    FlatInOrder(h, names);
    FlatSends(h, names, n);
  }

  lemma {:induction false} EachIs(name: Text, values: seq<Text>, n: Text)
    ensures |Each(name, values)| == |values| && forall i :: 0 <= i < |values| ==> Each(name, values)[i].name == name
    ensures SentAs(Each(name, values), n) == if n == name then values else []
  {
    if values != [] {
      EachIs(name, values[1..], n);
      assert Each(name, values)[1..] == Each(name, values[1..]);
    }
  }

  lemma {:induction false} SentAsSplit(a: seq<Header>, b: seq<Header>, n: Text)
    ensures SentAs(a + b, n) == SentAs(a, n) + SentAs(b, n)
  {
    if a == [] {
      assert a + b == b;
    } else {
      SentAsSplit(a[1..], b, n);
      var first := if a[0].name == n then [a[0].value] else [];
      assert (a + b)[0] == a[0] && (a + b)[1..] == a[1..] + b;
      assert first + (SentAs(a[1..], n) + SentAs(b, n)) == first + SentAs(a[1..], n) + SentAs(b, n);
    }
  }

  lemma {:induction false} FlatSends(h: HttpHeader, names: seq<Text>, n: Text)
    requires Ordered(names) && forall m :: m in names ==> m in h
    ensures SentAs(Flat(h, names), n) == if n in names then h[n] else []
  {
    hide Leq, Each, SentAs;
    if names == [] {
      NothingSent(n);
    } else {
      HeadAndTail(names);
      FlatSends(h, names[1..], n);
      EachIs(names[0], h[names[0]], n);
      SentAsSplit(Each(names[0], h[names[0]]), Flat(h, names[1..]), n);
    }
  }

  lemma NothingSent(n: Text)
    ensures SentAs([], n) == []
  {
  }

  lemma {:induction false} FlatInOrder(h: HttpHeader, names: seq<Text>)
    requires Ordered(names) && forall m :: m in names ==> m in h
    ensures forall x :: x in Flat(h, names) ==> x.name in names
    ensures InOrder(Flat(h, names))
  {
    hide Leq, Each, InOrder;
    if names == [] {
      NothingInOrder();
    } else {
      HeadAndTail(names);
      var first, rest := Each(names[0], h[names[0]]), Flat(h, names[1..]);
      FlatInOrder(h, names[1..]);
      EachIs(names[0], h[names[0]], []);
      assert forall x :: x in first + rest ==> x in first || x in rest;
      JoinInOrder(names[0], first, rest);
    }
  }

  lemma NothingInOrder()
    ensures InOrder([])
  {
  }

  lemma JoinInOrder(name: Text, first: seq<Header>, rest: seq<Header>)
    requires (forall i :: 0 <= i < |first| ==> first[i].name == name) && InOrder(rest)
    requires forall x :: x in rest ==> Leq(name, x.name) && x.name != name
    ensures InOrder(first + rest)
  {
    hide Leq, Before;
    var hs, n := first + rest, |first|;
    forall i, j | 0 <= i < j < |hs| ensures hs[i].name == hs[j].name || Before(hs[i].name, hs[j].name) {
      if j >= n {
        assert hs[j] == rest[j - n];
        if i < n {
          assert hs[i] == first[i] && rest[j - n] in rest;
          LeqIsBefore(name, hs[j].name);
        } else {
          assert hs[i] == rest[i - n];
        }
      } else {
        assert hs[i] == first[i] && hs[j] == first[j];
      }
    }
  }

  /** A second hop changes nothing. */
  lemma SecondHop(h: HttpHeader, drop: seq<Text>)
    requires Spelt(h, Travelling(h, drop))
    ensures FromHttp(ToHttp(FromHttp(h, drop), []), []) == FromHttp(h, drop)
  {
    hide Canonical, Leq, Sort, NamedIn;
    var names := Sort(AnyOrder(Travelling(h, drop)));
    SortOrders(AnyOrder(Travelling(h, drop)));
    assert forall n :: n in names <==> n in Elements(names);
    ThereAndBack(h, drop);
    var h' := AfterHop(h, drop);
    var full := EmptyValuesDoNotTravel(h, h', names);
    var names' := Sort(AnyOrder(Travelling(h', [])));
    SortOrders(AnyOrder(Travelling(h', [])));
    assert Ascii("Connection") in HOP_BY_HOP;
    assert Ascii("Connection") !in h';
    assert Travelling(h', []) == Elements(full) by {
      assert Skip([]) == {};
    }
    OrderedIsUnique(names', full);
    assert FromHttp(h, drop) == Flat(h, names);
    assert FromHttp(h', []) == Flat(h', names');
  }
}
