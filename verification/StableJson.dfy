/** The canonical JSON text behind approval fingerprints
    (fronts/web/src/bff/state.ts:75-85).

    Strings are sequences of UTF-16 code units, numbers are the non-empty tokens
    that JSON.stringify prints for finite numbers, objects are the list of their
    entries in insertion order. */
module StableJson {

  type Unit = u: int | 0 <= u < 0x10000
  type Str = seq<Unit>

  datatype Json =
    | Null
    | Bool(b: bool)
    | Num(text: Str)
    | Text(s: Str)
    | Arr(items: seq<Json>)
    | Obj(fields: seq<Entry<Json>>)

  datatype Entry<T> = Entry(key: Str, value: T)

  const QUOTE: Unit := 34
  const BACKSLASH: Unit := 92
  const COMMA: Unit := 44
  const COLON: Unit := 58
  const ARR_OPEN: Unit := 91
  const ARR_CLOSE: Unit := 93
  const OBJ_OPEN: Unit := 123
  const OBJ_CLOSE: Unit := 125
  const NULL_TEXT: Str := [110, 117, 108, 108]
  const TRUE_TEXT: Str := [116, 114, 117, 101]
  const FALSE_TEXT: Str := [102, 97, 108, 115, 101]

  /** Units a printed number is made of: digits, '+', '-', '.', 'E', 'e'. */
  predicate NumUnit(u: Unit) {
    48 <= u <= 57 || u in {43, 45, 46, 69, 101}
  }

  /** What JSON.parse can deliver: number tokens are tokens, keys are unique. */
  ghost predicate Wf(v: Json) {
    match v
    case Num(t) => t != [] && (forall i :: 0 <= i < |t| ==> NumUnit(t[i]))
    case Arr(items) => forall i :: 0 <= i < |items| ==> Wf(items[i])
    case Obj(fields) =>
      && UniqueKeys(fields)
      && (forall i :: 0 <= i < |fields| ==> Wf(fields[i].value))
    case _ => true
  }

  ghost predicate UniqueKeys<T>(f: seq<Entry<T>>) {
    forall i, j :: 0 <= i < j < |f| ==> f[i].key != f[j].key
  }

  // ---- Key order ------------------------------------------------------------

  /** `a < b` on JavaScript strings: by code units, a proper prefix is smaller. */
  predicate Less(a: Str, b: Str) {
    if b == [] then false
    else if a == [] then true
    else if a[0] != b[0] then a[0] < b[0]
    else Less(a[1..], b[1..])
  }

  lemma {:induction false} LessTotal(a: Str, b: Str)
    ensures Less(a, b) || Less(b, a) || a == b
    ensures !(Less(a, b) && Less(b, a))
    ensures Less(a, b) ==> a != b
  {
    if a != [] && b != [] && a[0] == b[0] {
      LessTotal(a[1..], b[1..]);
      assert a == [a[0]] + a[1..] && b == [b[0]] + b[1..];
    }
  }

  lemma {:induction false} LessTransitive(a: Str, b: Str, c: Str)
    requires Less(a, b) && Less(b, c)
    ensures Less(a, c)
  {
    if a != [] && a[0] == b[0] == c[0] {
      LessTransitive(a[1..], b[1..], c[1..]);
    }
  }

  ghost predicate Sorted<T>(f: seq<Entry<T>>) {
    forall i, j :: 0 <= i < j < |f| ==> Less(f[i].key, f[j].key)
  }

  function Insert<T>(e: Entry<T>, f: seq<Entry<T>>): (r: seq<Entry<T>>)
    ensures |r| == |f| + 1
  {
    if f == [] || Less(e.key, f[0].key) then [e] + f else [f[0]] + Insert(e, f[1..])
  }

  /** `entries.sort(...)` by key. */
  function SortByKey<T>(f: seq<Entry<T>>): (r: seq<Entry<T>>)
    ensures |r| == |f|
  {
    if f == [] then [] else Insert(f[0], SortByKey(f[1..]))
  }

  lemma {:induction false} InsertElements<T(!new)>(e: Entry<T>, f: seq<Entry<T>>)
    ensures forall x :: x in Insert(e, f) <==> x == e || x in f
  {
    if f != [] && !Less(e.key, f[0].key) {
      InsertElements(e, f[1..]);
      assert f == [f[0]] + f[1..];
    }
  }

  lemma {:induction false} InsertSorted<T(!new)>(e: Entry<T>, f: seq<Entry<T>>)
    requires Sorted(f)
    requires forall i :: 0 <= i < |f| ==> f[i].key != e.key
    ensures Sorted(Insert(e, f))
  {
    if f == [] {
    } else if Less(e.key, f[0].key) {
      forall j | 0 < j < |f| ensures Less(e.key, f[j].key) { LessTransitive(e.key, f[0].key, f[j].key); }
    } else {
      LessTotal(e.key, f[0].key);
      InsertSorted(e, f[1..]);
      InsertElements(e, f[1..]);
      var t := Insert(e, f[1..]);
      forall j | 0 <= j < |t| ensures Less(f[0].key, t[j].key) {
        assert t[j] in t;
        if t[j] != e {
          var k :| 0 <= k < |f[1..]| && f[1..][k] == t[j];
          assert f[k + 1] == t[j];
        }
      }
    }
  }

  lemma {:induction false} SortByKeyCorrect<T(!new)>(f: seq<Entry<T>>)
    requires UniqueKeys(f)
    ensures Sorted(SortByKey(f))
    ensures forall x :: x in SortByKey(f) <==> x in f
  {
    if f != [] {
      SortByKeyCorrect(f[1..]);
      var t := SortByKey(f[1..]);
      forall i | 0 <= i < |t| ensures t[i].key != f[0].key {
        assert t[i] in t;
        var k :| 0 <= k < |f[1..]| && f[1..][k] == t[i];
        assert f[k + 1] == t[i];
      }
      InsertSorted(f[0], t);
      InsertElements(f[0], t);
      assert f == [f[0]] + f[1..];
    }
  }

  /** A sorted list of distinct keys is determined by its elements. */
  lemma {:induction false} SortedUnique<T(!new)>(f: seq<Entry<T>>, g: seq<Entry<T>>)
    requires Sorted(f) && Sorted(g)
    requires forall x :: x in f <==> x in g
    ensures f == g
  {
    if f == [] {
      assert forall i :: 0 <= i < |g| ==> g[i] in g;
    } else {
      assert f[0] in f;
      assert g != [];
      assert g[0] in g;
      if f[0] != g[0] {
        var i :| 0 <= i < |g| && g[i] == f[0];
        var j :| 0 <= j < |f| && f[j] == g[0];
        LessTotal(f[0].key, g[0].key);
        assert false;
      }
      forall x ensures x in f[1..] <==> x in g[1..] {
        if x in f[1..] {
          var k :| 0 <= k < |f[1..]| && f[1..][k] == x;
          assert f[k + 1] == x && Less(f[0].key, x.key);
          LessTotal(f[0].key, x.key);
          assert x in g && x != g[0];
        }
        if x in g[1..] {
          var k :| 0 <= k < |g[1..]| && g[1..][k] == x;
          assert g[k + 1] == x && Less(g[0].key, x.key);
          LessTotal(g[0].key, x.key);
          assert x in f && x != f[0];
        }
      }
      SortedUnique(f[1..], g[1..]);
      assert f == [f[0]] + f[1..] && g == [g[0]] + g[1..];
    }
  }

  // ---- Quoted strings (JSON.stringify of a string) ---------------------------

  predicate HighSurrogate(u: Unit) { 0xd800 <= u <= 0xdbff }
  predicate LowSurrogate(u: Unit) { 0xdc00 <= u <= 0xdfff }

  function HexDigit(n: int): Unit
    requires 0 <= n < 16
  {
    if n < 10 then 48 + n else 87 + n
  }

  function UnicodeEscape(u: Unit): Str {
    [BACKSLASH, 117, HexDigit(u / 16 / 16 / 16), HexDigit(u / 16 / 16 % 16), HexDigit(u / 16 % 16), HexDigit(u % 16)]
  }

  /** One unit that is not part of a surrogate pair. */
  function EscapeUnit(u: Unit): Str {
    if u == 8 then [BACKSLASH, 98]
    else if u == 9 then [BACKSLASH, 116]
    else if u == 10 then [BACKSLASH, 110]
    else if u == 12 then [BACKSLASH, 102]
    else if u == 13 then [BACKSLASH, 114]
    else if u == QUOTE then [BACKSLASH, QUOTE]
    else if u == BACKSLASH then [BACKSLASH, BACKSLASH]
    else if u < 0x20 || HighSurrogate(u) || LowSurrogate(u) then UnicodeEscape(u)
    else [u]
  }

  predicate PairFirst(s: Str) {
    |s| >= 2 && HighSurrogate(s[0]) && LowSurrogate(s[1])
  }

  function Escape(s: Str): Str {
    if s == [] then []
    else if PairFirst(s) then s[..2] + Escape(s[2..])
    else EscapeUnit(s[0]) + Escape(s[1..])
  }

  function Quote(s: Str): Str {
    [QUOTE] + Escape(s) + [QUOTE]
  }

  lemma HexDigitInjective(m: int, n: int)
    requires 0 <= m < 16 && 0 <= n < 16
    requires HexDigit(m) == HexDigit(n)
    ensures m == n
  {}

  lemma HexInjective(u: Unit, v: Unit)
    requires UnicodeEscape(u) == UnicodeEscape(v)
    ensures u == v
  {
    var a, b := UnicodeEscape(u), UnicodeEscape(v);
    assert a[2] == b[2] && a[3] == b[3] && a[4] == b[4] && a[5] == b[5];
    var u1, v1 := u / 16, v / 16;
    var u2, v2 := u1 / 16, v1 / 16;
    HexDigitInjective(u2 / 16, v2 / 16);
    HexDigitInjective(u2 % 16, v2 % 16);
    HexDigitInjective(u1 % 16, v1 % 16);
    HexDigitInjective(u % 16, v % 16);
  }

  /** A prefix code: what follows an escaped unit cannot change which unit it is. */
  lemma EscapeUnitDecodes(u: Unit, v: Unit, x: Str, y: Str)
    requires EscapeUnit(u) + x == EscapeUnit(v) + y
    ensures u == v && x == y
  {
    var a, b := EscapeUnit(u), EscapeUnit(v);
    assert (a + x)[0] == a[0] && (b + y)[0] == b[0];
    if a[0] == BACKSLASH {
      assert (a + x)[1] == a[1] && (b + y)[1] == b[1];
      if a[1] == 117 {
        assert |a| == 6 && |b| == 6;
        assert a == (a + x)[..6] && b == (b + y)[..6];
        HexInjective(u, v);
      }
    }
    assert u == v;
    assert x == (a + x)[|a|..] && y == (b + y)[|b|..];
  }

  lemma EscapeHead(s: Str, x: Str)
    requires s != []
    ensures (Escape(s) + x) != []
    ensures (Escape(s) + x)[0] != QUOTE
    ensures PairFirst(s) <==> HighSurrogate((Escape(s) + x)[0])
  {
    if PairFirst(s) {
      assert (Escape(s) + x)[0] == s[0];
    } else {
      assert (Escape(s) + x)[0] == EscapeUnit(s[0])[0];
    }
  }

  /** What `Escape` writes for the first one or two units. */
  function Head(s: Str): (r: nat)
    requires s != []
    ensures 1 <= r <= |s|
  {
    if PairFirst(s) then 2 else 1
  }

  lemma SplitAlike(a: Str, b: Str, x: Str, y: Str)
    requires |a| == |b| && a + x == b + y
    ensures a == b && x == y
  {
    assert (a + x)[..|a|] == a && (b + y)[..|b|] == b;
    assert (a + x)[|a|..] == x && (b + y)[|b|..] == y;
  }

  lemma EscapeStepPair(s: Str, t: Str, x: Str, y: Str)
    requires PairFirst(s) && PairFirst(t)
    requires Escape(s) + x == Escape(t) + y
    ensures s[..2] == t[..2]
    ensures Escape(s[2..]) + x == Escape(t[2..]) + y
  {
    hide EscapeUnit;
    Regroup(s[..2], Escape(s[2..]), x);
    Regroup(t[..2], Escape(t[2..]), y);
    SplitAlike(s[..2], t[..2], Escape(s[2..]) + x, Escape(t[2..]) + y);
  }

  lemma Regroup(a: Str, p: Str, x: Str)
    ensures (a + p) + x == a + (p + x)
  {}

  lemma EscapeStepUnit(s: Str, t: Str, x: Str, y: Str)
    requires s != [] && t != [] && !PairFirst(s) && !PairFirst(t)
    requires Escape(s) + x == Escape(t) + y
    ensures s[0] == t[0]
    ensures Escape(s[1..]) + x == Escape(t[1..]) + y
  {
    Regroup(EscapeUnit(s[0]), Escape(s[1..]), x);
    Regroup(EscapeUnit(t[0]), Escape(t[1..]), y);
    EscapeUnitDecodes(s[0], t[0], Escape(s[1..]) + x, Escape(t[1..]) + y);
  }

  /** The closing quote is the first unescaped one, and the text in between decodes uniquely. */
  lemma {:induction false} EscapeDecodes(s: Str, t: Str, x: Str, y: Str)
    requires Escape(s) + ([QUOTE] + x) == Escape(t) + ([QUOTE] + y)
    ensures s == t && x == y
  {
    var qx, qy := [QUOTE] + x, [QUOTE] + y;
    assert Escape([]) + qx == qx && Escape([]) + qy == qy;
    if s != [] { EscapeHead(s, qx); }
    if t != [] { EscapeHead(t, qy); }
    assert s == [] <==> t == [];
    if s == [] {
      assert x == qx[1..] && y == qy[1..];
    } else {
      var n := Head(s);
      if PairFirst(s) { EscapeStepPair(s, t, qx, qy); } else { EscapeStepUnit(s, t, qx, qy); }
      EscapeDecodes(s[n..], t[n..], x, y);
      assert s == s[..n] + s[n..] && t == t[..n] + t[n..];
    }
  }

  lemma QuotedRest(s: Str, x: Str)
    ensures (Quote(s) + x)[1..] == Escape(s) + ([QUOTE] + x)
  {
    hide Escape;
  }

  lemma QuoteDecodes(s: Str, t: Str, x: Str, y: Str)
    requires Quote(s) + x == Quote(t) + y
    ensures s == t && x == y
  {
    QuotedRest(s, x);
    QuotedRest(t, y);
    hide Quote, Escape;
    EscapeDecodes(s, t, x, y);
  }

  // ---- The printer ------------------------------------------------------------

  /** `parts.join(",")`. */
  function Join(parts: seq<Str>): Str {
    if parts == [] then [] else parts[0] + CommaTail(parts[1..])
  }

  function CommaTail(parts: seq<Str>): Str {
    if parts == [] then [] else [COMMA] + parts[0] + CommaTail(parts[1..])
  }

  function KeyedTexts(f: seq<Entry<Str>>): (r: seq<Str>)
    ensures |r| == |f|
  {
    if f == [] then [] else [Quote(f[0].key) + [COLON] + f[0].value] + KeyedTexts(f[1..])
  }

  /** stableJson: entries sorted by key at every level. The sort reads keys only,
      so sorting the already printed entries gives the text the source builds. */
  function StableJson(v: Json): Str
    decreases v, 1
  {
    match v
    case Null => NULL_TEXT
    case Bool(b) => if b then TRUE_TEXT else FALSE_TEXT
    case Num(t) => t
    case Text(s) => Quote(s)
    case Arr(items) => [ARR_OPEN] + Join(PrintAll(items)) + [ARR_CLOSE]
    case Obj(fields) => [OBJ_OPEN] + Join(KeyedTexts(SortByKey(PrintFields(fields)))) + [OBJ_CLOSE]
  }

  function PrintAll(items: seq<Json>): (r: seq<Str>)
    ensures |r| == |items|
    decreases items, 0
  {
    if items == [] then [] else [StableJson(items[0])] + PrintAll(items[1..])
  }

  function PrintFields(fields: seq<Entry<Json>>): (r: seq<Entry<Str>>)
    ensures |r| == |fields|
    decreases fields, 0
  {
    if fields == [] then [] else [Entry(fields[0].key, StableJson(fields[0].value))] + PrintFields(fields[1..])
  }

  /** Equal up to the order of object keys, at every level (section 4 of RFC 8259:
      an object is an unordered collection). */
  ghost predicate Same(a: Json, b: Json)
    decreases a, 3
  {
    if a.Arr? && b.Arr? then SameItems(a.items, b.items)
    else if a.Obj? && b.Obj? then SameFields(a.fields, b.fields)
    else a == b
  }

  ghost predicate SameItems(xs: seq<Json>, ys: seq<Json>)
    decreases xs, 2
  {
    |xs| == |ys| && (forall i :: 0 <= i < |xs| ==> Same(xs[i], ys[i]))
  }

  ghost predicate SameFields(f: seq<Entry<Json>>, g: seq<Entry<Json>>)
    decreases f, 2
  {
    && (forall d :: d in f ==> Right(f, d, g))
    && (forall e :: e in g ==> Left(f, e, g))
  }

  /** Entry `d` of `f` has its partner in `g`. */
  ghost predicate Right(f: seq<Entry<Json>>, d: Entry<Json>, g: seq<Entry<Json>>)
    requires d in f
    decreases f, 1
  {
    exists e :: e in g && d.key == e.key && Same(d.value, e.value)
  }

  /** Entry `e` of `g` has its partner in `f`. */
  ghost predicate Left(f: seq<Entry<Json>>, e: Entry<Json>, g: seq<Entry<Json>>)
    decreases f, 1
  {
    exists d :: d in f && d.key == e.key && Same(d.value, e.value)
  }

  // ---- Equal trees print the same ------------------------------------------------

  lemma {:induction false} PrintAllAt(items: seq<Json>, i: nat)
    requires i < |items|
    ensures PrintAll(items)[i] == StableJson(items[i])
  {
    if i > 0 { PrintAllAt(items[1..], i - 1); }
  }

  lemma {:induction false} PrintFieldsAt(fields: seq<Entry<Json>>, i: nat)
    requires i < |fields|
    ensures PrintFields(fields)[i] == Entry(fields[i].key, StableJson(fields[i].value))
  {
    if i > 0 { PrintFieldsAt(fields[1..], i - 1); }
  }

  lemma PrintFieldsUnique(fields: seq<Entry<Json>>)
    requires UniqueKeys(fields)
    ensures UniqueKeys(PrintFields(fields))
  {
    forall i, j | 0 <= i < j < |fields| ensures PrintFields(fields)[i].key != PrintFields(fields)[j].key {
      PrintFieldsAt(fields, i);
      PrintFieldsAt(fields, j);
    }
  }

  lemma {:induction false} SamePrints(a: Json, b: Json)
    requires Wf(a) && Wf(b) && Same(a, b)
    ensures StableJson(a) == StableJson(b)
    decreases a, 1
  {
    if a.Arr? {
      forall i | 0 <= i < |a.items| ensures PrintAll(a.items)[i] == PrintAll(b.items)[i] {
        PrintAllAt(a.items, i);
        PrintAllAt(b.items, i);
        SamePrints(a.items[i], b.items[i]);
      }
      assert PrintAll(a.items) == PrintAll(b.items);
    } else if a.Obj? {
      SameFieldsPrint(a, b.fields);
    }
  }

  lemma {:induction false} SameFieldsPrint(a: Json, bf: seq<Entry<Json>>)
    requires a.Obj? && Wf(a) && Wf(Obj(bf)) && SameFields(a.fields, bf)
    ensures SortByKey(PrintFields(a.fields)) == SortByKey(PrintFields(bf))
    decreases a, 0
  {
    var af := a.fields;
    var f, g := PrintFields(af), PrintFields(bf);
    forall p | p in f ensures p in g {
      var d := PrintedFrom(af, p);
      assert Right(af, d, bf);
      var e :| e in bf && d.key == e.key && Same(d.value, e.value);
      SamePrints(d.value, e.value);
      PrintedIn(bf, e);
    }
    forall p | p in g ensures p in f {
      var e := PrintedFrom(bf, p);
      assert Left(af, e, bf);
      var d :| d in af && d.key == e.key && Same(d.value, e.value);
      SamePrints(d.value, e.value);
      PrintedIn(af, d);
    }
    PrintFieldsUnique(af);
    PrintFieldsUnique(bf);
    SortByKeyCorrect(f);
    SortByKeyCorrect(g);
    SortedUnique(SortByKey(f), SortByKey(g));
  }

  lemma PrintedFrom(fields: seq<Entry<Json>>, p: Entry<Str>) returns (e: Entry<Json>)
    requires p in PrintFields(fields)
    ensures e in fields && p == Entry(e.key, StableJson(e.value))
  {
    var i :| 0 <= i < |fields| && PrintFields(fields)[i] == p;
    PrintFieldsAt(fields, i);
    e := fields[i];
  }

  lemma PrintedIn(fields: seq<Entry<Json>>, e: Entry<Json>)
    requires e in fields
    ensures Entry(e.key, StableJson(e.value)) in PrintFields(fields)
  {
    var i :| 0 <= i < |fields| && fields[i] == e;
    PrintFieldsAt(fields, i);
  }

  // ---- Equal texts come from equal trees --------------------------------------------

  /** What may follow a value inside a larger text. */
  predicate Terminated(x: Str) {
    x == [] || x[0] in {COMMA, ARR_CLOSE, OBJ_CLOSE}
  }

  function FirstUnits(v: Json): set<Unit> {
    match v
    case Null => {110}
    case Bool(b) => if b then {116} else {102}
    case Num(_) => {43, 45, 46, 69, 101, 48, 49, 50, 51, 52, 53, 54, 55, 56, 57}
    case Text(_) => {QUOTE}
    case Arr(_) => {ARR_OPEN}
    case Obj(_) => {OBJ_OPEN}
  }

  lemma FirstUnit(v: Json)
    requires Wf(v)
    ensures StableJson(v) != [] && StableJson(v)[0] in FirstUnits(v)
  {
    if v.Num? { assert NumUnit(v.text[0]); }
  }

  lemma {:induction false} NumDecodes(s: Str, t: Str, x: Str, y: Str)
    requires forall i :: 0 <= i < |s| ==> NumUnit(s[i])
    requires forall i :: 0 <= i < |t| ==> NumUnit(t[i])
    requires Terminated(x) && Terminated(y) && s + x == t + y
    ensures s == t && x == y
  {
    if s != [] { HeadOf(s, x); }
    if t != [] { HeadOf(t, y); }
    assert s == [] ==> s + x == x;
    assert t == [] ==> t + y == y;
    if s != [] && t != [] {
      assert (s + x)[0] == s[0] && (t + y)[0] == t[0];
      assert s[1..] + x == (s + x)[1..] && t[1..] + y == (t + y)[1..];
      NumDecodes(s[1..], t[1..], x, y);
      assert s == [s[0]] + s[1..] && t == [t[0]] + t[1..];
    }
  }

  lemma {:induction false} InsertNatural(e: Entry<Json>, f: seq<Entry<Json>>)
    ensures PrintFields(Insert(e, f)) == Insert(Entry(e.key, StableJson(e.value)), PrintFields(f))
  {
    if f != [] && !Less(e.key, f[0].key) {
      InsertNatural(e, f[1..]);
      assert Insert(e, f)[1..] == Insert(e, f[1..]);
    } else {
      assert ([e] + f)[1..] == f;
    }
  }

  /** Sorting before or after printing the values gives the same list. */
  lemma {:induction false} SortNatural(f: seq<Entry<Json>>)
    ensures PrintFields(SortByKey(f)) == SortByKey(PrintFields(f))
  {
    if f != [] {
      SortNatural(f[1..]);
      InsertNatural(f[0], SortByKey(f[1..]));
    }
  }

  lemma {:induction false} ItemsDecode(a: Json, xs: seq<Json>, ys: seq<Json>, x: Str, y: Str)
    requires a.Arr? && (forall v :: v in xs ==> v in a.items)
    requires forall v :: v in xs || v in ys ==> Wf(v)
    requires CommaTail(PrintAll(xs)) + ([ARR_CLOSE] + x) == CommaTail(PrintAll(ys)) + ([ARR_CLOSE] + y)
    ensures |xs| == |ys| && x == y
    ensures forall i :: 0 <= i < |xs| ==> Same(xs[i], ys[i])
    decreases a, 0, |xs|
  {
    hide StableJson, Same, Wf;
    var cx, cy := [ARR_CLOSE] + x, [ARR_CLOSE] + y;
    TailStep(PrintAll(xs), cx);
    TailStep(PrintAll(ys), cy);
    EmptyAlike(PrintAll(xs), PrintAll(ys), cx, cy);
    if xs == [] {
      DropHead(ARR_CLOSE, ARR_CLOSE, x, y);
    } else {
      assert PrintAll(xs)[1..] == PrintAll(xs[1..]) && PrintAll(ys)[1..] == PrintAll(ys[1..]);
      var rx, ry := CommaTail(PrintAll(xs[1..])) + cx, CommaTail(PrintAll(ys[1..])) + cy;
      TailStep(PrintAll(xs[1..]), cx);
      TailStep(PrintAll(ys[1..]), cy);
      assert xs[0] in xs && ys[0] in ys;
      DropHead(COMMA, COMMA, StableJson(xs[0]) + rx, StableJson(ys[0]) + ry);
      PrintDecodes(xs[0], ys[0], rx, ry);
      ItemsDecode(a, xs[1..], ys[1..], x, y);
    }
  }

  /** Two lists of texts joined alike start alike. */
  lemma Peel(p: seq<Str>, q: seq<Str>, cx: Str, cy: Str)
    requires p != [] && q != [] && cx != [] && cy != [] && Terminated(cx) && Terminated(cy)
    requires CommaTail(p) + cx == CommaTail(q) + cy
    ensures p[0] + (CommaTail(p[1..]) + cx) == q[0] + (CommaTail(q[1..]) + cy)
  {
    TailStep(p, cx);
    TailStep(q, cy);
    DropHead(COMMA, COMMA, p[0] + (CommaTail(p[1..]) + cx), q[0] + (CommaTail(q[1..]) + cy));
  }

  lemma FirstField(f: seq<Entry<Json>>)
    requires f != []
    ensures var p := KeyedTexts(PrintFields(f));
            && p != [] && p[0] == Quote(f[0].key) + [COLON] + StableJson(f[0].value)
            && p[1..] == KeyedTexts(PrintFields(f[1..]))
  {
    hide Quote, StableJson;
  }

  lemma {:induction false} FieldsDecode(a: Json, f: seq<Entry<Json>>, g: seq<Entry<Json>>, x: Str, y: Str)
    requires a.Obj? && (forall e :: e in f ==> e in a.fields)
    requires forall e :: e in f || e in g ==> Wf(e.value)
    requires CommaTail(KeyedTexts(PrintFields(f))) + ([OBJ_CLOSE] + x)
             == CommaTail(KeyedTexts(PrintFields(g))) + ([OBJ_CLOSE] + y)
    ensures |f| == |g| && x == y
    ensures forall i :: 0 <= i < |f| ==> f[i].key == g[i].key && Same(f[i].value, g[i].value)
    decreases a, 0, |f|
  {
    hide StableJson, Same, Wf, Quote, CommaTail, KeyedTexts, PrintFields;
    var cx, cy := [OBJ_CLOSE] + x, [OBJ_CLOSE] + y;
    var p, q := KeyedTexts(PrintFields(f)), KeyedTexts(PrintFields(g));
    EmptyAlike(p, q, cx, cy);
    if f == [] {
      TailStep(p, cx);
      TailStep(q, cy);
      DropHead(OBJ_CLOSE, OBJ_CLOSE, x, y);
    } else {
      FirstField(f);
      FirstField(g);
      Peel(p, q, cx, cy);
      TailStep(p[1..], cx);
      TailStep(q[1..], cy);
      var rx, ry := CommaTail(p[1..]) + cx, CommaTail(q[1..]) + cy;
      assert f[0] in f && g[0] in g;
      KeyedDecode(f[0], g[0], rx, ry);
      PrintDecodes(f[0].value, g[0].value, rx, ry);
      FieldsDecode(a, f[1..], g[1..], x, y);
    }
  }

  /** A non-empty tail starts with a comma, then its first part; an empty one is the closer. */
  lemma TailStep(parts: seq<Str>, closer: Str)
    requires closer != [] && Terminated(closer)
    ensures Terminated(CommaTail(parts) + closer)
    ensures parts == [] ==> CommaTail(parts) + closer == closer
    ensures parts != [] ==> CommaTail(parts) + closer == [COMMA] + (parts[0] + (CommaTail(parts[1..]) + closer))
  {
    if parts == [] {
      assert CommaTail(parts) == [];
    } else {
      var t := CommaTail(parts[1..]);
      Regroup([COMMA] + parts[0], t, closer);
      Regroup([COMMA], parts[0], t + closer);
    }
  }

  lemma EmptyAlike(p: seq<Str>, q: seq<Str>, cx: Str, cy: Str)
    requires cx != [] && cy != [] && Terminated(cx) && Terminated(cy) && cx[0] != COMMA && cy[0] != COMMA
    requires CommaTail(p) + cx == CommaTail(q) + cy
    ensures p == [] <==> q == []
  {
    TailStep(p, cx);
    TailStep(q, cy);
    HeadOf([COMMA], if p == [] then [] else p[0] + (CommaTail(p[1..]) + cx));
    HeadOf([COMMA], if q == [] then [] else q[0] + (CommaTail(q[1..]) + cy));
  }

  lemma HeadOf(s: Str, x: Str)
    requires s != []
    ensures s + x != [] && (s + x)[0] == s[0]
  {}

  lemma DropHead(u: Unit, v: Unit, x: Str, y: Str)
    requires [u] + x == [v] + y
    ensures u == v && x == y
  {
    assert ([u] + x)[0] == u && ([v] + y)[0] == v;
    assert ([u] + x)[1..] == x && ([v] + y)[1..] == y;
  }

  lemma KeyedDecode(d: Entry<Json>, e: Entry<Json>, x: Str, y: Str)
    requires (Quote(d.key) + [COLON] + StableJson(d.value)) + x == (Quote(e.key) + [COLON] + StableJson(e.value)) + y
    ensures d.key == e.key && StableJson(d.value) + x == StableJson(e.value) + y
  {
    KeyedRegroup(Quote(d.key), StableJson(d.value), x);
    KeyedRegroup(Quote(e.key), StableJson(e.value), y);
    var dv, ev := [COLON] + (StableJson(d.value) + x), [COLON] + (StableJson(e.value) + y);
    QuoteDecodes(d.key, e.key, dv, ev);
    DropHead(COLON, COLON, StableJson(d.value) + x, StableJson(e.value) + y);
  }

  lemma KeyedRegroup(k: Str, v: Str, x: Str)
    ensures (k + [COLON] + v) + x == k + ([COLON] + (v + x))
  {
    Regroup(k + [COLON], v, x);
    Regroup(k, [COLON], v + x);
  }

  /** The text of a value can be read back, up to key order, whatever follows it. */
  lemma {:induction false} PrintDecodes(a: Json, b: Json, x: Str, y: Str)
    requires Wf(a) && Wf(b) && Terminated(x) && Terminated(y)
    requires StableJson(a) + x == StableJson(b) + y
    ensures Same(a, b) && x == y
    decreases a, 1, 0
  {
    FirstUnit(a);
    FirstUnit(b);
    assert (StableJson(a) + x)[0] == StableJson(a)[0] && (StableJson(b) + y)[0] == StableJson(b)[0];
    match a
    case Null =>
      assert x == (StableJson(a) + x)[4..] && y == (StableJson(b) + y)[4..];
    case Bool(c) =>
      assert x == (StableJson(a) + x)[|StableJson(a)|..] && y == (StableJson(b) + y)[|StableJson(b)|..];
    case Num(s) =>
      NumDecodes(s, b.text, x, y);
    case Text(s) =>
      QuoteDecodes(s, b.s, x, y);
    case Arr(xs) =>
      ArrDecodes(a, b, x, y);
    case Obj(f) =>
      ObjDecodes(a, b, x, y);
  }

  lemma JoinStep(parts: seq<Str>, closer: Str)
    ensures parts == [] ==> Join(parts) + closer == closer
    ensures parts != [] ==> Join(parts) + closer == parts[0] + (CommaTail(parts[1..]) + closer)
    ensures parts != [] ==> CommaTail(parts) + closer == [COMMA] + (Join(parts) + closer)
  {
    if parts == [] {
      assert Join(parts) == [];
    } else {
      var t := CommaTail(parts[1..]);
      Regroup(parts[0], t, closer);
      Regroup([COMMA] + parts[0], t, closer);
      Regroup([COMMA], parts[0], t + closer);
    }
  }

  /** `open` body `close` x, seen from the outside in. */
  lemma Bracketed(open: Unit, body: Str, close: Unit, x: Str)
    ensures ([open] + body + [close]) + x == [open] + (body + ([close] + x))
  {
    Regroup([open] + body, [close], x);
    Regroup([open], body, [close] + x);
  }

  lemma {:induction false} ArrDecodes(a: Json, b: Json, x: Str, y: Str)
    requires Wf(a) && Wf(b) && a.Arr? && b.Arr? && Terminated(x) && Terminated(y)
    requires StableJson(a) + x == StableJson(b) + y
    ensures Same(a, b) && x == y
    decreases a, 0, |a.items| + 1
  {
    var p, q := PrintAll(a.items), PrintAll(b.items);
    Bracketed(ARR_OPEN, Join(p), ARR_CLOSE, x);
    Bracketed(ARR_OPEN, Join(q), ARR_CLOSE, y);
    PrintAllHeads(a.items);
    PrintAllHeads(b.items);
    BodiesAlike(p, q, ARR_OPEN, ARR_CLOSE, x, y);
    if p == [] {
      DropHead(ARR_CLOSE, ARR_CLOSE, x, y);
    } else {
      ItemsDecode(a, a.items, b.items, x, y);
    }
  }

  lemma BodiesAlike(p: seq<Str>, q: seq<Str>, open: Unit, close: Unit, x: Str, y: Str)
    requires forall i :: 0 <= i < |p| ==> p[i] != [] && p[i][0] != close
    requires forall i :: 0 <= i < |q| ==> q[i] != [] && q[i][0] != close
    requires [open] + (Join(p) + ([close] + x)) == [open] + (Join(q) + ([close] + y))
    ensures p == [] <==> q == []
    ensures p == [] ==> [close] + x == [close] + y
    ensures p != [] ==> CommaTail(p) + ([close] + x) == CommaTail(q) + ([close] + y)
  {
    var cx, cy := [close] + x, [close] + y;
    DropHead(open, open, Join(p) + cx, Join(q) + cy);
    JoinStep(p, cx);
    JoinStep(q, cy);
    if p != [] { HeadOf(p[0], CommaTail(p[1..]) + cx); }
    if q != [] { HeadOf(q[0], CommaTail(q[1..]) + cy); }
  }

  lemma PrintAllHeads(xs: seq<Json>)
    requires forall i :: 0 <= i < |xs| ==> Wf(xs[i])
    ensures forall i :: 0 <= i < |xs| ==> PrintAll(xs)[i] != [] && PrintAll(xs)[i][0] != ARR_CLOSE
  {
    forall i | 0 <= i < |xs| ensures PrintAll(xs)[i] != [] && PrintAll(xs)[i][0] != ARR_CLOSE {
      PrintAllAt(xs, i);
      FirstUnit(xs[i]);
    }
  }

  lemma {:induction false} KeyedTextsAt(f: seq<Entry<Str>>, i: nat)
    requires i < |f|
    ensures KeyedTexts(f)[i] != [] && KeyedTexts(f)[i][0] == QUOTE
  {
    if i > 0 { KeyedTextsAt(f[1..], i - 1); }
  }

  lemma {:induction false} ObjDecodes(a: Json, b: Json, x: Str, y: Str)
    requires Wf(a) && Wf(b) && a.Obj? && b.Obj? && Terminated(x) && Terminated(y)
    requires StableJson(a) + x == StableJson(b) + y
    ensures Same(a, b) && x == y
    decreases a, 0, |a.fields| + 1
  {
    var f, g := SortByKey(a.fields), SortByKey(b.fields);
    SortNatural(a.fields);
    SortNatural(b.fields);
    SortByKeyCorrect(a.fields);
    SortByKeyCorrect(b.fields);
    var p, q := KeyedTexts(PrintFields(f)), KeyedTexts(PrintFields(g));
    Bracketed(OBJ_OPEN, Join(p), OBJ_CLOSE, x);
    Bracketed(OBJ_OPEN, Join(q), OBJ_CLOSE, y);
    forall i | 0 <= i < |f| ensures p[i] != [] && p[i][0] == QUOTE { KeyedTextsAt(PrintFields(f), i); }
    forall i | 0 <= i < |g| ensures q[i] != [] && q[i][0] == QUOTE { KeyedTextsAt(PrintFields(g), i); }
    BodiesAlike(p, q, OBJ_OPEN, OBJ_CLOSE, x, y);
    if p == [] {
      DropHead(OBJ_CLOSE, OBJ_CLOSE, x, y);
    } else {
      FieldsDecode(a, f, g, x, y);
    }
    SameFromSorted(a, b, f, g);
  }

  lemma SameFromSorted(a: Json, b: Json, f: seq<Entry<Json>>, g: seq<Entry<Json>>)
    requires a.Obj? && b.Obj?
    requires forall e :: e in f <==> e in a.fields
    requires forall e :: e in g <==> e in b.fields
    requires |f| == |g|
    requires forall i :: 0 <= i < |f| ==> f[i].key == g[i].key && Same(f[i].value, g[i].value)
    ensures Same(a, b)
  {
    forall d | d in a.fields ensures Right(a.fields, d, b.fields) {
      var i :| 0 <= i < |f| && f[i] == d;
      assert g[i] in b.fields;
    }
    forall e | e in b.fields ensures Left(a.fields, e, b.fields) {
      var i :| 0 <= i < |g| && g[i] == e;
      assert f[i] in a.fields;
    }
  }

  /** stableJson is a canonical form: same text exactly for trees that differ in key order only. */
  lemma StableJsonIsCanonical(a: Json, b: Json)
    requires Wf(a) && Wf(b)
    ensures StableJson(a) == StableJson(b) <==> Same(a, b)
  {
    if Same(a, b) { SamePrints(a, b); }
    if StableJson(a) == StableJson(b) {
      assert StableJson(a) + [] == StableJson(b) + [];
      PrintDecodes(a, b, [], []);
    }
  }
}
