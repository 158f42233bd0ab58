/** What the canonical text looks like, character by character (fronts/web/src/bff/state.ts:75-85,
    sections 3 to 7 of RFC 8259). */
module JsonLaws {
  import opened J = StableJson

  /** A text of plain characters as units. */
  function Units(s: string): Str
    requires forall i :: 0 <= i < |s| ==> s[i] as int < 0x10000
  {
    seq(|s|, i requires 0 <= i < |s| => s[i] as int)
  }

  /** Literals, numbers and strings. */
  lemma ScalarLaw(v: Json)
    ensures match v
            case Null => StableJson(v) == Units("null")
            case Bool(b) => StableJson(v) == if b then Units("true") else Units("false")
            case Num(t) => StableJson(v) == t
            case Text(s) => StableJson(v) == Units("\"") + Escape(s) + Units("\"")
            case _ => true
  {}

  lemma {:induction false} CommaTailSnoc(parts: seq<Str>, x: Str)
    ensures CommaTail(parts + [x]) == CommaTail(parts) + [COMMA] + x
  {
    if parts == [] {
      assert ([] + [x])[1..] == [];
    } else {
      assert (parts + [x])[1..] == parts[1..] + [x];
      CommaTailSnoc(parts[1..], x);
    }
  }

  lemma JoinSnoc(parts: seq<Str>, x: Str)
    ensures Join(parts + [x]) == if parts == [] then x else Join(parts) + [COMMA] + x
  {
    if parts == [] {
      assert ([] + [x])[1..] == [];
    } else {
      assert (parts + [x])[1..] == parts[1..] + [x];
      CommaTailSnoc(parts[1..], x);
    }
  }

  lemma {:induction false} PrintAllSnoc(items: seq<Json>, x: Json)
    ensures PrintAll(items + [x]) == PrintAll(items) + [StableJson(x)]
  {
    if items == [] {
      assert ([] + [x])[1..] == [];
    } else {
      assert (items + [x])[1..] == items[1..] + [x];
      PrintAllSnoc(items[1..], x);
    }
  }

  /** What stands between the brackets of a printed list or object. */
  function Inside(s: Str): Str
    requires |s| >= 2
  {
    s[1..|s| - 1]
  }

  /** A list is its items in brackets, with commas between them. */
  lemma ListLaw(items: seq<Json>, x: Json)
    ensures StableJson(Arr([])) == Units("[]") && |StableJson(Arr(items))| >= 2
    ensures StableJson(Arr(items + [x]))
            == [91] + (if items == [] then [] else Inside(StableJson(Arr(items))) + [44]) + StableJson(x) + [93]
  {
    ListText(items);
    ListText(items + [x]);
    NoList();
    PrintAllSnoc(items, x);
    JoinSnoc(PrintAll(items), StableJson(x));
    hide StableJson, Join, PrintAll;
    var joined := Join(PrintAll(items));
    assert Inside([ARR_OPEN] + joined + [ARR_CLOSE]) == joined;
  }

  lemma ListText(items: seq<Json>)
    ensures StableJson(Arr(items)) == [ARR_OPEN] + Join(PrintAll(items)) + [ARR_CLOSE]
    ensures PrintAll(items) == [] <==> items == []
  {}

  lemma NoList()
    ensures StableJson(Arr([])) == Units("[]")
  {}

  lemma {:induction false} FieldsSnoc(fields: seq<Entry<Json>>, e: Entry<Json>)
    ensures PrintFields(fields + [e]) == PrintFields(fields) + [Entry(e.key, StableJson(e.value))]
  {
    if fields == [] {
      assert ([] + [e])[1..] == [];
    } else {
      assert (fields + [e])[1..] == fields[1..] + [e];
      FieldsSnoc(fields[1..], e);
    }
  }

  lemma {:induction false} KeyedSnoc(f: seq<Entry<Str>>, e: Entry<Str>)
    ensures KeyedTexts(f + [e]) == KeyedTexts(f) + [Quote(e.key) + [COLON] + e.value]
  {
    if f == [] {
      assert ([] + [e])[1..] == [];
    } else {
      assert (f + [e])[1..] == f[1..] + [e];
      KeyedSnoc(f[1..], e);
    }
  }

  lemma {:induction false} SortedIsSorted(f: seq<Entry<Str>>)
    requires Sorted(f)
    ensures SortByKey(f) == f
  {
    if f != [] {
      assert forall i, j :: 0 <= i < j < |f[1..]| ==> f[1..][i] == f[i + 1] && f[1..][j] == f[j + 1];
      SortedIsSorted(f[1..]);
      if |f| > 1 { assert f[1..][0] == f[1]; }
      assert f == [f[0]] + f[1..];
    }
  }

  lemma {:induction false} FieldKeys(fields: seq<Entry<Json>>)
    requires Sorted(fields)
    ensures Sorted(PrintFields(fields))
  {
    forall i | 0 <= i < |fields| ensures PrintFields(fields)[i].key == fields[i].key { PrintFieldsAt(fields, i); }
  }

  /** An object with its keys in order is its fields in braces, each a quoted key, a colon and a value,
      with commas between them; the order of the keys does not matter for the text. */
  lemma ObjectLaw(fields: seq<Entry<Json>>, e: Entry<Json>)
    requires Sorted(fields + [e])
    ensures StableJson(Obj([])) == Units("{}") && |StableJson(Obj(fields))| >= 2
    ensures StableJson(Obj(fields + [e]))
            == [123] + (if fields == [] then [] else Inside(StableJson(Obj(fields))) + [44])
               + (Quote(e.key) + [58] + StableJson(e.value)) + [125]
  {
    hide Quote;
    var all := fields + [e];
    assert forall i :: 0 <= i < |fields| ==> all[i] == fields[i];
    FieldKeys(fields);
    FieldKeys(all);
    SortedIsSorted(PrintFields(fields));
    SortedIsSorted(PrintFields(all));
    FieldsSnoc(fields, e);
    KeyedSnoc(PrintFields(fields), Entry(e.key, StableJson(e.value)));
    JoinSnoc(KeyedTexts(PrintFields(fields)), Quote(e.key) + [COLON] + StableJson(e.value));
    var joined := Join(KeyedTexts(PrintFields(fields)));
    assert Inside([OBJ_OPEN] + joined + [OBJ_CLOSE]) == joined;
  }

  // ---- Strings --------------------------------------------------------------------------------------------

  ghost predicate IsHex(d: Unit, n: int) {
    (48 <= d <= 57 && n == d - 48) || (97 <= d <= 102 && n == d - 87)
  }

  /** Backslash, u and four hexadecimal digits that write the unit. */
  ghost predicate WritesCode(s: Str, u: Unit) {
    && |s| == 6 && s[0] == 92 && s[1] == 117
    && exists a, b, c, d :: IsHex(s[2], a) && IsHex(s[3], b) && IsHex(s[4], c) && IsHex(s[5], d)
                            && u == ((a * 16 + b) * 16 + c) * 16 + d
  }

  /** How one unit is written: quotes, backslashes and the five named controls behind a backslash, other
      controls and lone surrogates by their code, and everything else, pairs of surrogates included, as
      it is. */
  lemma EscapeLaw(u: Unit, more: Str)
    ensures Escape([]) == []
    ensures var rest := Escape(more);
            Escape([u] + more) ==
              if 0xd800 <= u <= 0xdbff && more != [] && 0xdc00 <= more[0] <= 0xdfff
              then [u, more[0]] + Escape(more[1..]) else EscapeUnit(u) + rest
    ensures u == 34 ==> EscapeUnit(u) == [92, 34]
    ensures u == 92 ==> EscapeUnit(u) == [92, 92]
    ensures u == 8 ==> EscapeUnit(u) == Units("\\b")
    ensures u == 9 ==> EscapeUnit(u) == Units("\\t")
    ensures u == 10 ==> EscapeUnit(u) == Units("\\n")
    ensures u == 12 ==> EscapeUnit(u) == Units("\\f")
    ensures u == 13 ==> EscapeUnit(u) == Units("\\r")
    ensures (u < 32 && u !in {8, 9, 10, 12, 13}) || 0xd800 <= u <= 0xdfff ==> WritesCode(EscapeUnit(u), u)
    ensures 32 <= u && u !in {34, 92} && !(0xd800 <= u <= 0xdfff) ==> EscapeUnit(u) == [u]
  {
    var s := [u] + more;
    assert s[1..] == more;
    if PairFirst(s) { assert s[2..] == more[1..] && s[..2] == [u, more[0]]; }
    CodeWrites(u);
  }

  lemma CodeWrites(u: Unit)
    ensures WritesCode(UnicodeEscape(u), u)
  {
    var a, b, c, d := u / 16 / 16 / 16, u / 16 / 16 % 16, u / 16 % 16, u % 16;
    var s := UnicodeEscape(u);
    assert IsHex(s[2], a) && IsHex(s[3], b) && IsHex(s[4], c) && IsHex(s[5], d);
    assert u == ((a * 16 + b) * 16 + c) * 16 + d;
  }
}
