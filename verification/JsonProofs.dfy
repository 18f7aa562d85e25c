/** The canonical text determines the value, and only the value. */
module JsonProofs {
  import opened Json

  // ---- The parser inverts the printer ----

  lemma ParseHexEscape(c: char, rest: string)
    requires c < ' '
    ensures ParseChar("\\u00" + [HexDigit(c as int / 16), HexDigit(c as int % 16)] + rest) == Got(c, rest)
  {
    var hi, lo := HexDigit(c as int / 16), HexDigit(c as int % 16);
    assert HexValue(hi) == c as int / 16 && HexValue(lo) == c as int % 16;
    var t := "\\u00" + [hi, lo] + rest;
    assert t[0] == '\\' && t[1] == 'u' && t[4] == hi && t[5] == lo;
    assert t[2..4] == "00";
    assert t[6..] == rest;
  }

  lemma ParseEscaped(c: char, rest: string)
    ensures ParseChar(Escape(c) + rest) == Got(c, rest)
  {
    var e := Escape(c);
    if |e| == 6 {
      ParseHexEscape(c, rest);
    } else {
      assert (e + rest)[|e|..] == rest;
    }
  }

  lemma EscapeStart(c: char)
    ensures Escape(c) != [] && Escape(c)[0] != '"'
  {
  }

  lemma {:induction false} ParseQuoted(s: string, rest: string)
    ensures ParseString(EscapeAll(s) + "\"" + rest) == Got(s, rest)
  {
    var t := EscapeAll(s) + "\"" + rest;
    if s == [] {
      assert t == "\"" + rest;
      assert t[1..] == rest;
    } else {
      var after := EscapeAll(s[1..]) + "\"" + rest;
      assert t == Escape(s[0]) + after;
      EscapeStart(s[0]);
      ParseEscaped(s[0], after);
      ParseQuoted(s[1..], rest);
      assert [s[0]] + s[1..] == s;
    }
  }

  lemma {:induction false} DigitsRead(n: nat)
    ensures forall i :: 0 <= i < |Digits(n)| ==> IsDigit(Digits(n)[i])
    ensures Digits(n) != [] && Value(Digits(n)) == n
  {
    if n >= 10 {
      DigitsRead(n / 10);
      assert Digits(n)[..|Digits(n)| - 1] == Digits(n / 10);
    } else {
      assert Digits(n)[..0] == [];
    }
  }

  lemma {:induction false} RunOfDigits(d: string, rest: string)
    requires forall i :: 0 <= i < |d| ==> IsDigit(d[i])
    requires rest == [] || !IsDigit(rest[0])
    ensures DigitRun(d + rest) == |d|
  {
    if d == [] {
      assert d + rest == rest;
    } else {
      RunOfDigits(d[1..], rest);
      assert (d + rest)[1..] == d[1..] + rest;
    }
  }

  lemma ParseDigits(n: nat, rest: string)
    requires rest == [] || !IsDigit(rest[0])
    ensures ParseNat(Digits(n) + rest) == Got(n, rest)
  {
    DigitsRead(n);
    RunOfDigits(Digits(n), rest);
    assert (Digits(n) + rest)[..|Digits(n)|] == Digits(n);
    assert (Digits(n) + rest)[|Digits(n)|..] == rest;
  }

  // The parser on texts put together from parts that already read back.

  lemma WordText(j: Json, rest: string)
    requires j.Null? || j.Bool?
    ensures ParseValue(Print(j) + rest) == Got(j, rest)
  {
    var t := Print(j) + rest;
    assert t[|Print(j)|..] == rest;
  }

  lemma StringText(e: string, s: string, rest: string)
    requires ParseString(e + "\"" + rest) == Got(s, rest)
    ensures ParseValue("\"" + e + "\"" + rest) == Got(Str(s), rest)
  {
    var t := "\"" + e + "\"" + rest;
    assert t[1..] == e + "\"" + rest;
  }

  lemma NumberText(n: nat, d: string, rest: string)
    requires d != [] && IsDigit(d[0]) && ParseNat(d + rest) == Got(n, rest)
    ensures ParseValue(d + rest) == Got(Num(n), rest)
    ensures ParseValue("-" + d + rest) == Got(Num(-(n as int)), rest)
  {
    hide ParseNat, ParseString, ParseArray, ParseObject;
    assert ("-" + d + rest)[1..] == d + rest;
  }

  lemma ArrayText(p: string, items: seq<Json>, rest: string)
    requires if items == [] then p == [] else p != [] && p[0] != ']' && ParseItems(p + "]" + rest) == Got(items, rest)
    ensures ParseValue("[" + p + "]" + rest) == Got(Arr(items), rest)
  {
    var t := "[" + p + "]" + rest;
    assert t[1..] == p + "]" + rest;
    if items == [] {
      assert t[2..] == rest;
    }
    assert ParseValue(t) == ParseArray(t);
  }

  lemma ObjectText(p: string, fields: seq<Field>, rest: string)
    requires if fields == [] then p == []
             else p != [] && p[0] != '}' && ParseFields(p + "}" + rest) == Got(fields, rest)
    ensures ParseValue("{" + p + "}" + rest) == Got(Obj(fields), rest)
  {
    var t := "{" + p + "}" + rest;
    assert t[1..] == p + "}" + rest;
    if fields == [] {
      assert t[2..] == rest;
    }
    assert ParseValue(t) == ParseObject(t);
  }

  lemma ItemsText(p: string, j: Json, q: string, js: seq<Json>, rest: string)
    requires js == [] ==> q == "]" + rest
    requires js != [] ==> q != [] && q[0] == ',' && ParseItems(q[1..]) == Got(js, rest)
    requires ParseValue(p + q) == Got(j, q)
    ensures ParseItems(p + q) == Got([j] + js, rest)
  {
    assert [j] + [] == [j];
    if js == [] {
      assert q[1..] == rest;
    }
  }

  lemma FieldText(e: string, key: string, p: string, value: Json, rest: string)
    requires forall after :: ParseString(e + "\"" + after) == Got(key, after)
    requires ParseValue(p + rest) == Got(value, rest)
    ensures ParseField("\"" + e + "\"" + ":" + p + rest) == Got(Field(key, value), rest)
  {
    hide ParseString, ParseValue;
    var t := "\"" + e + "\"" + ":" + p + rest;
    var after := ":" + (p + rest);
    assert t[1..] == e + "\"" + after;
    assert ParseString(e + "\"" + after) == Got(key, after);
    assert after[1..] == p + rest;
  }

  lemma FieldsText(p: string, f: Field, q: string, fs: seq<Field>, rest: string)
    requires fs == [] ==> q == "}" + rest
    requires fs != [] ==> q != [] && q[0] == ',' && ParseFields(q[1..]) == Got(fs, rest)
    requires ParseField(p + q) == Got(f, q)
    ensures ParseFields(p + q) == Got([f] + fs, rest)
  {
    assert [f] + [] == [f];
    if fs == [] {
      assert q[1..] == rest;
    }
  }

  /** A printed value never starts with a closing bracket. */
  lemma PrintStart(j: Json)
    ensures Print(j) != [] && Print(j)[0] != ']'
  {
    if j.Num? {
      DigitsRead(if j.n < 0 then -j.n else j.n);
    }
  }

  lemma PrintItemsStart(items: seq<Json>)
    requires items != []
    ensures PrintItems(items) != [] && PrintItems(items)[0] != ']'
  {
    PrintStart(items[0]);
  }

  lemma PrintFieldsStart(fields: seq<Field>)
    requires fields != []
    ensures PrintFields(fields) != [] && PrintFields(fields)[0] == '"'
  {
  }

  /** Reading back a printed value returns it and leaves the rest of the text untouched. */
  lemma {:induction false} ParsePrinted(j: Json, rest: string)
    requires rest == [] || !IsDigit(rest[0])
    ensures ParseValue(Print(j) + rest) == Got(j, rest)
    decreases j, 0
  {
    match j
    case Num(n) => ParsePrintedNumber(n, rest);
    case Str(s) =>
      ParseQuoted(s, rest);
      StringText(EscapeAll(s), s, rest);
    case Arr(items) =>
      if items != [] {
        ParsePrintedItems(items, rest);
        PrintItemsStart(items);
      }
      ArrayText(PrintItems(items), items, rest);
    case Obj(fields) =>
      if fields != [] {
        ParsePrintedFields(fields, rest);
        PrintFieldsStart(fields);
      }
      ObjectText(PrintFields(fields), fields, rest);
    case _ => WordText(j, rest);
  }

  lemma ParsePrintedNumber(n: int, rest: string)
    requires rest == [] || !IsDigit(rest[0])
    ensures ParseValue(Print(Num(n)) + rest) == Got(Num(n), rest)
  {
    var m := if n < 0 then -n else n;
    ParseDigits(m, rest);
    DigitsRead(m);
    NumberText(m, Digits(m), rest);
  }

  lemma {:induction false} ParsePrintedItems(items: seq<Json>, rest: string)
    requires items != []
    ensures ParseItems(PrintItems(items) + "]" + rest) == Got(items, rest)
    decreases items, 0
  {
    var q := if |items| == 1 then "]" + rest else "," + (PrintItems(items[1..]) + "]" + rest);
    assert PrintItems(items) + "]" + rest == Print(items[0]) + q;
    ParsePrinted(items[0], q);
    if |items| > 1 {
      ParsePrintedItems(items[1..], rest);
      assert q[1..] == PrintItems(items[1..]) + "]" + rest;
    }
    ItemsText(Print(items[0]), items[0], q, items[1..], rest);
    assert items == [items[0]] + items[1..];
  }

  lemma {:induction false} ParsePrintedField(f: Field, rest: string)
    requires rest == [] || !IsDigit(rest[0])
    ensures ParseField(Quote(f.key) + ":" + Print(f.value) + rest) == Got(f, rest)
    decreases f, 0
  {
    ParsePrinted(f.value, rest);
    forall after ensures ParseString(EscapeAll(f.key) + "\"" + after) == Got(f.key, after) {
      ParseQuoted(f.key, after);
    }
    FieldText(EscapeAll(f.key), f.key, Print(f.value), f.value, rest);
  }

  lemma PrintFieldsSplit(fields: seq<Field>, rest: string)
    requires fields != []
    ensures PrintFields(fields) + "}" + rest
            == Quote(fields[0].key) + ":" + Print(fields[0].value)
               + (if |fields| == 1 then "}" + rest else "," + (PrintFields(fields[1..]) + "}" + rest))
  {
  }

  lemma {:induction false} ParsePrintedFields(fields: seq<Field>, rest: string)
    requires fields != []
    ensures ParseFields(PrintFields(fields) + "}" + rest) == Got(fields, rest)
    decreases fields, 0
  {
    var f := fields[0];
    var q := if |fields| == 1 then "}" + rest else "," + (PrintFields(fields[1..]) + "}" + rest);
    PrintFieldsSplit(fields, rest);
    ParsePrintedField(f, q);
    if |fields| > 1 {
      ParsePrintedFields(fields[1..], rest);
      assert q[1..] == PrintFields(fields[1..]) + "}" + rest;
    }
    FieldsText(Quote(f.key) + ":" + Print(f.value), f, q, fields[1..], rest);
    assert fields == [f] + fields[1..];
  }

  lemma PrintIsInjective(a: Json, b: Json)
    requires Print(a) == Print(b)
    ensures a == b
  {
    ParsePrinted(a, []);
    ParsePrinted(b, []);
    assert Print(a) + [] == Print(b) + [];
  }

  // ---- Equality of values, whatever the order of their keys ----

  /** Two values are the same when they agree position by position in arrays and key by key in
      objects. */
  ghost predicate Same(a: Json, b: Json)
    decreases a
  {
    match a
    case Arr(xs) => b.Arr? && |xs| == |b.items| && forall i :: 0 <= i < |xs| ==> Same(xs[i], b.items[i])
    case Obj(fs) => b.Obj? && |fs| == |b.fields| && forall f :: f in fs ==> Within(f, b.fields)
    case _ => a == b
  }

  ghost predicate Within(f: Field, fields: seq<Field>)
    decreases f
  {
    exists g :: g in fields && g.key == f.key && Same(f.value, g.value)
  }

  /** No object names a key twice, at any depth. */
  ghost predicate WellFormed(j: Json)
    decreases j
  {
    match j
    case Arr(items) => forall x :: x in items ==> WellFormed(x)
    case Obj(fields) => DistinctKeys(fields) && forall f :: f in fields ==> WellFormedField(f)
    case _ => true
  }

  ghost predicate WellFormedField(f: Field)
    decreases f
  {
    WellFormed(f.value)
  }

  ghost predicate DistinctKeys(fields: seq<Field>) {
    forall i, k :: 0 <= i < k < |fields| ==> fields[i].key != fields[k].key
  }

  // ---- Code-point order ----

  lemma {:induction false} LessIsTotal(a: string, b: string)
    ensures a == b || Less(a, b) || Less(b, a)
  {
    if a != [] && b != [] && a[0] == b[0] {
      LessIsTotal(a[1..], b[1..]);
      assert a == [a[0]] + a[1..] && b == [b[0]] + b[1..];
    }
  }

  lemma {:induction false} LessIsAsymmetric(a: string, b: string)
    requires Less(a, b)
    ensures !Less(b, a)
  {
    if a != [] && a[0] == b[0] {
      LessIsAsymmetric(a[1..], b[1..]);
    }
  }

  lemma {:induction false} LessIsTransitive(a: string, b: string, c: string)
    requires Less(a, b) && Less(b, c)
    ensures Less(a, c)
  {
    if a != [] && a[0] == b[0] == c[0] {
      LessIsTransitive(a[1..], b[1..], c[1..]);
    }
  }

  // ---- Sorting ----

  ghost predicate Ascending(fields: seq<Field>) {
    forall i, k :: 0 <= i < k < |fields| ==> Less(fields[i].key, fields[k].key)
  }

  lemma {:induction false} InsertKeepsFields(f: Field, sorted: seq<Field>)
    ensures |Insert(f, sorted)| == |sorted| + 1
    ensures forall g :: g in Insert(f, sorted) <==> g == f || g in sorted
  {
    if sorted != [] && !Less(f.key, sorted[0].key) {
      InsertKeepsFields(f, sorted[1..]);
      assert sorted == [sorted[0]] + sorted[1..];
    }
  }

  lemma {:induction false} InsertKeepsOrder(f: Field, sorted: seq<Field>)
    requires Ascending(sorted)
    requires forall g :: g in sorted ==> g.key != f.key
    ensures Ascending(Insert(f, sorted))
  {
    if sorted == [] {
    } else if Less(f.key, sorted[0].key) {
      forall k | 0 <= k < |sorted| ensures Less(f.key, sorted[k].key) {
        if k > 0 {
          LessIsTransitive(f.key, sorted[0].key, sorted[k].key);
        }
      }
    } else {
      LessIsTotal(f.key, sorted[0].key);
      InsertKeepsOrder(f, sorted[1..]);
      InsertKeepsFields(f, sorted[1..]);
      var tail := Insert(f, sorted[1..]);
      forall k | 0 <= k < |tail| ensures Less(sorted[0].key, tail[k].key) {
        assert tail[k] == f || tail[k] in sorted[1..];
      }
    }
  }

  lemma {:induction false} SortKeepsFields(fields: seq<Field>)
    ensures |SortFields(fields)| == |fields|
    ensures forall g :: g in SortFields(fields) <==> g in fields
  {
    if fields != [] {
      SortKeepsFields(fields[1..]);
      InsertKeepsFields(fields[0], SortFields(fields[1..]));
      assert fields == [fields[0]] + fields[1..];
    }
  }

  lemma {:induction false} SortSorts(fields: seq<Field>)
    requires DistinctKeys(fields)
    ensures Ascending(SortFields(fields))
  {
    if fields != [] {
      SortSorts(fields[1..]);
      SortKeepsFields(fields[1..]);
      InsertKeepsOrder(fields[0], SortFields(fields[1..]));
    }
  }

  /** A set of fields has one ascending listing. */
  lemma {:induction false} AscendingIsUnique(s: seq<Field>, t: seq<Field>)
    requires Ascending(s) && Ascending(t)
    requires forall f :: f in s <==> f in t
    ensures s == t
  {
    assert t != [] ==> t[0] in s;
    if s != [] {
      assert s[0] in t && t != [] && t[0] in s;
      if s[0] != t[0] {
        LessIsAsymmetric(s[0].key, t[0].key);
      }
      AscendingHeadIsOnce(s);
      AscendingHeadIsOnce(t);
      assert s == [s[0]] + s[1..] && t == [t[0]] + t[1..];
      forall f ensures f in s[1..] <==> f in t[1..] {
        assert f in s <==> f == s[0] || f in s[1..];
        assert f in t <==> f == t[0] || f in t[1..];
      }
      AscendingIsUnique(s[1..], t[1..]);
      assert s == [s[0]] + s[1..] && t == [t[0]] + t[1..];
    }
  }

  lemma AscendingHeadIsOnce(s: seq<Field>)
    requires Ascending(s) && s != []
    ensures s[0] !in s[1..]
  {
    forall k | 1 <= k < |s| ensures s[k] != s[0] {
      if s[k] == s[0] {
        LessIsAsymmetric(s[0].key, s[k].key);
      }
    }
  }

  // ---- Canonical forms decide equality ----

  lemma {:induction false} CanonSameImpliesSame(a: Json, b: Json)
    requires Canon(a) == Canon(b)
    ensures Same(a, b)
    decreases a
  {
    match a
    case Arr(xs) =>
      forall i | 0 <= i < |xs| ensures Same(xs[i], b.items[i]) {
        assert CanonItems(xs)[i] == CanonItems(b.items)[i];
        CanonSameImpliesSame(xs[i], b.items[i]);
      }
    case Obj(fs) =>
      SortKeepsFields(CanonFields(fs));
      SortKeepsFields(CanonFields(b.fields));
      forall f | f in fs ensures Within(f, b.fields) {
        var i :| 0 <= i < |fs| && fs[i] == f;
        assert CanonFields(fs)[i] in CanonFields(b.fields);
        var k :| 0 <= k < |b.fields| && CanonFields(b.fields)[k] == CanonFields(fs)[i];
        CanonFieldSame(f, b.fields[k]);
        assert b.fields[k] in b.fields;
      }
    case _ =>
  }

  lemma {:induction false} CanonFieldSame(f: Field, g: Field)
    requires Canon(f.value) == Canon(g.value)
    ensures Same(f.value, g.value)
    decreases f
  {
    CanonSameImpliesSame(f.value, g.value);
  }

  lemma {:induction false} SameImpliesCanonSame(a: Json, b: Json)
    requires WellFormed(a) && WellFormed(b) && Same(a, b)
    ensures Canon(a) == Canon(b)
    decreases a
  {
    match a
    case Arr(xs) =>
      forall i | 0 <= i < |xs| ensures Canon(xs[i]) == Canon(b.items[i]) {
        assert xs[i] in xs && b.items[i] in b.items;
        SameImpliesCanonSame(xs[i], b.items[i]);
      }
      assert CanonItems(xs) == CanonItems(b.items);
    case Obj(fs) =>
      var gs := b.fields;
      var cf, cg := CanonFields(fs), CanonFields(gs);
      forall i | 0 <= i < |fs| ensures cf[i] in cg {
        assert fs[i] in fs && WellFormedField(fs[i]);
        SameFieldCanon(fs[i], gs);
        var k :| 0 <= k < |gs| && gs[k].key == fs[i].key && Canon(gs[k].value) == Canon(fs[i].value);
        assert cg[k] == cf[i];
      }
      assert DistinctKeys(cf) && DistinctKeys(cg);
      InjectionCovers(cf, cg);
      SortSorts(cf);
      SortSorts(cg);
      SortKeepsFields(cf);
      SortKeepsFields(cg);
      AscendingIsUnique(SortFields(cf), SortFields(cg));
    case _ =>
  }

  lemma {:induction false} SameFieldCanon(f: Field, gs: seq<Field>)
    requires WellFormedField(f) && Within(f, gs)
    requires forall g :: g in gs ==> WellFormedField(g)
    ensures exists k :: 0 <= k < |gs| && gs[k].key == f.key && Canon(gs[k].value) == Canon(f.value)
    decreases f
  {
    var g :| g in gs && g.key == f.key && Same(f.value, g.value);
    assert WellFormedField(g);
    SameImpliesCanonSame(f.value, g.value);
    var k :| 0 <= k < |gs| && gs[k] == g;
  }

  /** Equally long lists without repetition, one inside the other, have the same members. */
  lemma InjectionCovers(s: seq<Field>, t: seq<Field>)
    requires DistinctKeys(s) && DistinctKeys(t) && |s| == |t|
    requires forall i :: 0 <= i < |s| ==> s[i] in t
    ensures forall f :: f in s <==> f in t
  {
    var a, b := (set f | f in s), (set f | f in t);
    SizeOfMembers(s);
    SizeOfMembers(t);
    assert a <= b;
    assert |b - a| == |b| - |a|;
    assert b == a + (b - a);
    forall f ensures f in s <==> f in t {
      assert f in s <==> f in a;
      assert f in t <==> f in b;
    }
  }

  lemma {:induction false} SizeOfMembers(s: seq<Field>)
    requires DistinctKeys(s)
    ensures |set f | f in s| == |s|
  {
    if s != [] {
      SizeOfMembers(s[1..]);
      assert (set f | f in s) == (set f | f in s[1..]) + {s[0]};
      assert s[0] !in s[1..];
    }
  }

  /** Two bodies have the same canonical text exactly when they are equal as values: the encoding
      is injective and blind to the order of keys. */
  lemma EncodingDecidesEquality(a: Json, b: Json)
    requires WellFormed(a) && WellFormed(b)
    ensures Encode(a) == Encode(b) <==> Same(a, b)
  {
    if Encode(a) == Encode(b) {
      PrintIsInjective(Canon(a), Canon(b));
      CanonSameImpliesSame(a, b);
    }
    if Same(a, b) {
      SameImpliesCanonSame(a, b);
    }
  }

  /** The text read back is the canonical form of the body. */
  lemma EncodingRoundTrip(j: Json)
    ensures ParseValue(Encode(j)) == Got(Canon(j), [])
  {
    ParsePrinted(Canon(j), []);
    assert Encode(j) + [] == Encode(j);
  }

  ghost predicate Injective(digest: string -> string) {
    forall x, y :: digest(x) == digest(y) ==> x == y
  }

  /** With a collision-free digest a stored hash matches exactly the bodies equal to the first. */
  lemma HashDecidesEquality(digest: string -> string, a: Json, b: Json)
    requires Injective(digest) && WellFormed(a) && WellFormed(b)
    ensures RequestHash(digest, a) == RequestHash(digest, b) <==> Same(a, b)
  {
    EncodingDecidesEquality(a, b);
  }
}
