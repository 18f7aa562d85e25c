/** What the canonical text looks like: its separators, its escapes and the order of its keys. */
module JsonText {
  import opened Json
  import opened JsonProofs

  /** The first position at which two strings part, and the smaller one there or the shorter one. */
  predicate Parts(a: string, b: string, k: nat) {
    k <= |a| && k < |b| && a[..k] == b[..k] && (k == |a| || a[k] < b[k])
  }

  ghost predicate CodePointBefore(a: string, b: string) {
    exists k: nat :: Parts(a, b, k)
  }

  /** Keys are compared by code point at the first difference; a prefix comes first. */
  lemma {:induction false} LessIsCodePointOrder(a: string, b: string)
    ensures Less(a, b) <==> CodePointBefore(a, b)
  {
    if a != [] && b != [] && a[0] == b[0] {
      LessIsCodePointOrder(a[1..], b[1..]);
      if Less(a, b) {
        var k: nat :| Parts(a[1..], b[1..], k);
        assert a[..k + 1] == [a[0]] + a[1..][..k] && b[..k + 1] == [b[0]] + b[1..][..k];
        assert Parts(a, b, k + 1);
      }
      if k: nat :| Parts(a, b, k) {
        assert k > 0;
        assert a[1..][..k - 1] == a[..k][1..] && b[1..][..k - 1] == b[..k][1..];
        assert Parts(a[1..], b[1..], k - 1);
      }
    } else if Less(a, b) {
      assert Parts(a, b, 0);
    } else {
      forall k: nat ensures !Parts(a, b, k) {
        assert 0 < k <= |a| && k <= |b| ==> a[..k][0] == a[0] && b[..k][0] == b[0];
      }
    }
  }

  /** The canonical form of an object has the same keys with canonical values, in code-point order. */
  lemma CanonOrdersKeys(fields: seq<Field>)
    requires DistinctKeys(fields)
    ensures var c := Canon(Obj(fields));
            && c.Obj? && |c.fields| == |fields|
            && (forall f :: f in fields ==> Field(f.key, Canon(f.value)) in c.fields)
            && (forall i, j :: 0 <= i < j < |fields| ==> CodePointBefore(c.fields[i].key, c.fields[j].key))
  {
    var canonical := CanonFields(fields);
    var sorted := SortFields(canonical);
    SortSorts(canonical);
    SortKeepsFields(canonical);
    hide Less, CodePointBefore;
    forall f | f in fields ensures Field(f.key, Canon(f.value)) in sorted {
      var i :| 0 <= i < |fields| && fields[i] == f;
      assert canonical[i] in canonical;
    }
    forall i, j | 0 <= i < j < |fields| ensures CodePointBefore(sorted[i].key, sorted[j].key) {
      LessIsCodePointOrder(sorted[i].key, sorted[j].key);
    }
  }

  /** Brackets, commas and colons without blanks, and the smaller key first whatever the order it was
      given in. */
  lemma CompactText(a: Json, b: Json, key: string, later: string)
    requires CodePointBefore(key, later)
    ensures Encode(Arr([a, b])) == "[" + (Encode(a) + "," + Encode(b)) + "]"
    ensures Encode(Obj([Field(later, b), Field(key, a)])) == Encode(Obj([Field(key, a), Field(later, b)]))
    ensures Encode(Obj([Field(key, a), Field(later, b)]))
            == "{" + (Encode(Str(key)) + ":" + Encode(a) + ("," + (Encode(Str(later)) + ":" + Encode(b)))) + "}"
  {
    LessIsCodePointOrder(key, later);
    LessIsAsymmetric(key, later);
    hide Less, CodePointBefore, Quote;
    var x, y := Field(key, Canon(a)), Field(later, Canon(b));
    TwoItems(a, b);
    TwoFields(Field(key, a), Field(later, b));
    TwoFields(Field(later, b), Field(key, a));
    TwoSorted(x, y);
    TwoPrinted(x, y);
    hide CanonItems, CanonFields, SortFields, PrintItems, PrintFields;
  }

  lemma TwoItems(a: Json, b: Json)
    ensures CanonItems([a, b]) == [Canon(a), Canon(b)]
    ensures PrintItems([Canon(a), Canon(b)]) == Print(Canon(a)) + "," + Print(Canon(b))
  {
    assert CanonItems([b]) == [Canon(b)] && [a, b][1..] == [b];
    assert PrintItems([Canon(b)]) == Print(Canon(b)) && [Canon(a), Canon(b)][1..] == [Canon(b)];
  }

  lemma TwoFields(f: Field, g: Field)
    ensures CanonFields([f, g]) == [Field(f.key, Canon(f.value)), Field(g.key, Canon(g.value))]
  {
  }

  lemma TwoSorted(x: Field, y: Field)
    requires Less(x.key, y.key) && !Less(y.key, x.key)
    ensures SortFields([y, x]) == [x, y] && SortFields([x, y]) == [x, y]
  {
    hide Less;
    OneSorted(x);
    OneSorted(y);
    assert [y, x][1..] == [x] && [x, y][1..] == [y];
    assert SortFields([y, x]) == Insert(y, [x]) && SortFields([x, y]) == Insert(x, [y]);
    assert [x][1..] == [] && Insert(y, []) == [y];
    assert Insert(y, [x]) == [x] + Insert(y, []);
  }

  lemma OneSorted(x: Field)
    ensures SortFields([x]) == [x]
  {
    assert [x][1..] == [] && SortFields([]) == [];
  }

  lemma TwoPrinted(x: Field, y: Field)
    ensures PrintFields([x, y])
            == Quote(x.key) + ":" + Print(x.value) + ("," + (Quote(y.key) + ":" + Print(y.value)))
  {
    hide Quote, Print;
    assert [x, y][1..] == [y];
    assert PrintFields([y]) == Quote(y.key) + ":" + Print(y.value) + "";
    assert PrintFields([y]) == Quote(y.key) + ":" + Print(y.value);
  }

  /** A string stands for itself between quotes unless it holds a quote, a backslash or a control
      character; characters outside ASCII are left as they are. */
  lemma {:induction false} PlainText(s: string)
    requires forall i :: 0 <= i < |s| ==> s[i] >= ' ' && s[i] != '"' && s[i] != '\\'
    ensures EscapeAll(s) == s && Encode(Str(s)) == "\"" + s + "\""
  {
    if s != [] {
      PlainText(s[1..]);
      assert s == [s[0]] + s[1..];
    }
  }
}
