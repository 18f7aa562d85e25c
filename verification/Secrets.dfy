/** The two recursive filters that keep secret-bearing fields out of the audit log and out of
    stored response snapshots. */
module Secrets {
  import opened Domain
  import opened Text

  /** A mapping key: a string, or any other object together with what `str` shows of it. */
  datatype Key = Name(text: string) | Other(shown: string)

  datatype Entry = Entry(key: Key, value: Value)

  /** A nested value. Scalars are all alike to the filters. */
  datatype Value =
    | Leaf(scalar: string)
    | List(items: seq<Value>)
    | Tuple(items: seq<Value>)
    | Mapping(entries: seq<Entry>)

  function Shown(key: Key): string {
    match key
    case Name(text) => text
    case Other(shown) => shown
  }

  // ---- The audit metadata filter ----

  const METADATA_KEYS: set<string> :=
    {"access_token", "api_key", "authorization", "bearer_token", "key_hash", "password", "password_hash",
     "raw_api_key", "raw_key", "raw_password", "raw_token", "refresh_token", "secret", "token"}

  predicate HasForbiddenSuffix(s: string) {
    EndsWith(s, "_hash") || EndsWith(s, "_password") || EndsWith(s, "_secret") || EndsWith(s, "_token")
  }

  function NormaliseMetadataKey(casing: Casing, key: string): string {
    ReplaceChar(ReplaceChar(casing.lower(Strip(casing.isSpace, key)), '-', '_'), ' ', '_')
  }

  predicate IsForbiddenMetadataKey(casing: Casing, key: string) {
    var normalised := NormaliseMetadataKey(casing, key);
    normalised in METADATA_KEYS || HasForbiddenSuffix(normalised)
  }

  /** The metadata filter on a whole value. */
  predicate ContainsForbiddenKey(casing: Casing, v: Value) {
    ContainsKey((key: string) => IsForbiddenMetadataKey(casing, key), v)
  }

  /** Descends through mappings, lists and tuples; keys that are not strings are passed over. */
  predicate ContainsKey(forbidden: string -> bool, v: Value)
    decreases v, 0
  {
    match v
    case Leaf(_) => false
    case Mapping(entries) => EntriesContainKey(forbidden, entries, 0)
    case List(items) => ItemsContainKey(forbidden, items, 0)
    case Tuple(items) => ItemsContainKey(forbidden, items, 0)
  }

  predicate EntriesContainKey(forbidden: string -> bool, entries: seq<Entry>, i: nat)
    requires i <= |entries|
    decreases entries, |entries| - i
  {
    if i == |entries| then false
    else
      var Entry(key, value) := entries[i];
      assert entries decreases to entries[i];
      if key.Name? && forbidden(key.text) then true
      else if ContainsKey(forbidden, value) then true
      else EntriesContainKey(forbidden, entries, i + 1)
  }

  predicate ItemsContainKey(forbidden: string -> bool, items: seq<Value>, i: nat)
    requires i <= |items|
    decreases items, |items| - i
  {
    i < |items| && (ContainsKey(forbidden, items[i]) || ItemsContainKey(forbidden, items, i + 1))
  }

  // ---- The response snapshot filter ----

  const SNAPSHOT_FIELDS: set<string> :=
    {"access_token", "authorization", "bearer_token", "key_hash", "password", "password_hash", "raw_api_key",
     "raw_key", "token"}

  predicate IsSecretField(casing: Casing, field: string) {
    var normalised := casing.lower(Strip(casing.isSpace, field));
    normalised in SNAPSHOT_FIELDS || EndsWith(normalised, "_token")
  }

  /** The snapshot filter on a whole value. */
  function FindSecretField(casing: Casing, v: Value): Option<string> {
    FindKey((field: string) => IsSecretField(casing, field), v)
  }

  /** Descends through mappings and lists only; every key is looked at as `str` shows it. */
  function FindKey(secret: string -> bool, v: Value): Option<string>
    decreases v, 0
  {
    match v
    case Mapping(entries) => FindInEntries(secret, entries, 0)
    case List(items) => FindInItems(secret, items, 0)
    case _ => None
  }

  function FindInEntries(secret: string -> bool, entries: seq<Entry>, i: nat): Option<string>
    requires i <= |entries|
    decreases entries, |entries| - i
  {
    if i == |entries| then None
    else
      var Entry(key, value) := entries[i];
      assert entries decreases to entries[i];
      if secret(Shown(key)) then Some(Shown(key))
      else
        var nested := FindKey(secret, value);
        if nested.Some? then nested else FindInEntries(secret, entries, i + 1)
  }

  function FindInItems(secret: string -> bool, items: seq<Value>, i: nat): Option<string>
    requires i <= |items|
    decreases items, |items| - i
  {
    if i == |items| then None
    else
      var nested := FindKey(secret, items[i]);
      if nested.Some? then nested else FindInItems(secret, items, i + 1)
  }

  // ---- Reference: keys by path ----

  /** The mapping key reached by a path of child positions; the last position selects the entry
      whose key it is. Tuples are entered only when `tuples` says so. */
  function KeyAt(v: Value, path: seq<nat>, tuples: bool): Option<Key>
    decreases path
  {
    if path == [] then None
    else match v
      case Leaf(_) => None
      case List(items) => if path[0] < |items| then KeyAt(items[path[0]], path[1..], tuples) else None
      case Tuple(items) =>
        if tuples && path[0] < |items| then KeyAt(items[path[0]], path[1..], tuples) else None
      case Mapping(entries) =>
        if path[0] >= |entries| then None
        else if |path| == 1 then Some(entries[path[0]].key)
        else KeyAt(entries[path[0]].value, path[1..], tuples)
  }

  /** The path reaches a string key that is forbidden. */
  predicate ForbiddenAt(forbidden: string -> bool, v: Value, path: seq<nat>) {
    var k := KeyAt(v, path, true);
    k.Some? && k.value.Name? && forbidden(k.value.text)
  }

  /** The path reaches, without entering a tuple, a key shown as a secret field. */
  predicate SecretAt(secret: string -> bool, v: Value, path: seq<nat>) {
    var k := KeyAt(v, path, false);
    k.Some? && secret(Shown(k.value))
  }

  /** Document order: a key comes before what is nested under it, and before its later siblings. */
  predicate Precedes(p: seq<nat>, q: seq<nat>) {
    p == [] || (q != [] && (p[0] < q[0] || (p[0] == q[0] && Precedes(p[1..], q[1..]))))
  }

  ghost predicate FirstSecretFrom(secret: string -> bool, v: Value, from: nat, path: seq<nat>) {
    && SecretAt(secret, v, path) && path[0] >= from
    && forall q :: SecretAt(secret, v, q) && q[0] >= from ==> Precedes(path, q)
  }

  // ---- The audit filter is exact ----

  /** The search reports a value exactly when some string key on some path is forbidden. */
  lemma {:induction false} ContainsKeyIsExact(forbidden: string -> bool, v: Value)
    ensures ContainsKey(forbidden, v) <==> exists path :: ForbiddenAt(forbidden, v, path)
    decreases v, 1
  {
    match v
    case Leaf(_) =>
      assert forall path :: KeyAt(v, path, true) == None;
    case Mapping(entries) => EntriesContainExact(forbidden, v, entries, 0);
    case List(items) => ItemsContainExact(forbidden, v, items, 0);
    case Tuple(items) => ItemsContainExact(forbidden, v, items, 0);
  }

  lemma {:induction false} EntriesContainExact(forbidden: string -> bool, v: Value, entries: seq<Entry>, i: nat)
    requires v == Mapping(entries) && i <= |entries|
    ensures EntriesContainKey(forbidden, entries, i)
            <==> exists path :: ForbiddenAt(forbidden, v, path) && path[0] >= i
    decreases entries, |entries| - i
  {
    if i < |entries| {
      var e := entries[i];
      ContainsKeyIsExact(forbidden, e.value);
      EntriesContainExact(forbidden, v, entries, i + 1);
      if e.key.Name? && forbidden(e.key.text) {
        assert ForbiddenAt(forbidden, v, [i]);
      } else if ContainsKey(forbidden, e.value) {
        var p :| ForbiddenAt(forbidden, e.value, p);
        assert ([i] + p)[1..] == p;
        assert ForbiddenAt(forbidden, v, [i] + p);
      } else {
        forall path | ForbiddenAt(forbidden, v, path) && path[0] >= i ensures path[0] >= i + 1 {
          if path[0] == i && |path| > 1 {
            assert ForbiddenAt(forbidden, e.value, path[1..]);
          }
        }
      }
    }
  }

  lemma {:induction false} ItemsContainExact(forbidden: string -> bool, v: Value, items: seq<Value>, i: nat)
    requires (v == List(items) || v == Tuple(items)) && i <= |items|
    ensures ItemsContainKey(forbidden, items, i)
            <==> exists path :: ForbiddenAt(forbidden, v, path) && path[0] >= i
    decreases items, |items| - i
  {
    if i < |items| {
      ContainsKeyIsExact(forbidden, items[i]);
      ItemsContainExact(forbidden, v, items, i + 1);
      if ContainsKey(forbidden, items[i]) {
        var p :| ForbiddenAt(forbidden, items[i], p);
        assert ([i] + p)[1..] == p;
        assert ForbiddenAt(forbidden, v, [i] + p);
      } else {
        forall path | ForbiddenAt(forbidden, v, path) && path[0] >= i ensures path[0] >= i + 1 {
          if path[0] == i {
            assert ForbiddenAt(forbidden, items[i], path[1..]);
          }
        }
      }
    }
  }

  // ---- The snapshot filter is exact and reports the first field ----

  ghost predicate Reports(secret: string -> bool, v: Value, from: nat, r: Option<string>) {
    match r
    case None => forall q :: SecretAt(secret, v, q) ==> q[0] < from
    case Some(field) =>
      exists path :: FirstSecretFrom(secret, v, from, path) && field == Shown(KeyAt(v, path, false).value)
  }

  /** The search finds nothing exactly when no reachable key is secret, and otherwise the first
      secret key in document order. */
  lemma {:induction false} FindKeyIsExact(secret: string -> bool, v: Value)
    ensures Reports(secret, v, 0, FindKey(secret, v))
    decreases v, 1
  {
    match v
    case Mapping(entries) => FindInEntriesExact(secret, v, entries, 0);
    case List(items) => FindInItemsExact(secret, v, items, 0);
    case _ =>
      assert forall path :: KeyAt(v, path, false) == None;
  }

  /** Putting the child position in front of a path that is first in the child. */
  lemma FirstInChild(secret: string -> bool, v: Value, i: nat, child: Value, p: seq<nat>)
    requires FirstSecretFrom(secret, child, 0, p)
    requires v.Mapping? ==> i < |v.entries| && child == v.entries[i].value
                            && !secret(Shown(v.entries[i].key))
    requires v.List? ==> i < |v.items| && child == v.items[i]
    requires v.Mapping? || v.List?
    ensures FirstSecretFrom(secret, v, i, [i] + p)
    ensures KeyAt(v, [i] + p, false) == KeyAt(child, p, false)
  {
    var path := [i] + p;
    assert path[1..] == p;
    forall q | SecretAt(secret, v, q) && q[0] >= i ensures Precedes(path, q) {
      if q[0] == i {
        assert |q| > 1 || v.List?;
        assert SecretAt(secret, child, q[1..]);
      }
    }
  }

  lemma {:induction false} FindInEntriesExact(secret: string -> bool, v: Value, entries: seq<Entry>, i: nat)
    requires v == Mapping(entries) && i <= |entries|
    ensures Reports(secret, v, i, FindInEntries(secret, entries, i))
    decreases entries, |entries| - i
  {
    if i < |entries| {
      var e := entries[i];
      if secret(Shown(e.key)) {
        assert FirstSecretFrom(secret, v, i, [i]);
      } else {
        FindKeyIsExact(secret, e.value);
        if FindKey(secret, e.value).Some? {
          var p :| FirstSecretFrom(secret, e.value, 0, p)
            && FindKey(secret, e.value).value == Shown(KeyAt(e.value, p, false).value);
          FirstInChild(secret, v, i, e.value, p);
        } else {
          FindInEntriesExact(secret, v, entries, i + 1);
          forall q | SecretAt(secret, v, q) && q[0] >= i ensures q[0] >= i + 1 {
            if q[0] == i && |q| > 1 {
              assert SecretAt(secret, e.value, q[1..]);
            }
          }
          LaterReport(secret, v, i, FindInEntries(secret, entries, i + 1));
        }
      }
    }
  }

  /** When no secret lies under position `i`, the report from `i + 1` is the report from `i`. */
  lemma LaterReport(secret: string -> bool, v: Value, i: nat, r: Option<string>)
    requires forall q :: SecretAt(secret, v, q) && q[0] >= i ==> q[0] >= i + 1
    requires Reports(secret, v, i + 1, r)
    ensures Reports(secret, v, i, r)
  {
    if r.Some? {
      var path :| FirstSecretFrom(secret, v, i + 1, path) && r.value == Shown(KeyAt(v, path, false).value);
      assert FirstSecretFrom(secret, v, i, path);
    }
  }

  lemma {:induction false} FindInItemsExact(secret: string -> bool, v: Value, items: seq<Value>, i: nat)
    requires v == List(items) && i <= |items|
    ensures Reports(secret, v, i, FindInItems(secret, items, i))
    decreases items, |items| - i
  {
    if i < |items| {
      FindKeyIsExact(secret, items[i]);
      if FindKey(secret, items[i]).Some? {
        var p :| FirstSecretFrom(secret, items[i], 0, p)
          && FindKey(secret, items[i]).value == Shown(KeyAt(items[i], p, false).value);
        FirstInChild(secret, v, i, items[i], p);
      } else {
        FindInItemsExact(secret, v, items, i + 1);
        forall q | SecretAt(secret, v, q) && q[0] >= i ensures q[0] >= i + 1 {
          if q[0] == i {
            assert SecretAt(secret, items[i], q[1..]);
          }
        }
        LaterReport(secret, v, i, FindInItems(secret, items, i + 1));
      }
    }
  }

  /** A string key on the path, through mappings, lists and tuples, is a forbidden metadata key after
      normalisation. */
  predicate ForbiddenKeyAt(casing: Casing, v: Value, path: seq<nat>) {
    var k := KeyAt(v, path, true);
    k.Some? && k.value.Name? && IsForbiddenMetadataKey(casing, k.value.text)
  }

  /** The audit filter rejects a value exactly when there is such a key on some path. */
  lemma AuditFilterIsExact(casing: Casing, v: Value)
    ensures ContainsForbiddenKey(casing, v) <==> exists path :: ForbiddenKeyAt(casing, v, path)
  {
    var forbidden := (key: string) => IsForbiddenMetadataKey(casing, key);
    ContainsKeyIsExact(forbidden, v);
    forall path ensures ForbiddenAt(forbidden, v, path) == ForbiddenKeyAt(casing, v, path) {
    }
  }

  /** The snapshot filter reports nothing exactly when no key outside tuples shows as a secret
      field, and otherwise the first such key in document order. */
  lemma SnapshotFilterIsExact(casing: Casing, v: Value)
    ensures match FindSecretField(casing, v)
            case None =>
              forall path :: KeyAt(v, path, false).Some? ==> !IsSecretField(casing, Shown(KeyAt(v, path, false).value))
            case Some(field) =>
              exists path ::
                && KeyAt(v, path, false).Some? && Shown(KeyAt(v, path, false).value) == field
                && IsSecretField(casing, field)
                && forall q :: KeyAt(v, q, false).Some? && IsSecretField(casing, Shown(KeyAt(v, q, false).value))
                               ==> Precedes(path, q)
  {
    var secret := (field: string) => IsSecretField(casing, field);
    FindKeyIsExact(secret, v);
    match FindKey(secret, v)
    case None =>
      forall path | KeyAt(v, path, false).Some? ensures !IsSecretField(casing, Shown(KeyAt(v, path, false).value)) {
        assert !SecretAt(secret, v, path);
      }
    case Some(field) =>
      var path :| FirstSecretFrom(secret, v, 0, path) && field == Shown(KeyAt(v, path, false).value);
      forall q | KeyAt(v, q, false).Some? && IsSecretField(casing, Shown(KeyAt(v, q, false).value))
        ensures Precedes(path, q)
      {
        assert SecretAt(secret, v, q);
      }
  }

  // ---- The audit filter is the stricter one ----

  ghost predicate StringKeyed(v: Value) {
    forall path :: KeyAt(v, path, true).Some? ==> KeyAt(v, path, true).value.Name?
  }

  lemma {:induction false} TuplesOnlyAddPaths(v: Value, path: seq<nat>)
    requires KeyAt(v, path, false).Some?
    ensures KeyAt(v, path, true) == KeyAt(v, path, false)
    decreases path
  {
    match v
    case Mapping(entries) =>
      if |path| > 1 {
        TuplesOnlyAddPaths(entries[path[0]].value, path[1..]);
      }
    case List(items) => TuplesOnlyAddPaths(items[path[0]], path[1..]);
  }

  lemma SnapshotFieldsAreMetadataKeys(n: string)
    requires n in SNAPSHOT_FIELDS
    ensures n in METADATA_KEYS
    ensures forall i :: 0 <= i < |n| ==> n[i] != '-' && n[i] != ' '
  {
  }

  lemma SecretFieldIsForbiddenKey(casing: Casing, field: string)
    ensures IsSecretField(casing, field) ==> IsForbiddenMetadataKey(casing, field)
  {
    var n := casing.lower(Strip(casing.isSpace, field));
    var m := NormaliseMetadataKey(casing, field);
    if n in SNAPSHOT_FIELDS {
      SnapshotFieldsAreMetadataKeys(n);
      assert m == n;
    } else if EndsWith(n, "_token") {
      TokenSuffixSurvives(n);
    }
  }

  lemma TokenSuffixSurvives(n: string)
    requires EndsWith(n, "_token")
    ensures EndsWith(ReplaceChar(ReplaceChar(n, '-', '_'), ' ', '_'), "_token")
  {
    var m := ReplaceChar(ReplaceChar(n, '-', '_'), ' ', '_');
    var suffix := n[|n| - 6..];
    assert forall i :: 0 <= i < 6 ==> suffix[i] != '-' && suffix[i] != ' ';
    forall i | 0 <= i < 6 ensures m[|n| - 6 + i] == suffix[i] {
      assert n[|n| - 6 + i] == suffix[i];
    }
    assert m[|m| - 6..] == suffix;
  }

  // What the forbidden names have in common, by length and outer letters. This keeps the proofs
  // about harmless names short.

  predicate SecretShape(s: string) {
    |s| >= 5
    && var last := s[|s| - 1];
    || (last == 'n' && (s[|s| - 2] == 'e' || |s| == 13))
    || last == 'h'
    || (last == 'd' && |s| == 8)
    || (last == 'y' && s[0] == 'r')
  }

  lemma SecretFieldsHaveShape(s: string)
    ensures s in SNAPSHOT_FIELDS || EndsWith(s, "_token") ==> SecretShape(s)
  {
    if EndsWith(s, "_token") {
      assert s[|s| - 6..][5] == 'n' && s[|s| - 6..][4] == 'e';
    }
  }

  predicate MetadataShape(s: string) {
    |s| >= 5
    && var last := s[|s| - 1];
    last == 'n' || last == 'h' || last == 'y' || last == 't' || (last == 'd' && |s| >= 8)
  }

  lemma SuffixLetters(s: string, suffix: string)
    requires suffix != [] && EndsWith(s, suffix)
    ensures s[|s| - 1] == suffix[|suffix| - 1]
  {
    assert s[|s| - |suffix|..][|suffix| - 1] == s[|s| - 1];
  }

  lemma NamedKeysHaveShape(s: string)
    requires s in METADATA_KEYS
    ensures MetadataShape(s)
  {
  }

  lemma SuffixHasShape(s: string, suffix: string)
    requires |suffix| >= 5 && EndsWith(s, suffix) && suffix[|suffix| - 1] in {'h', 'd', 't', 'n'}
    requires suffix[|suffix| - 1] == 'd' ==> |suffix| >= 8
    ensures MetadataShape(s)
  {
    SuffixLetters(s, suffix);
  }

  lemma ForbiddenKeysHaveShape(s: string)
    ensures s in METADATA_KEYS || HasForbiddenSuffix(s) ==> MetadataShape(s)
  {
    hide MetadataShape, EndsWith;
    if s in METADATA_KEYS { NamedKeysHaveShape(s); }
    if EndsWith(s, "_hash") { SuffixHasShape(s, "_hash"); }
    if EndsWith(s, "_password") { SuffixHasShape(s, "_password"); }
    if EndsWith(s, "_secret") { SuffixHasShape(s, "_secret"); }
    if EndsWith(s, "_token") { SuffixHasShape(s, "_token"); }
  }

  /** A key that is no string and lies outside tuples shows as a secret field. */
  predicate ShowsSecretAt(casing: Casing, v: Value, path: seq<nat>) {
    var k := KeyAt(v, path, false);
    k.Some? && k.value.Other? && IsSecretField(casing, k.value.shown)
  }

  /** Of what the audit filter accepts, the snapshot filter refuses exactly the values with a key that
      is no string and shows as a secret field. */
  lemma InclusionIsExact(casing: Casing, v: Value)
    requires !ContainsForbiddenKey(casing, v)
    ensures FindSecretField(casing, v) == None <==> forall path :: !ShowsSecretAt(casing, v, path)
  {
    AuditFilterIsExact(casing, v);
    SnapshotFilterIsExact(casing, v);
    forall path | KeyAt(v, path, false).Some?
      ensures IsSecretField(casing, Shown(KeyAt(v, path, false).value)) <==> ShowsSecretAt(casing, v, path)
    {
      var key := KeyAt(v, path, false).value;
      TuplesOnlyAddPaths(v, path);
      SecretFieldIsForbiddenKey(casing, Shown(key));
      assert !ForbiddenKeyAt(casing, v, path);
    }
  }

  /** So on string-keyed values the snapshot filter accepts everything the audit filter accepts. */
  lemma AuditFilterIsStricter(casing: Casing, v: Value)
    requires StringKeyed(v) && !ContainsForbiddenKey(casing, v)
    ensures FindSecretField(casing, v) == None
  {
    InclusionIsExact(casing, v);
    forall path ensures !ShowsSecretAt(casing, v, path) {
      if KeyAt(v, path, false).Some? {
        TuplesOnlyAddPaths(v, path);
        assert KeyAt(v, path, true).Some?;
      }
    }
  }

  /** The converse fails (key `api_key`), and so does the inclusion without string keys: a
      non-string key shown as `token` is refused by the snapshot filter alone. */
  lemma FiltersDiffer(casing: Casing, scalar: string)
    requires KeepsPlain(casing)
    ensures var v := Mapping([Entry(Name("api_key"), Leaf(scalar))]);
            FindSecretField(casing, v) == None && ContainsForbiddenKey(casing, v)
    ensures var v := Mapping([Entry(Other("token"), Leaf(scalar))]);
            FindSecretField(casing, v) == Some("token") && !ContainsForbiddenKey(casing, v)
  {
    ApiKeyNameTellsThemApart(casing);
    TokenIsSecret(casing);
    SingleKey(casing, Name("api_key"), scalar);
    SingleKey(casing, Other("token"), scalar);
  }

  lemma SingleKey(casing: Casing, key: Key, scalar: string)
    ensures var v := Mapping([Entry(key, Leaf(scalar))]);
            && FindSecretField(casing, v) == (if IsSecretField(casing, Shown(key)) then Some(Shown(key)) else None)
            && ContainsForbiddenKey(casing, v) == (key.Name? && IsForbiddenMetadataKey(casing, key.text))
  {
    FindSingleKey((field: string) => IsSecretField(casing, field), key, scalar);
    ContainsSingleKey((k: string) => IsForbiddenMetadataKey(casing, k), key, scalar);
  }

  lemma FindSingleKey(secret: string -> bool, key: Key, scalar: string)
    ensures FindKey(secret, Mapping([Entry(key, Leaf(scalar))])) == if secret(Shown(key)) then Some(Shown(key))
            else None
  {
    var entries := [Entry(key, Leaf(scalar))];
    assert FindKey(secret, Leaf(scalar)) == None && entries[0].value == Leaf(scalar);
    assert FindInEntries(secret, entries, 1) == None;
    assert FindKey(secret, Mapping(entries)) == FindInEntries(secret, entries, 0);
  }

  lemma ContainsSingleKey(forbidden: string -> bool, key: Key, scalar: string)
    ensures ContainsKey(forbidden, Mapping([Entry(key, Leaf(scalar))])) == (key.Name? && forbidden(key.text))
  {
    var entries := [Entry(key, Leaf(scalar))];
    assert !ContainsKey(forbidden, Leaf(scalar)) && entries[0].value == Leaf(scalar);
    assert !EntriesContainKey(forbidden, entries, 1);
    assert ContainsKey(forbidden, Mapping(entries)) == EntriesContainKey(forbidden, entries, 0);
  }

  lemma TokenIsSecret(casing: Casing)
    requires KeepsPlain(casing)
    ensures IsSecretField(casing, "token")
  {
    PlainField(casing, "token");
  }

  lemma ApiKeyNameTellsThemApart(casing: Casing)
    requires KeepsPlain(casing)
    ensures !IsSecretField(casing, "api_key") && IsForbiddenMetadataKey(casing, "api_key")
  {
    HarmlessFieldAccepted(casing, "api_key");
    PlainField(casing, "api_key");
    ReplaceAbsent("api_key", '-', '_');
    ReplaceAbsent("api_key", ' ', '_');
  }

  lemma PlainField(casing: Casing, field: string)
    requires KeepsPlain(casing) && Plain(field)
    ensures casing.lower(Strip(casing.isSpace, field)) == field
  {
    StripKeepsEnds(casing.isSpace, field);
  }

  lemma HarmlessFieldAccepted(casing: Casing, field: string)
    requires KeepsPlain(casing) && Plain(field) && !SecretShape(field)
    ensures !IsSecretField(casing, field)
  {
    PlainField(casing, field);
    SecretFieldsHaveShape(field);
  }

  // ---- Which names are secret ----

  /** A field name is secret, once stripped and lowered, exactly when it is one of nine names or ends in
      `_token`. */
  lemma SecretNamesExactly(casing: Casing, a: string, middle: string, b: string)
    requires forall i :: 0 <= i < |a| ==> casing.isSpace(a[i])
    requires forall i :: 0 <= i < |b| ==> casing.isSpace(b[i])
    requires middle == [] || (!casing.isSpace(middle[0]) && !casing.isSpace(middle[|middle| - 1]))
    ensures var n := casing.lower(middle);
            IsSecretField(casing, a + middle + b)
            <==> n in {"access_token", "authorization", "bearer_token", "key_hash", "password", "password_hash",
                       "raw_api_key", "raw_key", "token"}
                 || (|n| >= 6 && n[|n| - 6..] == "_token")
  {
    StripExactly(casing.isSpace, a, middle, b);
  }

  /** A metadata key is forbidden, once stripped, lowered and with hyphens and blanks turned into
      underscores, exactly when it is one of fourteen names or has one of four endings. */
  lemma ForbiddenNamesExactly(casing: Casing, a: string, middle: string, b: string, n: string)
    requires forall i :: 0 <= i < |a| ==> casing.isSpace(a[i])
    requires forall i :: 0 <= i < |b| ==> casing.isSpace(b[i])
    requires middle == [] || (!casing.isSpace(middle[0]) && !casing.isSpace(middle[|middle| - 1]))
    requires var low := casing.lower(middle);
             |n| == |low|
             && forall i :: 0 <= i < |n| ==> n[i] == if low[i] == '-' || low[i] == ' ' then '_' else low[i]
    ensures IsForbiddenMetadataKey(casing, a + middle + b)
            <==> n in {"access_token", "api_key", "authorization", "bearer_token", "key_hash", "password",
                       "password_hash", "raw_api_key", "raw_key", "raw_password", "raw_token", "refresh_token",
                       "secret", "token"}
                 || (|n| >= 5 && n[|n| - 5..] == "_hash") || (|n| >= 9 && n[|n| - 9..] == "_password")
                 || (|n| >= 7 && n[|n| - 7..] == "_secret") || (|n| >= 6 && n[|n| - 6..] == "_token")
  {
    StripExactly(casing.isSpace, a, middle, b);
    assert NormaliseMetadataKey(casing, a + middle + b) == n;
    hide NormaliseMetadataKey, Strip;
    ForbiddenSuffixes(n);
    hide HasForbiddenSuffix;
  }

  lemma ForbiddenSuffixes(n: string)
    ensures HasForbiddenSuffix(n)
            <==> (|n| >= 5 && n[|n| - 5..] == "_hash") || (|n| >= 9 && n[|n| - 9..] == "_password")
                 || (|n| >= 7 && n[|n| - 7..] == "_secret") || (|n| >= 6 && n[|n| - 6..] == "_token")
  {
  }

  // ---- The sanitised API-key snapshot ----

  function WithoutKey(entries: seq<Entry>, name: string): seq<Entry> {
    if entries == [] then []
    else (if entries[0].key == Name(name) then [] else [entries[0]]) + WithoutKey(entries[1..], name)
  }

  predicate HasKey(entries: seq<Entry>, name: string) {
    exists i :: 0 <= i < |entries| && entries[i].key == Name(name)
  }

  /** Assigning a key: in place when the key is there, at the end when it is not. */
  function WithKey(entries: seq<Entry>, name: string, value: Value): seq<Entry> {
    if HasKey(entries, name) then
      seq(|entries|, i requires 0 <= i < |entries| =>
        if entries[i].key == Name(name) then Entry(Name(name), value) else entries[i])
    else entries + [Entry(Name(name), value)]
  }

  const REPLAY_NOTE_FIELDS: seq<string> := ["secret_available", "reason"]
  const REPLAY_REASON := "raw API key material is returned only by the initial create response and is not replayed"
  const REPLAY_NOTE := Fields(REPLAY_NOTE_FIELDS, ["false", REPLAY_REASON])

  /** The stored snapshot of an API-key creation: no raw key, and a note in its place. */
  function ReplayBody(entries: seq<Entry>): Value {
    Mapping(WithKey(WithoutKey(entries, "raw_key"), "idempotency_replay", REPLAY_NOTE))
  }

  predicate EntryAccepted(casing: Casing, e: Entry) {
    !IsSecretField(casing, Shown(e.key)) && FindSecretField(casing, e.value) == None
  }

  lemma EntriesAccepted(casing: Casing, entries: seq<Entry>)
    ensures FindSecretField(casing, Mapping(entries)) == None
            <==> forall k :: 0 <= k < |entries| ==> EntryAccepted(casing, entries[k])
  {
    var secret := (field: string) => IsSecretField(casing, field);
    FindsNothing(secret, entries, 0);
    forall k | 0 <= k < |entries|
      ensures EntryAccepted(casing, entries[k])
              == (!secret(Shown(entries[k].key)) && FindKey(secret, entries[k].value) == None)
    {
    }
  }

  lemma {:induction false} FindsNothing(secret: string -> bool, entries: seq<Entry>, i: nat)
    requires i <= |entries|
    ensures FindInEntries(secret, entries, i) == None
            <==> forall k :: i <= k < |entries|
                   ==> !secret(Shown(entries[k].key)) && FindKey(secret, entries[k].value) == None
    decreases |entries| - i
  {
    if i < |entries| {
      FindsNothing(secret, entries, i + 1);
    }
  }

  lemma {:induction false} WithoutKeyMembers(entries: seq<Entry>, name: string)
    ensures forall e :: e in WithoutKey(entries, name) <==> e in entries && e.key != Name(name)
  {
    if entries != [] {
      WithoutKeyMembers(entries[1..], name);
      assert entries == [entries[0]] + entries[1..];
    }
  }

  lemma NoteIsAccepted(casing: Casing)
    requires KeepsPlain(casing)
    ensures EntryAccepted(casing, Entry(Name("idempotency_replay"), REPLAY_NOTE))
  {
    HarmlessFieldAccepted(casing, "idempotency_replay");
    NoteFieldsAreHarmless();
    hide REPLAY_REASON;
    FieldsAccepted(casing, REPLAY_NOTE_FIELDS, ["false", REPLAY_REASON]);
  }

  /** A sanitised body is stored exactly when every secret key of the original lay in the top-level
      `raw_key` entry, or under an `idempotency_replay` entry that the note overwrites. */
  lemma ReplayBodyAccepted(casing: Casing, entries: seq<Entry>)
    requires KeepsPlain(casing)
    ensures FindSecretField(casing, ReplayBody(entries)) == None
            <==> forall e :: e in entries && e.key != Name("raw_key") && e.key != Name("idempotency_replay")
                             ==> EntryAccepted(casing, e)
  {
    var kept := WithoutKey(entries, "raw_key");
    var note := Entry(Name("idempotency_replay"), REPLAY_NOTE);
    var stored := WithKey(kept, "idempotency_replay", REPLAY_NOTE);
    WithoutKeyMembers(entries, "raw_key");
    NoteIsAccepted(casing);
    EntriesAccepted(casing, stored);
    NoteReplaces(kept, note, stored);
    forall k | 0 <= k < |stored| ensures stored[k] in stored {
    }
  }

  lemma NoteReplaces(kept: seq<Entry>, note: Entry, stored: seq<Entry>)
    requires note == Entry(Name("idempotency_replay"), REPLAY_NOTE)
    requires stored == WithKey(kept, "idempotency_replay", REPLAY_NOTE)
    ensures forall e :: e in stored <==> e == note || (e in kept && e.key != note.key)
  {
    forall e | e in kept && e.key != note.key ensures e in stored {
      var k :| 0 <= k < |kept| && kept[k] == e;
      assert stored[k] == e;
    }
    if HasKey(kept, "idempotency_replay") {
      var i :| 0 <= i < |kept| && kept[i].key == note.key;
      assert stored[i] == note;
    }
  }

  /** The entry that a sanitised body carries in place of the raw key. */
  function ReplayNote(): Entry {
    Entry(Name("idempotency_replay"),
          Mapping([
            Entry(Name("secret_available"), Leaf("false")),
            Entry(Name("reason"),
              Leaf("raw API key material is returned only by the initial create response and is not replayed"))]))
  }

  /** Sanitising takes out the raw key, keeps everything else in its order and adds the note. */
  lemma ReplayBodyIs(kept: seq<Entry>, raw: Value, rest: seq<Entry>)
    requires forall e :: e in kept + rest ==> e.key != Name("raw_key") && e.key != Name("idempotency_replay")
    ensures ReplayBody(kept + [Entry(Name("raw_key"), raw)] + rest) == Mapping(kept + rest + [ReplayNote()])
    ensures ReplayBody(kept + rest) == Mapping(kept + rest + [ReplayNote()])
  {
    NoteIsLiteral();
    hide REPLAY_NOTE, ReplayNote;
    forall e | e in kept || e in rest ensures e in kept + rest {
    }
    hide WithoutKey, WithKey;
    WithoutFrom("raw_key", kept, raw, rest);
    AddedAtEnd("idempotency_replay", REPLAY_NOTE, kept + rest);
  }

  lemma NoteIsLiteral()
    ensures Entry(Name("idempotency_replay"), REPLAY_NOTE) == ReplayNote()
  {
    assert REPLAY_NOTE.entries[0] == Entry(Name("secret_available"), Leaf("false"));
    assert REPLAY_NOTE.entries[1] == Entry(Name("reason"), Leaf(REPLAY_REASON));
    assert |REPLAY_NOTE.entries| == 2;
    assert REPLAY_NOTE.entries
        == [Entry(Name("secret_available"), Leaf("false")), Entry(Name("reason"), Leaf(REPLAY_REASON))];
  }

  lemma AddedAtEnd(name: string, value: Value, entries: seq<Entry>)
    requires forall e :: e in entries ==> e.key != Name(name)
    ensures WithKey(entries, name, value) == entries + [Entry(Name(name), value)]
  {
    forall i | 0 <= i < |entries| ensures entries[i].key != Name(name) {
      assert entries[i] in entries;
    }
  }

  lemma {:induction false} WithoutFrom(name: string, kept: seq<Entry>, value: Value, rest: seq<Entry>)
    requires forall e :: e in kept || e in rest ==> e.key != Name(name)
    ensures WithoutKey(kept + [Entry(Name(name), value)] + rest, name) == kept + rest
    ensures WithoutKey(kept + rest, name) == kept + rest
  {
    var e := Entry(Name(name), value);
    if kept == [] {
      assert kept + [e] + rest == [e] + rest && ([e] + rest)[1..] == rest && kept + rest == rest;
      WithoutNothing(name, rest);
    } else {
      assert kept[0] in kept;
      assert (kept + [e] + rest)[1..] == kept[1..] + [e] + rest && (kept + rest)[1..] == kept[1..] + rest;
      WithoutFrom(name, kept[1..], value, rest);
    }
  }

  lemma {:induction false} WithoutNothing(name: string, entries: seq<Entry>)
    requires forall e :: e in entries ==> e.key != Name(name)
    ensures WithoutKey(entries, name) == entries
  {
    if entries != [] {
      assert entries[0] in entries;
      WithoutNothing(name, entries[1..]);
    }
  }

  // ---- What the services actually write ----

  /** A flat response or metadata mapping. */
  function Fields(names: seq<string>, scalars: seq<string>): Value
    requires |names| == |scalars|
  {
    Mapping(seq(|names|, i requires 0 <= i < |names| => Entry(Name(names[i]), Leaf(scalars[i]))))
  }

  const ORGANISATION_FIELDS: seq<string> := ["id", "name", "slug", "created_at", "updated_at"]
  const PROJECT_FIELDS: seq<string> :=
    ["id", "organisation_id", "name", "status", "description", "created_by_user_id", "updated_by_user_id",
     "created_at", "updated_at"]
  const API_KEY_FIELDS: seq<string> :=
    ["id", "organisation_id", "name", "key_prefix", "created_by_user_id", "revoked_at", "last_used_at",
     "created_at", "updated_at"]

  function ApiKeyCreateEntries(scalars: seq<string>, rawKey: string): seq<Entry>
    requires |scalars| == |API_KEY_FIELDS|
  {
    [Entry(Name("api_key"), Fields(API_KEY_FIELDS, scalars)), Entry(Name("raw_key"), Leaf(rawKey))]
  }

  /** A name that neither filter can take for a secret one. */
  predicate Harmless(name: string) {
    Plain(name) && !SecretShape(name)
  }

  lemma FieldsAccepted(casing: Casing, names: seq<string>, scalars: seq<string>)
    requires KeepsPlain(casing) && |names| == |scalars|
    requires forall i :: 0 <= i < |names| ==> Harmless(names[i])
    ensures FindSecretField(casing, Fields(names, scalars)) == None
  {
    var v := Fields(names, scalars);
    forall i | 0 <= i < |names| ensures EntryAccepted(casing, v.entries[i]) {
      HarmlessFieldAccepted(casing, names[i]);
    }
    EntriesAccepted(casing, v.entries);
  }

  lemma NoteFieldsAreHarmless()
    ensures forall i :: 0 <= i < |REPLAY_NOTE_FIELDS| ==> Harmless(REPLAY_NOTE_FIELDS[i])
  {
  }

  lemma OrganisationFieldsAreHarmless()
    ensures forall i :: 0 <= i < |ORGANISATION_FIELDS| ==> Harmless(ORGANISATION_FIELDS[i])
  {
  }

  lemma ProjectFieldsAreHarmless()
    ensures forall i :: 0 <= i < |PROJECT_FIELDS| ==> Harmless(PROJECT_FIELDS[i])
  {
  }

  lemma ApiKeyFieldsAreHarmless()
    ensures forall i :: 0 <= i < |API_KEY_FIELDS| ==> Harmless(API_KEY_FIELDS[i])
  {
  }

  lemma ApiKeyFieldsAccepted(casing: Casing, scalars: seq<string>)
    requires KeepsPlain(casing) && |scalars| == |API_KEY_FIELDS|
    ensures EntryAccepted(casing, Entry(Name("api_key"), Fields(API_KEY_FIELDS, scalars)))
  {
    HarmlessFieldAccepted(casing, "api_key");
    ApiKeyFieldsAreHarmless();
    FieldsAccepted(casing, API_KEY_FIELDS, scalars);
  }

  lemma RawKeyIsSecret(casing: Casing)
    requires KeepsPlain(casing)
    ensures IsSecretField(casing, "raw_key")
  {
    PlainField(casing, "raw_key");
  }

  /** None of the three creation routes ever has its snapshot rejected; the API-key route would
      without the sanitising. */
  lemma RouteSnapshotsAccepted(casing: Casing, organisation: seq<string>, project: seq<string>, apiKey: seq<string>,
                               rawKey: string)
    requires KeepsPlain(casing)
    requires |organisation| == |ORGANISATION_FIELDS| && |project| == |PROJECT_FIELDS| && |apiKey| == |API_KEY_FIELDS|
    ensures FindSecretField(casing, Fields(ORGANISATION_FIELDS, organisation)) == None
    ensures FindSecretField(casing, Fields(PROJECT_FIELDS, project)) == None
    ensures FindSecretField(casing, ReplayBody(ApiKeyCreateEntries(apiKey, rawKey))) == None
    ensures FindSecretField(casing, Mapping(ApiKeyCreateEntries(apiKey, rawKey))) == Some("raw_key")
  {
    OrganisationFieldsAreHarmless();
    FieldsAccepted(casing, ORGANISATION_FIELDS, organisation);
    ProjectFieldsAreHarmless();
    FieldsAccepted(casing, PROJECT_FIELDS, project);
    ApiKeyFieldsAccepted(casing, apiKey);
    RawKeyIsSecret(casing);
    var entries := ApiKeyCreateEntries(apiKey, rawKey);
    ReplayBodyAccepted(casing, entries);
    FirstEntryAccepted(casing, entries);
  }

  lemma FirstEntryAccepted(casing: Casing, entries: seq<Entry>)
    requires |entries| == 2 && EntryAccepted(casing, entries[0])
    requires IsSecretField(casing, Shown(entries[1].key))
    ensures FindSecretField(casing, Mapping(entries)) == Some(Shown(entries[1].key))
  {
    SecondEntryFound((field: string) => IsSecretField(casing, field), entries);
  }

  lemma SecondEntryFound(secret: string -> bool, entries: seq<Entry>)
    requires |entries| == 2 && !secret(Shown(entries[0].key)) && FindKey(secret, entries[0].value) == None
    requires secret(Shown(entries[1].key))
    ensures FindKey(secret, Mapping(entries)) == Some(Shown(entries[1].key))
  {
    assert FindInEntries(secret, entries, 1) == Some(Shown(entries[1].key));
    assert FindKey(secret, Mapping(entries)) == FindInEntries(secret, entries, 0);
  }

  /** The metadata a service records with a fact; `show` prints an identifier. */
  function MetadataOf(show: nat -> string, fact: Fact): Value {
    match fact
    case UserRegistered => Mapping([])
    case UserLoggedIn => Mapping([])
    case OrganisationCreated => Mapping([])
    case OrganisationUpdated(fields) => ChangedFields(fields)
    case MemberAdded(user, role) => Fields(["user_id", "role"], [show(user), RoleText(role)])
    case MemberRoleChanged(user, oldRole, role) =>
      Fields(["user_id", "old_role", "new_role"], [show(user), RoleText(oldRole), RoleText(role)])
    case MemberRemoved(user, role) => Fields(["user_id", "role"], [show(user), RoleText(role)])
    case ProjectCreated(name, status) => Fields(["project_name", "status"], [name, StatusText(status)])
    case ProjectUpdated(fields) => ChangedFields(fields)
    case ProjectDeleted(name) => Fields(["project_name"], [name])
    case ApiKeyCreated(name, prefix) => Fields(["api_key_name", "key_prefix"], [name, prefix])
    case ApiKeyRevoked(name, prefix) => Fields(["api_key_name", "key_prefix"], [name, prefix])
  }

  function ChangedFields(fields: seq<string>): Value {
    Mapping([Entry(Name("changed_fields"), LeafList(fields))])
  }

  function LeafList(scalars: seq<string>): Value {
    List(seq(|scalars|, i requires 0 <= i < |scalars| => Leaf(scalars[i])))
  }

  predicate HarmlessKey(s: string) {
    Plain(s) && (forall i :: 0 <= i < |s| ==> s[i] != '-') && !MetadataShape(s)
  }

  lemma HarmlessKeyAllowed(casing: Casing, key: string)
    requires KeepsPlain(casing) && HarmlessKey(key)
    ensures !IsForbiddenMetadataKey(casing, key)
  {
    PlainField(casing, key);
    ReplaceAbsent(key, '-', '_');
    ReplaceAbsent(key, ' ', '_');
    ForbiddenKeysHaveShape(key);
  }

  lemma {:induction false} EntriesFreeOfKeys(forbidden: string -> bool, entries: seq<Entry>, i: nat)
    requires i <= |entries|
    requires forall k :: 0 <= k < |entries| ==> entries[k].key.Name? && !forbidden(entries[k].key.text)
    requires forall k :: 0 <= k < |entries| ==> !ContainsKey(forbidden, entries[k].value)
    ensures !EntriesContainKey(forbidden, entries, i)
    decreases |entries| - i
  {
    if i < |entries| {
      EntriesFreeOfKeys(forbidden, entries, i + 1);
    }
  }

  lemma {:induction false} LeavesAreHarmless(forbidden: string -> bool, items: seq<Value>, i: nat)
    requires i <= |items| && forall k :: 0 <= k < |items| ==> items[k].Leaf?
    ensures !ItemsContainKey(forbidden, items, i)
    decreases |items| - i
  {
    if i < |items| {
      LeavesAreHarmless(forbidden, items, i + 1);
    }
  }

  lemma FieldsHarmless(casing: Casing, names: seq<string>, scalars: seq<string>)
    requires KeepsPlain(casing) && |names| == |scalars| && forall i :: 0 <= i < |names| ==> HarmlessKey(names[i])
    ensures !ContainsForbiddenKey(casing, Fields(names, scalars))
  {
    forall i | 0 <= i < |names| ensures !IsForbiddenMetadataKey(casing, names[i]) {
      HarmlessKeyAllowed(casing, names[i]);
    }
    EntriesFreeOfKeys((key: string) => IsForbiddenMetadataKey(casing, key), Fields(names, scalars).entries, 0);
  }

  lemma ChangedFieldsHarmless(casing: Casing, fields: seq<string>)
    requires KeepsPlain(casing)
    ensures !ContainsForbiddenKey(casing, ChangedFields(fields))
  {
    ChangedFieldsKeyAllowed(casing);
    LeafListHarmless((key: string) => IsForbiddenMetadataKey(casing, key), "changed_fields", fields);
  }

  lemma ChangedFieldsKeyAllowed(casing: Casing)
    requires KeepsPlain(casing)
    ensures !IsForbiddenMetadataKey(casing, "changed_fields")
  {
    HarmlessKeyAllowed(casing, "changed_fields");
  }

  lemma LeafListHarmless(forbidden: string -> bool, key: string, scalars: seq<string>)
    requires !forbidden(key)
    ensures !ContainsKey(forbidden, Mapping([Entry(Name(key), LeafList(scalars))]))
  {
    var entries := [Entry(Name(key), LeafList(scalars))];
    LeavesAreHarmless(forbidden, LeafList(scalars).items, 0);
    EntriesFreeOfKeys(forbidden, entries, 0);
  }

  lemma MemberKeysAreHarmless()
    ensures HarmlessKey("user_id") && HarmlessKey("role") && HarmlessKey("old_role") && HarmlessKey("new_role")
  {
  }

  lemma ProjectKeysAreHarmless()
    ensures HarmlessKey("project_name") && HarmlessKey("status")
  {
  }

  lemma ApiKeyKeysAreHarmless()
    ensures HarmlessKey("api_key_name") && HarmlessKey("key_prefix")
  {
  }

  /** `record_event` never rejects the metadata of any workflow. */
  lemma MetadataNeverRejected(casing: Casing, show: nat -> string, fact: Fact)
    requires KeepsPlain(casing)
    ensures !ContainsForbiddenKey(casing, MetadataOf(show, fact))
  {
    hide RoleText, StatusText;
    match fact
    case OrganisationUpdated(fields) => ChangedFieldsHarmless(casing, fields);
    case ProjectUpdated(fields) => ChangedFieldsHarmless(casing, fields);
    case MemberAdded(user, role) =>
      MemberKeysAreHarmless();
      FieldsHarmless(casing, ["user_id", "role"], [show(user), RoleText(role)]);
    case MemberRoleChanged(user, oldRole, role) =>
      MemberKeysAreHarmless();
      FieldsHarmless(casing, ["user_id", "old_role", "new_role"], [show(user), RoleText(oldRole), RoleText(role)]);
    case MemberRemoved(user, role) =>
      MemberKeysAreHarmless();
      FieldsHarmless(casing, ["user_id", "role"], [show(user), RoleText(role)]);
    case ProjectCreated(name, status) =>
      ProjectKeysAreHarmless();
      FieldsHarmless(casing, ["project_name", "status"], [name, StatusText(status)]);
    case ProjectDeleted(name) =>
      ProjectKeysAreHarmless();
      FieldsHarmless(casing, ["project_name"], [name]);
    case ApiKeyCreated(name, prefix) =>
      ApiKeyKeysAreHarmless();
      FieldsHarmless(casing, ["api_key_name", "key_prefix"], [name, prefix]);
    case ApiKeyRevoked(name, prefix) =>
      ApiKeyKeysAreHarmless();
      FieldsHarmless(casing, ["api_key_name", "key_prefix"], [name, prefix]);
    case _ =>
  }
}
