// Translation files: nested and flat dictionaries, lookups in both, and the conversions between them.
module Translations {
  import opened Text

  /** A dictionary lists its entries in insertion order. Values that are no dictionary are leaves. */
  datatype Json = Leaf(text: string) | Obj(fields: seq<Field>)

  datatype Field = Field(key: string, value: Json)

  type Fields = seq<Field>

  function FieldOf(fs: Fields, key: string): (r: Option<Json>)
    ensures r.Some? ==> Field(key, r.value) in fs
  {
    if fs == [] then None
    else if fs[|fs| - 1].key == key then Some(fs[|fs| - 1].value)
    else FieldOf(fs[..|fs| - 1], key)
  }

  /** A dictionary has no key twice, at any level. */
  predicate Proper(j: Json)
  {
    match j
    case Leaf(_) => true
    case Obj(fs) => ProperFields(fs)
  }

  predicate ProperFields(fs: Fields)
  {
    fs == [] ||
    (var last := fs[|fs| - 1];
     ProperFields(fs[..|fs| - 1]) && FieldOf(fs[..|fs| - 1], last.key).None? && Proper(last.value))
  }

  /** Follow the components from dictionary to dictionary. */
  function Walk(j: Json, path: seq<string>): Option<Json>
    decreases |path|
  {
    if path == [] then Some(j)
    else if j.Leaf? then None
    else
      match FieldOf(j.fields, path[0])
      case None => None
      case Some(sub) => Walk(sub, path[1..])
  }

  // ----- get_nested_value

  /** The key itself if it is there, else the way its components lead. */
  function GetNested(fs: Fields, key: string): Option<Json>
  {
    if FieldOf(fs, key).Some? then FieldOf(fs, key) else Walk(Obj(fs), Split(key, '.'))
  }

  method GetNestedValue(fs: Fields, key: string) returns (value: Option<Json>)
    ensures value == GetNested(fs, key)
  {
    if FieldOf(fs, key).Some? {
      return FieldOf(fs, key);
    }
    var keys := Split(key, '.');
    var current := Obj(fs);
    for i := 0 to |keys|
      invariant Walk(Obj(fs), keys) == Walk(current, keys[i..])
    {
      if current.Obj? && FieldOf(current.fields, keys[i]).Some? {
        assert keys[i..][1..] == keys[i + 1..];
        current := FieldOf(current.fields, keys[i]).value;
      } else {
        return None;
      }
    }
    return Some(current);
  }

  // ----- flatten_json

  function JoinKey(prefix: string, key: string): string
  {
    if prefix != "" then prefix + ['.'] + key else key
  }

  function Flatten(y: Json, prefix: string): map<string, string>
    decreases y, 1
  {
    match y
    case Leaf(v) => map[prefix := v]
    case Obj(fs) => FlattenFields(fs, prefix)
  }

  function FlattenFields(fs: Fields, prefix: string): map<string, string>
    decreases fs, 0
  {
    if fs == [] then map[]
    else
      var last := fs[|fs| - 1];
      FlattenFields(fs[..|fs| - 1], prefix) + Flatten(last.value, JoinKey(prefix, last.key))
  }

  method FlattenJson(y: Json, prefix: string) returns (out: map<string, string>)
    ensures out == Flatten(y, prefix)
    decreases y
  {
    out := map[];
    match y
    case Leaf(v) => out := out[prefix := v];
    case Obj(fs) =>
      for i := 0 to |fs|
        invariant out == FlattenFields(fs[..i], prefix)
      {
        var Field(k, v) := fs[i];
        var more := FlattenJson(v, JoinKey(prefix, k));
        assert fs[..i + 1][..i] == fs[..i];
        out := out + more;
      }
      assert fs[..|fs|] == fs;
  }

  // ----- get_all_keys_from_dict

  function AllKeys(fs: Fields, prefix: string): set<string>
    decreases fs
  {
    if fs == [] then {}
    else
      var last := fs[|fs| - 1];
      var key := JoinKey(prefix, last.key);
      AllKeys(fs[..|fs| - 1], prefix) + {key} + (if last.value.Obj? then AllKeys(last.value.fields, key) else {})
  }

  method GetAllKeys(fs: Fields, prefix: string) returns (keys: set<string>)
    ensures keys == AllKeys(fs, prefix)
    decreases fs
  {
    keys := {};
    for i := 0 to |fs|
      invariant keys == AllKeys(fs[..i], prefix)
    {
      var Field(k, v) := fs[i];
      var current := JoinKey(prefix, k);
      keys := keys + {current};
      if v.Obj? {
        var more := GetAllKeys(v.fields, current);
        keys := keys + more;
      }
      assert fs[..i + 1][..i] == fs[..i];
    }
    assert fs[..|fs|] == fs;
  }

  // ----- Lookups survive flattening

  predicate PlainKey(k: string)
  {
    k != "" && '.' !in k
  }

  /** Every key, at every level, is non-empty and free of dots. */
  predicate PlainKeys(j: Json)
  {
    match j
    case Leaf(_) => true
    case Obj(fs) => PlainFields(fs)
  }

  predicate PlainFields(fs: Fields)
  {
    fs == [] || (PlainFields(fs[..|fs| - 1]) && PlainKey(fs[|fs| - 1].key) && PlainKeys(fs[|fs| - 1].value))
  }

  ghost predicate PlainPath(path: seq<string>)
  {
    forall k | k in path :: PlainKey(k)
  }

  function TextOf(found: Option<Json>): Option<string>
  {
    match found
    case Some(Leaf(v)) => Some(v)
    case _ => None
  }

  function Lookup(m: map<string, string>, k: string): Option<string>
  {
    if k in m then Some(m[k]) else None
  }

  lemma PrefixText(pre: seq<string>, key: string)
    requires PlainPath(pre)
    ensures JoinKey(Join(pre, '.'), key) == Join(pre + [key], '.')
    ensures pre != [] ==> Join(pre, '.') != ""
  {
    if pre != [] {
      assert PlainKey(pre[0]);
      JoinSnoc(pre, key, '.');
    } else {
      assert pre + [key] == [key];
    }
  }

  /** Flattening below a path puts each leaf under its joined path, and nothing else. */
  lemma {:induction false} FlattenAt(y: Json, pre: seq<string>, k: string)
    requires PlainKeys(y) && Proper(y) && PlainPath(pre) && (pre == [] ==> y.Obj?)
    ensures var ks := Split(k, '.');
            Lookup(Flatten(y, Join(pre, '.')), k) == if pre <= ks then TextOf(Walk(y, ks[|pre|..])) else None
    decreases y, 1
  {
    match y
    case Leaf(v) =>
      var ks := Split(k, '.');
      assert forall part | part in pre :: PlainKey(part);
      SplitJoin(pre, '.');
      assert k == Join(pre, '.') <==> ks == pre;
      if pre <= ks && ks != pre { assert Walk(y, ks[|pre|..]).None?; }
    case Obj(fs) =>
      FlattenFieldsAt(fs, pre, k);
  }

  lemma {:induction false} FlattenFieldsAt(fs: Fields, pre: seq<string>, k: string)
    requires PlainFields(fs) && ProperFields(fs) && PlainPath(pre)
    ensures var ks := Split(k, '.');
            Lookup(FlattenFields(fs, Join(pre, '.')), k) == if pre <= ks then TextOf(Walk(Obj(fs), ks[|pre|..])) else None
    decreases fs, 0
  {
    hide Flatten, PlainKeys, Proper, Split, Join, Lookup, JoinKey;
    var ks := Split(k, '.');
    if fs == [] {
      NothingFlat(pre, k);
    } else {
      var front, last := fs[..|fs| - 1], fs[|fs| - 1];
      var here := pre + [last.key];
      FlattenFieldsAt(front, pre, k);
      PrefixText(pre, last.key);
      HerePlain(pre, last.key);
      FlattenAt(last.value, here, k);
      LookupUnion(FlattenFields(front, Join(pre, '.')), Flatten(last.value, Join(here, '.')), k);
      Under(pre, last.key, ks);
      if pre <= ks && |ks| > |pre| {
        var rest := ks[|pre|..];
        assert rest[0] == ks[|pre|] && rest[1..] == ks[|here|..];
      }
    }
  }

  lemma NothingFlat(pre: seq<string>, k: string)
    ensures Lookup(FlattenFields([], Join(pre, '.')), k) == None
    ensures forall path: seq<string> :: TextOf(Walk(Obj([]), path)) == None
  {
  }

  lemma HerePlain(pre: seq<string>, key: string)
    requires PlainPath(pre) && PlainKey(key)
    ensures PlainPath(pre + [key])
  {
  }

  lemma LookupUnion(a: map<string, string>, b: map<string, string>, k: string)
    ensures Lookup(a + b, k) == if Lookup(b, k).Some? then Lookup(b, k) else Lookup(a, k)
  {
  }

  /** With dot-free keys the direct look and the walk agree. */
  lemma GetNestedIsWalk(fs: Fields, key: string)
    requires PlainFields(fs)
    ensures GetNested(fs, key) == Walk(Obj(fs), Split(key, '.'))
  {
    if FieldOf(fs, key).Some? {
      FieldIsPlain(fs, key);
      SplitPlain(key, '.');
    }
  }

  lemma {:induction false} FieldIsPlain(fs: Fields, key: string)
    requires PlainFields(fs) && FieldOf(fs, key).Some?
    ensures PlainKey(key) && PlainKeys(FieldOf(fs, key).value)
  {
    if fs[|fs| - 1].key != key { FieldIsPlain(fs[..|fs| - 1], key); }
  }

  /** `flat` is the dictionary form of the map `m`: one level, in whatever order. */
  ghost predicate IsFlat(flat: Fields, m: map<string, string>)
  {
    && ProperFields(flat)
    && forall k :: FieldOf(flat, k) == match Lookup(m, k) case Some(v) => Some(Leaf(v)) case None => None
  }

  /** Formatting preserves every lookup: leaves stay, and keys that named a sub-dictionary become missing. */
  lemma LookupsSurvive(fs: Fields, flat: Fields, key: string)
    requires PlainFields(fs) && ProperFields(fs) && IsFlat(flat, Flatten(Obj(fs), ""))
    ensures GetNested(flat, key) == match GetNested(fs, key) case Some(Leaf(v)) => Some(Leaf(v)) case _ => None
  {
    var ks := Split(key, '.');
    FlattenAt(Obj(fs), [], key);
    assert Join([], '.') == "" && ks[0..] == ks;
    GetNestedIsWalk(fs, key);
    if FieldOf(flat, key).None? {
      if FieldOf(flat, ks[0]).Some? {
        assert Walk(FieldOf(flat, ks[0]).value, ks[1..]).None?;
      }
    }
  }

  /** The keys collected from a dictionary are exactly those for which a lookup finds something. */
  lemma AllKeysAreFound(fs: Fields, key: string)
    requires PlainFields(fs) && ProperFields(fs)
    ensures key in AllKeys(fs, "") <==> GetNested(fs, key).Some?
  {
    AllKeysAt(fs, [], key);
    assert Join([], '.') == "" && Split(key, '.')[0..] == Split(key, '.');
    GetNestedIsWalk(fs, key);
  }

  lemma {:induction false} AllKeysAt(fs: Fields, pre: seq<string>, k: string)
    requires PlainFields(fs) && ProperFields(fs) && PlainPath(pre)
    ensures var ks := Split(k, '.');
            k in AllKeys(fs, Join(pre, '.')) <==> pre <= ks && ks != pre && Walk(Obj(fs), ks[|pre|..]).Some?
    decreases fs
  {
    hide Split, Join, JoinKey;
    var ks := Split(k, '.');
    if fs == [] {
      assert pre <= ks && ks != pre ==> ks[|pre|..] != [];
    } else {
      var front, last := fs[..|fs| - 1], fs[|fs| - 1];
      var here := pre + [last.key];
      AllKeysAt(front, pre, k);
      PrefixText(pre, last.key);
      HerePlain(pre, last.key);
      SplitHere(here, k);
      if last.value.Obj? { AllKeysAt(last.value.fields, here, k); }
      Under(pre, last.key, ks);
      if pre <= ks && |ks| > |pre| {
        var rest := ks[|pre|..];
        assert rest[0] == ks[|pre|] && rest[1..] == ks[|here|..];
        WalkHead(fs, rest);
        assert here <= ks ==> (ks == here <==> ks[|here|..] == []);
      }
    }
  }

  lemma SplitHere(here: seq<string>, k: string)
    requires here != [] && PlainPath(here)
    ensures k == Join(here, '.') <==> Split(k, '.') == here
  {
    assert forall part | part in here :: PlainKey(part);
    SplitJoin(here, '.');
  }

  lemma WalkHead(fs: Fields, path: seq<string>)
    requires fs != [] && path != []
    ensures var last := fs[|fs| - 1];
            Walk(Obj(fs), path) == if path[0] == last.key then Walk(last.value, path[1..]) else Walk(Obj(fs[..|fs| - 1]), path)
    ensures fs[|fs| - 1].value.Leaf? && path[0] == fs[|fs| - 1].key && |path| > 1 ==> Walk(Obj(fs), path).None?
  {
  }

  lemma Under(pre: seq<string>, key: string, ks: seq<string>)
    ensures pre + [key] <= ks <==> pre <= ks && |ks| > |pre| && ks[|pre|] == key
  {
  }

  /** Formatting a formatted file changes nothing, whatever its keys. */
  lemma FormattingTwice(y: Json, flat: Fields)
    requires IsFlat(flat, Flatten(y, ""))
    ensures Flatten(Obj(flat), "") == Flatten(y, "")
  {
    var m, m' := Flatten(y, ""), Flatten(Obj(flat), "");
    forall k ensures Lookup(m', k) == Lookup(m, k) {
      AllLeaves(flat, m);
      FlatAt(flat, k);
    }
    forall k ensures (k in m <==> k in m') && (k in m ==> m[k] == m'[k]) {
      assert Lookup(m', k) == Lookup(m, k);
    }
  }

  ghost predicate OneLevel(flat: Fields)
  {
    forall f | f in flat :: f.value.Leaf?
  }

  lemma {:induction false} FieldPresent(fs: Fields, f: Field)
    requires ProperFields(fs) && f in fs
    ensures FieldOf(fs, f.key) == Some(f.value)
  {
    var front := fs[..|fs| - 1];
    if f != fs[|fs| - 1] {
      assert f in front;
      FieldPresent(front, f);
    }
  }

  lemma AllLeaves(flat: Fields, m: map<string, string>)
    requires IsFlat(flat, m)
    ensures OneLevel(flat)
  {
    forall f | f in flat ensures f.value.Leaf? {
      FieldPresent(flat, f);
    }
  }

  lemma {:induction false} FlatAt(flat: Fields, k: string)
    requires OneLevel(flat) && ProperFields(flat)
    ensures Lookup(FlattenFields(flat, ""), k) == TextOf(FieldOf(flat, k))
  {
    if flat != [] {
      var front, last := flat[..|flat| - 1], flat[|flat| - 1];
      assert last in flat;
      FlatAt(front, k);
    }
  }

  // ----- create_nested_dict_from_keys

  /** Assignment to a dictionary entry: in place if the key is there, else at the end. */
  function SetField(fs: Fields, key: string, value: Json): (r: Fields)
    ensures r != []
  {
    if FieldOf(fs, key).None? then fs + [Field(key, value)]
    else if fs[|fs| - 1].key == key then fs[..|fs| - 1] + [Field(key, value)]
    else SetField(fs[..|fs| - 1], key, value) + [fs[|fs| - 1]]
  }

  /** Nested assignment, making missing dictionaries on the way; None when a leaf is in the way. */
  function Insert(j: Json, path: seq<string>, text: string): Option<Json>
    requires path != []
    decreases |path|
  {
    if j.Leaf? then None
    else if |path| == 1 then Some(Obj(SetField(j.fields, path[0], Leaf(text))))
    else
      match Insert(SubDict(j.fields, path[0]), path[1..], text)
      case None => None
      case Some(sub) => Some(Obj(SetField(j.fields, path[0], sub)))
  }

  function SubDict(fs: Fields, key: string): Json
  {
    match FieldOf(fs, key) case Some(sub) => sub case None => Obj([])
  }

  /** Where a key's value goes: under the whole key, or down its components. */
  function Address(defaults: Fields, key: string): (a: seq<string>)
    ensures a != [] && Join(a, '.') == key
  {
    if FieldOf(defaults, key).Some? || '.' !in key then [key] else Split(key, '.')
  }

  function ValueFor(defaults: Fields, key: string): string
  {
    match GetNested(defaults, key)
    case Some(Leaf(v)) => v
    case _ => "TODO: Translate '" + key + "'"
  }

  function Created(defaults: Fields, keys: seq<string>): Option<Json>
  {
    if keys == [] then Some(Obj([]))
    else
      var last := keys[|keys| - 1];
      match Created(defaults, keys[..|keys| - 1])
      case None => None
      case Some(j) => Insert(j, Address(defaults, last), ValueFor(defaults, last))
  }

  /** The dictionary object that `cursor` refers to is changed in place; `path` tells where it hangs. */
  function PutAt(j: Json, path: seq<string>, value: Json): Json
    requires path != [] && Walk(j, path[..|path| - 1]).Some? && Walk(j, path[..|path| - 1]).value.Obj?
    decreases |path|
  {
    if |path| == 1 then
      assert Walk(j, []) == Some(j);
      Obj(SetField(j.fields, path[0], value))
    else
      assert path[..|path| - 1][1..] == path[1..][..|path| - 2];
      Obj(SetField(j.fields, path[0], PutAt(FieldOf(j.fields, path[0]).value, path[1..], value)))
  }

  /** No key stands for a sub-dictionary of the defaults. */
  predicate StringValued(defaults: Fields, keys: seq<string>)
  {
    forall k | k in keys :: match GetNested(defaults, k) case Some(Obj(_)) => false case _ => true
  }

  method CreateNestedDict(defaults: Fields, keys: seq<string>) returns (result: Option<Json>)
    requires StringValued(defaults, keys)
    ensures result == Created(defaults, keys)
  {
    var dict := Obj([]);
    for n := 0 to |keys|
      invariant Created(defaults, keys[..n]) == Some(dict)
      invariant dict.Obj?
    {
      var key := keys[n];
      var value := ValueFor(defaults, key);
      assert keys[..n + 1][..n] == keys[..n];
      var next := AssignKey(dict, Address(defaults, key), value);
      match next {
        case None =>
          NeverAfter(defaults, keys, n + 1);
          return None;
        case Some(j) =>
          InsertIsDict(dict, Address(defaults, key), value);
          dict := j;
      }
    }
    assert keys[..|keys|] == keys;
    return Some(dict);
  }

  /** The inner loop: `current` moves down the parts, making dictionaries that are missing. */
  method AssignKey(dict: Json, parts: seq<string>, value: string) returns (result: Option<Json>)
    requires parts != []
    ensures result == Insert(dict, parts, value)
  {
    var tree := dict;
    var cursor: seq<string> := [];
    assert parts[..0] == [];
    for i := 0 to |parts| - 1
      invariant cursor == parts[..i] && Walk(tree, cursor).Some?
      invariant Insert(tree, parts, value) == Insert(dict, parts, value)
    {
      var current := Walk(tree, cursor).value;
      assert parts == cursor + parts[i..];
      if current.Leaf? {
        LeafInTheWay(tree, cursor, parts[i..], value);
        return None;
      }
      var part := parts[i];
      assert (cursor + [part])[..|cursor + [part]| - 1] == cursor;
      if FieldOf(current.fields, part).None? {
        assert parts == cursor + [part] + parts[i + 1..];
        EmptyMakesNoDifference(tree, cursor, part, parts[i + 1..], value);
        PutThenWalk(tree, cursor + [part], Obj([]));
        tree := PutAt(tree, cursor + [part], Obj([]));
      } else {
        WalkSnoc(tree, cursor, part);
      }
      cursor := cursor + [part];
    }
    var current := Walk(tree, cursor).value;
    assert parts == cursor + [parts[|parts| - 1]];
    if current.Leaf? {
      LeafInTheWay(tree, cursor, [parts[|parts| - 1]], value);
      return None;
    }
    PutIsInsert(tree, parts, value);
    return Some(PutAt(tree, parts, Leaf(value)));
  }

  lemma {:induction false} NeverAfter(defaults: Fields, keys: seq<string>, n: nat)
    requires n <= |keys| && Created(defaults, keys[..n]).None?
    ensures Created(defaults, keys).None?
    decreases |keys|
  {
    if n < |keys| {
      assert keys[..|keys| - 1][..n] == keys[..n];
      NeverAfter(defaults, keys[..|keys| - 1], n);
    } else {
      assert keys[..n] == keys;
    }
  }

  lemma InsertIsDict(j: Json, path: seq<string>, text: string)
    requires path != []
    ensures Insert(j, path, text).Some? ==> Insert(j, path, text).value.Obj?
  {
  }

  lemma {:induction false} FieldSet(fs: Fields, key: string, value: Json, k: string)
    ensures FieldOf(SetField(fs, key, value), k) == if k == key then Some(value) else FieldOf(fs, k)
  {
    if fs != [] && fs[|fs| - 1].key != key { FieldSet(fs[..|fs| - 1], key, value, k); }
  }

  lemma {:induction false} SetTwice(fs: Fields, key: string, a: Json, b: Json)
    ensures SetField(SetField(fs, key, a), key, b) == SetField(fs, key, b)
  {
    FieldSet(fs, key, a, key);
    if FieldOf(fs, key).None? {
      assert (fs + [Field(key, a)])[..|fs|] == fs;
    } else if fs[|fs| - 1].key != key {
      FieldSet(fs[..|fs| - 1], key, a, key);
      SetTwice(fs[..|fs| - 1], key, a, b);
    }
  }

  lemma {:induction false} WalkSnoc(j: Json, path: seq<string>, part: string)
    requires Walk(j, path).Some? && Walk(j, path).value.Obj?
    ensures Walk(j, path + [part]) == FieldOf(Walk(j, path).value.fields, part)
    decreases |path|
  {
    if path == [] {
      assert path + [part] == [part];
    } else {
      assert (path + [part])[1..] == path[1..] + [part];
      WalkSnoc(FieldOf(j.fields, path[0]).value, path[1..], part);
    }
  }

  lemma {:induction false} LeafInTheWay(j: Json, path: seq<string>, rest: seq<string>, text: string)
    requires rest != [] && Walk(j, path).Some? && Walk(j, path).value.Leaf?
    ensures Insert(j, path + rest, text).None?
    decreases |path|
  {
    if path == [] {
      assert path + rest == rest;
    } else {
      assert (path + rest)[1..] == path[1..] + rest;
      LeafInTheWay(FieldOf(j.fields, path[0]).value, path[1..], rest, text);
    }
  }

  lemma {:induction false} PutThenWalk(j: Json, path: seq<string>, value: Json)
    requires path != [] && Walk(j, path[..|path| - 1]).Some? && Walk(j, path[..|path| - 1]).value.Obj?
    ensures Walk(PutAt(j, path, value), path) == Some(value)
    decreases |path|
  {
    if |path| == 1 {
      FieldSet(j.fields, path[0], value, path[0]);
    } else {
      assert path[..|path| - 1][1..] == path[1..][..|path| - 2];
      var sub := FieldOf(j.fields, path[0]).value;
      PutThenWalk(sub, path[1..], value);
      FieldSet(j.fields, path[0], PutAt(sub, path[1..], value), path[0]);
    }
  }

  /** Making the missing dictionary first does not change what the whole assignment comes to. */
  lemma {:induction false} EmptyMakesNoDifference(j: Json, path: seq<string>, part: string, rest: seq<string>, text: string)
    requires rest != [] && Walk(j, path).Some? && Walk(j, path).value.Obj?
    requires FieldOf(Walk(j, path).value.fields, part).None?
    requires (path + [part])[..|path + [part]| - 1] == path
    ensures Insert(PutAt(j, path + [part], Obj([])), path + [part] + rest, text) == Insert(j, path + [part] + rest, text)
    decreases |path|
  {
    var whole := path + [part] + rest;
    if path == [] {
      assert path + [part] == [part] && whole[1..] == rest && whole[0] == part;
      FieldSet(j.fields, part, Obj([]), part);
      var deeper := Insert(Obj([]), rest, text);
      if deeper.Some? { SetTwice(j.fields, part, Obj([]), deeper.value); }
    } else {
      var sub := FieldOf(j.fields, path[0]).value;
      assert whole[1..] == path[1..] + [part] + rest && (path + [part])[1..] == path[1..] + [part];
      assert (path[1..] + [part])[..|path[1..] + [part]| - 1] == path[1..];
      EmptyMakesNoDifference(sub, path[1..], part, rest, text);
      var sub' := PutAt(sub, path[1..] + [part], Obj([]));
      FieldSet(j.fields, path[0], sub', path[0]);
      var deeper := Insert(sub, whole[1..], text);
      if deeper.Some? { SetTwice(j.fields, path[0], sub', deeper.value); }
    }
  }

  lemma {:induction false} PutIsInsert(j: Json, path: seq<string>, text: string)
    requires path != [] && Walk(j, path[..|path| - 1]).Some? && Walk(j, path[..|path| - 1]).value.Obj?
    ensures Insert(j, path, text) == Some(PutAt(j, path, Leaf(text)))
    decreases |path|
  {
    if |path| > 1 {
      assert path[..|path| - 1][1..] == path[1..][..|path| - 2];
      PutIsInsert(FieldOf(j.fields, path[0]).value, path[1..], text);
    }
  }

  // ----- Nesting and flattening

  function TextAt(j: Json, path: seq<string>): Option<string>
  {
    TextOf(Walk(j, path))
  }

  /** An assignment sets one leaf, drops what lay below it, and leaves every other leaf alone. */
  lemma {:induction false} InsertLeafAt(j: Json, path: seq<string>, text: string, q: seq<string>)
    requires path != [] && Insert(j, path, text).Some?
    ensures TextAt(Insert(j, path, text).value, q) ==
            if q == path then Some(text) else if path <= q then None else TextAt(j, q)
    decreases |path|
  {
    hide SetField;
    var j' := Insert(j, path, text).value;
    if q != [] {
      if |path| == 1 {
        FieldSet(j.fields, path[0], Leaf(text), q[0]);
        assert path == [path[0]] && q == [q[0]] + q[1..];
        assert path <= q <==> q[0] == path[0];
        assert q[0] == path[0] ==> Walk(j', q) == Walk(Leaf(text), q[1..]);
      } else {
        var sub := SubDict(j.fields, path[0]);
        var sub' := Insert(sub, path[1..], text).value;
        FieldSet(j.fields, path[0], sub', q[0]);
        if q[0] == path[0] {
          InsertLeafAt(sub, path[1..], text, q[1..]);
          assert q == [q[0]] + q[1..] && path == [path[0]] + path[1..];
          assert path <= q <==> path[1..] <= q[1..];
          assert TextAt(sub, q[1..]) == TextAt(j, q);
        }
      }
    }
  }

  /** An assignment fails only if a leaf is in its way. */
  lemma {:induction false} InsertFails(j: Json, path: seq<string>, text: string) returns (q: seq<string>)
    requires path != [] && Insert(j, path, text).None?
    ensures q < path && TextAt(j, q).Some?
    decreases |path|
  {
    if j.Leaf? {
      q := [];
    } else {
      var sub := SubDict(j.fields, path[0]);
      var r := InsertFails(sub, path[1..], text);
      q := [path[0]] + r;
      assert q[1..] == r && path == [path[0]] + path[1..];
    }
  }

  lemma {:induction false} SetKeepsProper(fs: Fields, key: string, value: Json)
    requires ProperFields(fs) && Proper(value)
    ensures ProperFields(SetField(fs, key, value))
  {
    if fs != [] && fs[|fs| - 1].key != key {
      SetKeepsProper(fs[..|fs| - 1], key, value);
      FieldSet(fs[..|fs| - 1], key, value, fs[|fs| - 1].key);
    }
  }

  lemma {:induction false} FieldProper(fs: Fields, key: string)
    requires ProperFields(fs) && FieldOf(fs, key).Some?
    ensures Proper(FieldOf(fs, key).value)
  {
    if fs[|fs| - 1].key != key { FieldProper(fs[..|fs| - 1], key); }
  }

  lemma {:induction false} InsertKeepsProper(j: Json, path: seq<string>, text: string)
    requires path != [] && Insert(j, path, text).Some? && Proper(j)
    ensures Proper(Insert(j, path, text).value)
    decreases |path|
  {
    if |path| == 1 {
      SetKeepsProper(j.fields, path[0], Leaf(text));
    } else {
      var sub := SubDict(j.fields, path[0]);
      if FieldOf(j.fields, path[0]).Some? { FieldProper(j.fields, path[0]); }
      InsertKeepsProper(sub, path[1..], text);
      SetKeepsProper(j.fields, path[0], Insert(sub, path[1..], text).value);
    }
  }

  /** No top-level key is empty: below an empty key the prefix test of flatten_json loses the dot. */
  predicate NoEmptyTop(fs: Fields)
  {
    forall f | f in fs :: f.key != ""
  }

  lemma {:induction false} SetTop(fs: Fields, key: string, value: Json)
    requires NoEmptyTop(fs) && key != ""
    ensures NoEmptyTop(SetField(fs, key, value))
  {
    if fs != [] && fs[|fs| - 1].key != key { SetTop(fs[..|fs| - 1], key, value); }
  }

  lemma PrefixJoin(pre: seq<string>, key: string)
    requires pre == [] || pre[0] != ""
    ensures JoinKey(Join(pre, '.'), key) == Join(pre + [key], '.')
  {
    if pre != [] { JoinSnoc(pre, key, '.'); } else { assert pre + [key] == [key]; }
  }

  /** Each flattened entry comes from a leaf. */
  lemma {:induction false} FlattenSound(j: Json, pre: seq<string>, k: string) returns (p: seq<string>)
    requires Proper(j) && k in Flatten(j, Join(pre, '.'))
    requires if pre == [] then j.Obj? && NoEmptyTop(j.fields) else pre[0] != ""
    ensures k == Join(pre + p, '.') && TextAt(j, p) == Some(Flatten(j, Join(pre, '.'))[k])
    decreases j, 1
  {
    match j
    case Leaf(_) =>
      p := [];
      assert pre + p == pre;
    case Obj(fs) =>
      p := FlattenFieldsSound(fs, pre, k);
  }

  lemma {:induction false} FlattenFieldsSound(fs: Fields, pre: seq<string>, k: string) returns (p: seq<string>)
    requires ProperFields(fs) && k in FlattenFields(fs, Join(pre, '.'))
    requires if pre == [] then NoEmptyTop(fs) else pre[0] != ""
    ensures p != [] && k == Join(pre + p, '.') && TextAt(Obj(fs), p) == Some(FlattenFields(fs, Join(pre, '.'))[k])
    decreases fs, 0
  {
    hide Flatten, Join, JoinKey, Proper;
    var front, last := fs[..|fs| - 1], fs[|fs| - 1];
    PrefixJoin(pre, last.key);
    if k in Flatten(last.value, Join(pre + [last.key], '.')) {
      var r := FlattenSound(last.value, pre + [last.key], k);
      p := [last.key] + r;
      assert pre + p == pre + [last.key] + r && p[1..] == r;
    } else {
      p := FlattenFieldsSound(front, pre, k);
      assert FieldOf(front, p[0]).Some?;
      assert p[0] != last.key;
    }
  }

  /** Each leaf is flattened. */
  lemma {:induction false} FlattenComplete(j: Json, pre: seq<string>, p: seq<string>)
    requires TextAt(j, p).Some?
    requires if pre == [] then j.Obj? && NoEmptyTop(j.fields) else pre[0] != ""
    ensures Join(pre + p, '.') in Flatten(j, Join(pre, '.'))
    decreases j, 1
  {
    match j
    case Leaf(_) => assert pre + p == pre;
    case Obj(fs) => FlattenFieldsComplete(fs, pre, p);
  }

  lemma {:induction false} FlattenFieldsComplete(fs: Fields, pre: seq<string>, p: seq<string>)
    requires p != [] && TextAt(Obj(fs), p).Some?
    requires if pre == [] then NoEmptyTop(fs) else pre[0] != ""
    ensures Join(pre + p, '.') in FlattenFields(fs, Join(pre, '.'))
    decreases fs, 0
  {
    var front, last := fs[..|fs| - 1], fs[|fs| - 1];
    PrefixJoin(pre, last.key);
    if last.key == p[0] {
      FlattenComplete(last.value, pre + [last.key], p[1..]);
      assert pre + [last.key] + p[1..] == pre + p;
    } else {
      assert TextAt(Obj(front), p) == TextAt(Obj(fs), p);
      FlattenFieldsComplete(front, pre, p);
    }
  }

  // ----- The created dictionary

  /** A key as the scan produces it: not empty and not starting with a dot. */
  predicate ScannedKey(k: string)
  {
    k != "" && k[0] != '.'
  }

  lemma AddressHead(defaults: Fields, k: string)
    requires ScannedKey(k)
    ensures Address(defaults, k)[0] != ""
  {
  }

  /** No key's address is a proper beginning of another's. */
  predicate AddressFree(defaults: Fields, keys: seq<string>)
  {
    forall a, b | a in keys && b in keys :: !(Address(defaults, a) < Address(defaults, b))
  }

  ghost predicate LeavesAreKeys(defaults: Fields, keys: seq<string>, j: Json)
  {
    forall p | TextAt(j, p).Some? :: exists k :: k in keys && p == Address(defaults, k) && TextAt(j, p).value == ValueFor(defaults, k)
  }

  lemma {:induction false} CreatedShape(defaults: Fields, keys: seq<string>)
    requires forall k | k in keys :: ScannedKey(k)
    ensures match Created(defaults, keys)
            case None => true
            case Some(j) => j.Obj? && Proper(j) && NoEmptyTop(j.fields) && LeavesAreKeys(defaults, keys, j)
  {
    if keys != [] && Created(defaults, keys[..|keys| - 1]).Some? {
      var front, last := keys[..|keys| - 1], keys[|keys| - 1];
      CreatedShape(defaults, front);
      var j := Created(defaults, front).value;
      var a, v := Address(defaults, last), ValueFor(defaults, last);
      if Insert(j, a, v).Some? {
        var j' := Insert(j, a, v).value;
        InsertKeepsProper(j, a, v);
        AddressHead(defaults, last);
        InsertTop(j, a, v);
        forall p | TextAt(j', p).Some?
          ensures exists k :: k in keys && p == Address(defaults, k) && TextAt(j', p).value == ValueFor(defaults, k)
        {
          InsertLeafAt(j, a, v, p);
          if p == a { assert last in keys; }
        }
      }
    } else if keys == [] {
      assert forall p :: TextAt(Obj([]), p).None?;
    }
  }

  lemma InsertTop(j: Json, path: seq<string>, text: string)
    requires path != [] && path[0] != "" && Insert(j, path, text).Some? && j.Obj? && NoEmptyTop(j.fields)
    ensures Insert(j, path, text).value.Obj? && NoEmptyTop(Insert(j, path, text).value.fields)
  {
    if |path| == 1 {
      SetTop(j.fields, path[0], Leaf(text));
    } else {
      SetTop(j.fields, path[0], Insert(SubDict(j.fields, path[0]), path[1..], text).value);
    }
  }

  /** Without address clashes nothing fails and every key keeps its leaf. */
  lemma {:induction false} CreatedKeepsAll(defaults: Fields, keys: seq<string>)
    requires (forall k | k in keys :: ScannedKey(k)) && AddressFree(defaults, keys)
    ensures Created(defaults, keys).Some?
    ensures forall k | k in keys :: TextAt(Created(defaults, keys).value, Address(defaults, k)) == Some(ValueFor(defaults, k))
  {
    if keys != [] {
      var front, last := keys[..|keys| - 1], keys[|keys| - 1];
      CreatedKeepsAll(defaults, front);
      CreatedShape(defaults, front);
      var j := Created(defaults, front).value;
      var a, v := Address(defaults, last), ValueFor(defaults, last);
      if Insert(j, a, v).None? {
        var q := InsertFails(j, a, v);
        assert false;
      }
      forall k | k in keys ensures TextAt(Insert(j, a, v).value, Address(defaults, k)) == Some(ValueFor(defaults, k)) {
        InsertLeafAt(j, a, v, Address(defaults, k));
        if Address(defaults, k) == a {
          assert Join(a, '.') == k == last;
        } else {
          assert k in front;
        }
      }
    }
  }

  function Expected(defaults: Fields, keys: seq<string>): map<string, string>
  {
    map k | k in keys :: ValueFor(defaults, k)
  }

  /**
   * Flattening the created dictionary gives exactly the given keys with their values if and only
   * if no key's address is a proper beginning of another's. Otherwise the creation fails or a key
   * is lost. The order of the keys plays no part.
   */
  lemma NestThenFlatten(defaults: Fields, keys: seq<string>)
    requires (forall k | k in keys :: ScannedKey(k)) && StringValued(defaults, keys)
    ensures var r := Created(defaults, keys);
            (r.Some? && Flatten(r.value, "") == Expected(defaults, keys)) <==> AddressFree(defaults, keys)
  {
    CreatedShape(defaults, keys);
    if AddressFree(defaults, keys) {
      CreatedKeepsAll(defaults, keys);
      AllKept(defaults, keys, Created(defaults, keys).value);
    }
    if Created(defaults, keys).Some? && Flatten(Created(defaults, keys).value, "") == Expected(defaults, keys) {
      var j := Created(defaults, keys).value;
      forall a, b | a in keys && b in keys ensures !(Address(defaults, a) < Address(defaults, b)) {
        KeyHasLeaf(defaults, keys, j, a);
        KeyHasLeaf(defaults, keys, j, b);
        if Address(defaults, a) < Address(defaults, b) { NothingUnderLeaf(j, Address(defaults, a), Address(defaults, b)); }
      }
    }
  }

  lemma AllKept(defaults: Fields, keys: seq<string>, j: Json)
    requires j.Obj? && Proper(j) && NoEmptyTop(j.fields) && LeavesAreKeys(defaults, keys, j)
    requires forall k | k in keys :: TextAt(j, Address(defaults, k)) == Some(ValueFor(defaults, k))
    ensures Flatten(j, "") == Expected(defaults, keys)
  {
    var m := Flatten(j, "");
    assert Join([], '.') == "";
    forall k | k in m ensures k in keys && m[k] == ValueFor(defaults, k) {
      var p := FlattenSound(j, [], k);
      assert [] + p == p;
    }
    forall k | k in keys ensures k in m {
      FlattenComplete(j, [], Address(defaults, k));
      assert [] + Address(defaults, k) == Address(defaults, k);
    }
  }

  /**
   * The created dictionary, read off the defaults alone: a key has the text that a lookup in the
   * defaults finds, or the placeholder when it finds nothing. The entry stands under the whole key if
   * the defaults have it at top level or it has no dot, and below its components otherwise.
   */
  lemma CreatedTells(defaults: Fields, keys: seq<string>, k: string)
    requires (forall k' | k' in keys :: ScannedKey(k')) && AddressFree(defaults, keys) && StringValued(defaults, keys)
    ensures Created(defaults, keys).Some? && Created(defaults, keys).value.Obj?
    ensures var j := Created(defaults, keys).value;
            var text := match GetNested(defaults, k) case Some(Leaf(v)) => v case _ => "TODO: Translate '" + k + "'";
            var place := if '.' in k && FieldOf(defaults, k).None? then Split(k, '.') else [k];
            && (k in Flatten(j, "") <==> k in keys)
            && (k in keys ==> Flatten(j, "")[k] == text && TextAt(j, place) == Some(text) && GetNested(j.fields, k) == Some(Leaf(text)))
  {
    hide Created, Flatten, Split;
    CreatedKeepsAll(defaults, keys);
    CreatedShape(defaults, keys);
    var j := Created(defaults, keys).value;
    AllKept(defaults, keys, j);
    if k in keys {
      DottedTop(defaults, keys);
      LookedUp(defaults, keys, j, k);
    }
  }

  /** A top-level key with a dot is never a dictionary. */
  predicate DottedAreLeaves(fs: Fields)
  {
    forall f | f in fs && '.' in f.key :: f.value.Leaf?
  }

  lemma {:induction false} DottedTop(defaults: Fields, keys: seq<string>)
    requires Created(defaults, keys).Some? && Created(defaults, keys).value.Obj?
    ensures DottedAreLeaves(Created(defaults, keys).value.fields)
  {
    hide Split;
    if keys != [] {
      var front, last := keys[..|keys| - 1], keys[|keys| - 1];
      DottedTop(defaults, front);
      var fs, a := Created(defaults, front).value.fields, Address(defaults, last);
      if |a| == 1 {
        SetDotted(fs, a[0], Leaf(ValueFor(defaults, last)));
      } else {
        assert a[0] in a;
        SetDotted(fs, a[0], Insert(SubDict(fs, a[0]), a[1..], ValueFor(defaults, last)).value);
      }
    }
  }

  lemma {:induction false} SetDotted(fs: Fields, key: string, value: Json)
    requires DottedAreLeaves(fs) && ('.' in key ==> value.Leaf?)
    ensures DottedAreLeaves(SetField(fs, key, value))
  {
    if fs != [] && fs[|fs| - 1].key != key {
      assert forall f | f in fs[..|fs| - 1] :: f in fs;
      SetDotted(fs[..|fs| - 1], key, value);
    }
  }

  /** What was put at its address is found again by its key. */
  lemma LookedUp(defaults: Fields, keys: seq<string>, j: Json, k: string)
    requires j.Obj? && LeavesAreKeys(defaults, keys, j) && DottedAreLeaves(j.fields) && k in keys
    requires TextAt(j, Address(defaults, k)) == Some(ValueFor(defaults, k))
    ensures GetNested(j.fields, k) == Some(Leaf(ValueFor(defaults, k)))
  {
    hide Split;
    var a := Address(defaults, k);
    assert [k][1..] == [] && Walk(j, [k]) == FieldOf(j.fields, k) && Join([k], '.') == k;
    assert Walk(j, a) == Some(Leaf(ValueFor(defaults, k)));
    assert '.' in k && FieldOf(j.fields, k).Some? ==> TextAt(j, [k]).Some?;
    if a != [k] && FieldOf(j.fields, k).Some? {
      assert false;
    }
  }

  /** A dictionary keeps the order in which its keys first came. */
  lemma {:induction false} SetFieldOrder(fs: Fields, key: string, value: Json)
    ensures KeysOf(SetField(fs, key, value)) == if FieldOf(fs, key).Some? then KeysOf(fs) else KeysOf(fs) + [key]
  {
    if FieldOf(fs, key).Some? {
      var front, last := fs[..|fs| - 1], fs[|fs| - 1];
      if last.key != key { SetFieldOrder(front, key, value); }
      assert KeysOf(fs) == KeysOf(front) + [last.key];
    }
  }

  function KeysOf(fs: Fields): seq<string>
  {
    seq(|fs|, i requires 0 <= i < |fs| => fs[i].key)
  }

  lemma KeyHasLeaf(defaults: Fields, keys: seq<string>, j: Json, k: string)
    requires j.Obj? && Proper(j) && NoEmptyTop(j.fields) && LeavesAreKeys(defaults, keys, j)
    requires k in Flatten(j, "")
    ensures TextAt(j, Address(defaults, k)).Some?
  {
    assert Join([], '.') == "";
    var p := FlattenSound(j, [], k);
    assert [] + p == p;
    var k' :| k' in keys && p == Address(defaults, k');
    assert k' == Join(p, '.') == k;
  }

  lemma {:induction false} NothingUnderLeaf(j: Json, p: seq<string>, q: seq<string>)
    requires p < q && TextAt(j, p).Some?
    ensures TextAt(j, q).None?
    decreases |p|
  {
    if p != [] {
      assert p[1..] < q[1..];
      NothingUnderLeaf(FieldOf(j.fields, p[0]).value, p[1..], q[1..]);
    }
  }

  /** The order in which the keys are given does not matter. */
  lemma OrderOfKeys(defaults: Fields, keys: seq<string>, keys': seq<string>)
    requires (forall k | k in keys :: ScannedKey(k)) && StringValued(defaults, keys) && AddressFree(defaults, keys)
    requires forall k :: k in keys <==> k in keys'
    ensures Created(defaults, keys).Some? && Created(defaults, keys').Some?
    ensures Flatten(Created(defaults, keys).value, "") == Flatten(Created(defaults, keys').value, "")
  {
    NestThenFlatten(defaults, keys);
    NestThenFlatten(defaults, keys');
    assert Expected(defaults, keys) == Expected(defaults, keys');
  }
}
