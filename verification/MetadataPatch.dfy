/** The patch that turns the current metadata of an object into the desired one. */
module MetadataPatch {
  import opened Common
  import opened JsonPointer
  import opened JsonPatch

  type StringMap = map<string, string>

  /** Go maps: nil is None. Finalizers are compared by length and content only. */
  datatype Metadata = Metadata(finalizers: seq<string>, annotations: Option<StringMap>, labels: Option<StringMap>)

  function Content(m: Option<StringMap>): StringMap {
    if m.Some? then m.value else map[]
  }

  function MapJson(m: StringMap): Json {
    Obj(map k | k in m :: Str(m[k]))
  }

  function ListJson(items: seq<string>): Json {
    Arr(seq(|items|, i requires 0 <= i < |items| => Str(items[i])))
  }

  // ---------- building the patch ----------

  function FieldPath(field: string): string {
    "/" + "metadata" + "/" + field
  }

  function FinalizerOps(path: string, current: seq<string>, desired: seq<string>): seq<Operation> {
    if current == [] && desired == [] then []
    else if current == [] then [Add(path, ListJson(desired))]
    else if desired == [] then [Remove(path)]
    else [Replace(path, ListJson(desired))]
  }

  /** Some order of the elements of a set, each once: a map iteration order. */
  ghost predicate Enumerates(order: seq<string>, elements: set<string>) {
    && (forall k :: k in order <==> k in elements)
    && (forall i, j :: 0 <= i < j < |order| ==> order[i] != order[j])
  }

  function KeyPath(path: string, key: string): string {
    path + "/" + Encode(key)
  }

  function RemoveOps(path: string, keys: seq<string>): seq<Operation> {
    seq(|keys|, i requires 0 <= i < |keys| => Remove(KeyPath(path, keys[i])))
  }

  function SetOp(path: string, current: StringMap, desired: StringMap, key: string): Operation
    requires key in desired
  {
    if key in current then Replace(KeyPath(path, key), Str(desired[key]))
    else Add(KeyPath(path, key), Str(desired[key]))
  }

  function SetOps(path: string, current: StringMap, desired: StringMap, keys: seq<string>): seq<Operation>
    requires forall k :: k in keys ==> k in desired
  {
    seq(|keys|, i requires 0 <= i < |keys| => SetOp(path, current, desired, keys[i]))
  }

  function Changed(current: StringMap, desired: StringMap): set<string> {
    set k | k in desired && (k !in current || current[k] != desired[k])
  }

  ghost predicate IsDiff(path: string, c: StringMap, d: StringMap, removed: seq<string>, changed: seq<string>,
                         ops: seq<Operation>)
  {
    && Enumerates(removed, c.Keys - d.Keys) && Enumerates(changed, Changed(c, d))
    && ops == [Test(path, MapJson(c))] + RemoveOps(path, removed) + SetOps(path, c, d, changed)
  }

  /** The operations jsonPatchOpsForMap may return: one order for each of its two loops. */
  ghost predicate IsMapOps(path: string, current: Option<StringMap>, desired: Option<StringMap>, ops: seq<Operation>) {
    match (current, desired)
    case (None, None) => ops == []
    case (None, Some(d)) => ops == [Add(path, MapJson(d))]
    case (Some(_), None) => ops == [Remove(path)]
    case (Some(c), Some(d)) => exists removed, changed :: IsDiff(path, c, d, removed, changed, ops)
  }

  /** The first loop: over the current keys, in any order. */
  method RemovalOps(path: string, c: StringMap, d: StringMap) returns (ops: seq<Operation>)
    ensures exists removed :: Enumerates(removed, c.Keys - d.Keys) && ops == RemoveOps(path, removed)
  {
    ops := [];
    ghost var removed: seq<string> := [];
    var todo := c.Keys;
    while todo != {}
      invariant todo <= c.Keys && Enumerates(removed, c.Keys - d.Keys - todo)
      invariant ops == RemoveOps(path, removed)
      decreases |todo|
    {
      var key :| key in todo;
      todo := todo - {key};
      if key in d {
        assert c.Keys - d.Keys - todo == c.Keys - d.Keys - (todo + {key});
        continue;
      }
      ops := ops + [Remove(KeyPath(path, key))];
      removed := removed + [key];
    }
    assert c.Keys - d.Keys - {} == c.Keys - d.Keys;
  }

  /** The second loop: over the desired keys, in any order. */
  method SettingOps(path: string, c: StringMap, d: StringMap) returns (ops: seq<Operation>)
    ensures exists changed :: Enumerates(changed, Changed(c, d)) && ops == SetOps(path, c, d, changed)
  {
    ops := [];
    ghost var changed: seq<string> := [];
    var todo := d.Keys;
    while todo != {}
      invariant todo <= d.Keys && Enumerates(changed, Changed(c, d) - todo)
      invariant ops == SetOps(path, c, d, changed)
      decreases |todo|
    {
      var key :| key in todo;
      todo := todo - {key};
      if key !in c {
        ops := ops + [Add(KeyPath(path, key), Str(d[key]))];
      } else if c[key] != d[key] {
        ops := ops + [Replace(KeyPath(path, key), Str(d[key]))];
      } else {
        assert Changed(c, d) - todo == Changed(c, d) - (todo + {key});
        continue;
      }
      changed := changed + [key];
    }
    assert Changed(c, d) - {} == Changed(c, d);
  }

  method JsonPatchOpsForMap(path: string, current: Option<StringMap>, desired: Option<StringMap>)
    returns (ops: seq<Operation>)
    ensures IsMapOps(path, current, desired, ops)
  {
    if current.None? && desired.None? {
      return [];
    } else if current.None? {
      return [Add(path, MapJson(desired.value))];
    } else if desired.None? {
      return [Remove(path)];
    }
    var c, d := current.value, desired.value;
    ops := [Test(path, MapJson(c))];
    var removals := RemovalOps(path, c, d);
    ops := ops + removals;
    var settings := SettingOps(path, c, d);
    ops := ops + settings;
    ghost var removed :| Enumerates(removed, c.Keys - d.Keys) && removals == RemoveOps(path, removed);
    ghost var changed :| Enumerates(changed, Changed(c, d)) && settings == SetOps(path, c, d, changed);
    assert IsDiff(path, c, d, removed, changed, ops);
  }

  /** The patch object: operations are appended to it. */
  class Patch {
    var operations: seq<Operation>

    constructor ()
      ensures operations == []
    {
      operations := [];
    }

    method Append(ops: seq<Operation>)
      modifies this
      ensures operations == old(operations) + ops
    {
      operations := operations + ops;
    }
  }

  /** The part of the patch for one map field: nothing when the contents agree. */
  ghost predicate IsFieldPatch(field: string, current: Option<StringMap>, desired: Option<StringMap>,
                               ops: seq<Operation>)
  {
    if Content(current) == Content(desired) then ops == []
    else IsMapOps(FieldPath(field), current, desired, ops)
  }

  function FinalizerPatch(field: string, current: seq<string>, desired: seq<string>): seq<Operation> {
    if current == desired then [] else FinalizerOps(FieldPath(field), current, desired)
  }

  /** The members of the metadata that are patched. */
  datatype Fields = Fields(finalizers: string, annotations: string, labels: string)

  const FIELDS := Fields("finalizers", "annotations", "labels")

  ghost predicate IsMetadataPatch(f: Fields, current: Metadata, desired: Metadata, ops: seq<Operation>) {
    exists annotationOps, labelOps ::
      && IsFieldPatch(f.annotations, current.annotations, desired.annotations, annotationOps)
      && IsFieldPatch(f.labels, current.labels, desired.labels, labelOps)
      && ops == FinalizerPatch(f.finalizers, current.finalizers, desired.finalizers) + (annotationOps + labelOps)
  }

  method FieldOps(field: string, current: Option<StringMap>, desired: Option<StringMap>) returns (ops: seq<Operation>)
    ensures IsFieldPatch(field, current, desired, ops)
  {
    ops := [];
    if Content(current) != Content(desired) {
      ops := JsonPatchOpsForMap(FieldPath(field), current, desired);
    }
  }

  lemma PartsArePatch(f: Fields, current: Metadata, desired: Metadata,
                      annotationOps: seq<Operation>, labelOps: seq<Operation>, ops: seq<Operation>)
    requires IsFieldPatch(f.annotations, current.annotations, desired.annotations, annotationOps)
    requires IsFieldPatch(f.labels, current.labels, desired.labels, labelOps)
    requires ops == FinalizerPatch(f.finalizers, current.finalizers, desired.finalizers) + annotationOps + labelOps
    ensures IsMetadataPatch(f, current, desired, ops)
  {
    var finalizerOps := FinalizerPatch(f.finalizers, current.finalizers, desired.finalizers);
    assert finalizerOps + annotationOps + labelOps == finalizerOps + (annotationOps + labelOps);
  }

  method BuildMetadataPatch(f: Fields, current: Metadata, desired: Metadata) returns (patch: Patch)
    ensures fresh(patch) && IsMetadataPatch(f, current, desired, patch.operations)
  {
    patch := new Patch();
    var finalizerOps := FinalizerPatch(f.finalizers, current.finalizers, desired.finalizers);
    patch.Append(finalizerOps);
    var annotationOps := FieldOps(f.annotations, current.annotations, desired.annotations);
    patch.Append(annotationOps);
    var labelOps := FieldOps(f.labels, current.labels, desired.labels);
    patch.Append(labelOps);
    assert patch.operations == finalizerOps + annotationOps + labelOps;
    PartsArePatch(f, current, desired, annotationOps, labelOps, patch.operations);
  }

  // ---------- documents ----------

  predicate HasMeta(doc: Json) {
    doc.Obj? && "metadata" in doc.fields && doc.fields["metadata"].Obj?
  }

  function Meta(doc: Json): map<string, Json>
    requires HasMeta(doc)
  {
    doc.fields["metadata"].fields
  }

  function WithMeta(doc: Json, meta: map<string, Json>): (r: Json)
    requires HasMeta(doc)
    ensures HasMeta(r) && Meta(r) == meta
  {
    Obj(doc.fields["metadata" := Obj(meta)])
  }

  lemma WithMetaTwice(doc: Json, a: map<string, Json>, b: map<string, Json>)
    requires HasMeta(doc)
    ensures WithMeta(WithMeta(doc, a), b) == WithMeta(doc, b) && WithMeta(doc, Meta(doc)) == doc
  {
    assert doc.fields["metadata" := Obj(a)]["metadata" := Obj(b)] == doc.fields["metadata" := Obj(b)];
    assert doc.fields["metadata" := Obj(Meta(doc))] == doc.fields;
  }

  lemma EditInside(doc: Json, head: string, rest: seq<string>, op: Operation)
    requires doc.Obj? && head in doc.fields && rest != []
    ensures Edit(doc, [head] + rest, op) == (var inner := Edit(doc.fields[head], rest, op);
                                             if inner.Some? then Some(Obj(doc.fields[head := inner.value])) else None)
  {
    assert ([head] + rest)[1..] == rest;
  }

  /** An operation on /metadata/field. */
  lemma ApplyToField(doc: Json, field: string, op: Operation)
    requires HasMeta(doc) && op.path == FieldPath(field) && '~' !in field && '/' !in field
    ensures ApplyOne(doc, op) == (var e := EditMember(Meta(doc), field, op);
                                  if e.Some? then Some(WithMeta(doc, e.value)) else None)
  {
    TwoTokens("metadata", field);
    EditInside(doc, "metadata", [field], op);
    assert ["metadata"] + [field] == ["metadata", field];
  }

  /** An operation on a key of the map at /metadata/field. */
  lemma ApplyToKey(doc: Json, field: string, key: string, op: Operation)
    requires HasMeta(doc) && op.path == KeyPath(FieldPath(field), key) && '~' !in field && '/' !in field
    requires field in Meta(doc) && Meta(doc)[field].Obj?
    ensures ApplyOne(doc, op) == (var e := EditMember(Meta(doc)[field].fields, key, op);
                                  if e.Some? then Some(WithMeta(doc, Meta(doc)[field := Obj(e.value)])) else None)
  {
    KeyTokens("metadata", field, key);
    EditInside(doc, "metadata", [field] + [key], op);
    EditInside(doc.fields["metadata"], field, [key], op);
    assert ["metadata"] + ([field] + [key]) == ["metadata", field, key];
  }

  // ---------- applying the patch ----------

  /** The document with the map m at /metadata/field. */
  function WithMap(doc: Json, field: string, m: StringMap): Json
    requires HasMeta(doc)
  {
    WithMeta(doc, Meta(doc)[field := MapJson(m)])
  }

  predicate PlainField(field: string) {
    '~' !in field && '/' !in field
  }

  lemma MapReplaced(doc: Json, field: string, m: StringMap, m': StringMap)
    requires HasMeta(doc)
    ensures var d := WithMap(doc, field, m);
            WithMeta(d, Meta(d)[field := MapJson(m')]) == WithMap(doc, field, m')
  {
    var d := WithMap(doc, field, m);
    WithMetaTwice(doc, Meta(d), Meta(d)[field := MapJson(m')]);
    assert Meta(d)[field := MapJson(m')] == Meta(doc)[field := MapJson(m')];
  }

  lemma RemoveKey(doc: Json, field: string, m: StringMap, key: string)
    requires HasMeta(doc) && PlainField(field) && key in m
    ensures ApplyOne(WithMap(doc, field, m), Remove(KeyPath(FieldPath(field), key)))
         == Some(WithMap(doc, field, m - {key}))
  {
    var d := WithMap(doc, field, m);
    ApplyToKey(d, field, key, Remove(KeyPath(FieldPath(field), key)));
    assert MapJson(m).fields - {key} == MapJson(m - {key}).fields;
    MapReplaced(doc, field, m, m - {key});
  }

  lemma SetKey(doc: Json, field: string, m: StringMap, key: string, value: string, op: Operation)
    requires HasMeta(doc) && PlainField(field)
    requires op == Add(KeyPath(FieldPath(field), key), Str(value))
          || (key in m && op == Replace(KeyPath(FieldPath(field), key), Str(value)))
    ensures ApplyOne(WithMap(doc, field, m), op) == Some(WithMap(doc, field, m[key := value]))
  {
    var d := WithMap(doc, field, m);
    ApplyToKey(d, field, key, op);
    assert MapJson(m).fields[key := Str(value)] == MapJson(m[key := value]).fields;
    MapReplaced(doc, field, m, m[key := value]);
  }

  function Without(m: StringMap, keys: seq<string>): StringMap {
    if keys == [] then m else Without(m - {keys[0]}, keys[1..])
  }

  function Overwritten(m: StringMap, d: StringMap, keys: seq<string>): StringMap
    requires forall k :: k in keys ==> k in d
    decreases |keys|
  {
    if keys == [] then m else Overwritten(m[keys[0] := d[keys[0]]], d, keys[1..])
  }

  lemma {:induction false} WithoutAt(m: StringMap, keys: seq<string>, k: string)
    ensures k in Without(m, keys) <==> k in m && k !in keys
    ensures k in Without(m, keys) ==> Without(m, keys)[k] == m[k]
    decreases |keys|
  {
    if keys != [] {
      WithoutAt(m - {keys[0]}, keys[1..], k);
      assert keys == [keys[0]] + keys[1..];
    }
  }

  lemma {:induction false} OverwrittenAt(m: StringMap, d: StringMap, keys: seq<string>, k: string)
    requires forall k :: k in keys ==> k in d
    ensures k in Overwritten(m, d, keys) <==> k in m || k in keys
    ensures k in Overwritten(m, d, keys) ==> Overwritten(m, d, keys)[k] == if k in keys then d[k] else m[k]
    decreases |keys|
  {
    if keys != [] {
      OverwrittenAt(m[keys[0] := d[keys[0]]], d, keys[1..], k);
      assert keys == [keys[0]] + keys[1..];
    }
  }

  lemma {:induction false} RemovalsApply(doc: Json, field: string, m: StringMap, keys: seq<string>)
    requires HasMeta(doc) && PlainField(field) && (forall k :: k in keys ==> k in m)
    requires forall i, j :: 0 <= i < j < |keys| ==> keys[i] != keys[j]
    ensures Apply(WithMap(doc, field, m), RemoveOps(FieldPath(field), keys))
         == Some(WithMap(doc, field, Without(m, keys)))
  {
    if keys != [] {
      RemoveKey(doc, field, m, keys[0]);
      forall k | k in keys[1..] ensures k in m - {keys[0]} {
        var i :| 0 <= i < |keys[1..]| && keys[1..][i] == k;
        assert keys[i + 1] == k;
      }
      RemovalsApply(doc, field, m - {keys[0]}, keys[1..]);
      assert RemoveOps(FieldPath(field), keys)[1..] == RemoveOps(FieldPath(field), keys[1..]);
    }
  }

  lemma {:induction false} SettingsApply(doc: Json, field: string, m: StringMap, c: StringMap, d: StringMap,
                                         keys: seq<string>)
    requires HasMeta(doc) && PlainField(field) && (forall k :: k in keys ==> k in d && (k in c ==> k in m))
    ensures Apply(WithMap(doc, field, m), SetOps(FieldPath(field), c, d, keys))
         == Some(WithMap(doc, field, Overwritten(m, d, keys)))
    decreases |keys|
  {
    if keys != [] {
      SetKey(doc, field, m, keys[0], d[keys[0]], SetOp(FieldPath(field), c, d, keys[0]));
      SettingsApply(doc, field, m[keys[0] := d[keys[0]]], c, d, keys[1..]);
      assert SetOps(FieldPath(field), c, d, keys)[1..] == SetOps(FieldPath(field), c, d, keys[1..]);
    }
  }

  /** Removing what is not wanted and then setting what differs gives the desired map, in any order. */
  lemma DiffGivesDesired(c: StringMap, d: StringMap, removed: seq<string>, changed: seq<string>)
    requires Enumerates(removed, c.Keys - d.Keys) && Enumerates(changed, Changed(c, d))
    ensures Overwritten(Without(c, removed), d, changed) == d
  {
    forall k ensures k in Overwritten(Without(c, removed), d, changed) <==> k in d
             ensures k in d ==> Overwritten(Without(c, removed), d, changed)[k] == d[k]
    {
      WithoutAt(c, removed, k);
      OverwrittenAt(Without(c, removed), d, changed, k);
    }
  }

  /** One operation of a diff: what it does to which key. */
  ghost predicate IsStep(path: string, c: StringMap, d: StringMap, op: Operation, key: string) {
    var at := path + "/" + Encode(key);
    || (key in c && key !in d && op == Remove(at))
    || (key !in c && key in d && op == Add(at, Str(d[key])))
    || (key in c && key in d && c[key] != d[key] && op == Replace(at, Str(d[key])))
  }

  /** A diff is a test of the current map and then one operation for each key that differs, and no other. */
  lemma DiffIsMinimal(path: string, c: StringMap, d: StringMap, removed: seq<string>, changed: seq<string>,
                      ops: seq<Operation>)
    requires IsDiff(path, c, d, removed, changed, ops)
    ensures var keys := removed + changed;
            && |ops| == |keys| + 1 && ops[0] == Test(path, MapJson(c))
            && (forall i :: 0 <= i < |keys| ==> IsStep(path, c, d, ops[i + 1], keys[i]))
            && (forall i, j :: 0 <= i < j < |keys| ==> keys[i] != keys[j])
  {
    var keys := removed + changed;
    forall i | 0 <= i < |keys| ensures IsStep(path, c, d, ops[i + 1], keys[i]) {
      if i < |removed| {
        assert removed[i] in removed;
      } else {
        assert changed[i - |removed|] in changed;
      }
    }
    forall i, j | 0 <= i < |removed| && 0 <= j < |changed| ensures removed[i] != changed[j] {
      assert removed[i] in removed && changed[j] in changed;
    }
  }

  /** Finalizers take one operation at most: add, remove or replace the whole list. */
  lemma FinalizerOperation(current: seq<string>, desired: seq<string>)
    ensures var ops := FinalizerPatch("finalizers", current, desired);
            && (ops == [] <==> current == desired)
            && (current == [] != desired ==> ops == [Add("/metadata/finalizers", ListJson(desired))])
            && (current != [] == desired ==> ops == [Remove("/metadata/finalizers")])
            && (current != desired && current != [] && desired != [] ==>
                  ops == [Replace("/metadata/finalizers", ListJson(desired))])
  {
    assert FieldPath("finalizers") == "/metadata/finalizers";
  }

  lemma TestOps(doc: Json, field: string, value: Json, rest: seq<Operation>)
    requires HasMeta(doc) && PlainField(field)
    ensures Apply(doc, [Test(FieldPath(field), value)] + rest)
         == if field in Meta(doc) && Meta(doc)[field] == value then Apply(doc, rest) else None
  {
    var ops := [Test(FieldPath(field), value)] + rest;
    assert ops[1..] == rest;
    ApplyToField(doc, field, ops[0]);
    WithMetaTwice(doc, Meta(doc), Meta(doc));
  }

  /** A patch between two non-nil maps applies exactly where the current map is, and gives the desired one. */
  lemma DiffApplies(doc: Json, field: string, c: StringMap, d: StringMap, removed: seq<string>, changed: seq<string>,
                    ops: seq<Operation>)
    requires HasMeta(doc) && PlainField(field) && IsDiff(FieldPath(field), c, d, removed, changed, ops)
    ensures Apply(doc, ops) ==
            if field in Meta(doc) && Meta(doc)[field] == MapJson(c) then Some(WithMap(doc, field, d)) else None
  {
    var path := FieldPath(field);
    var removals, settings := RemoveOps(path, removed), SetOps(path, c, d, changed);
    assert ops == [Test(path, MapJson(c))] + (removals + settings);
    TestOps(doc, field, MapJson(c), removals + settings);
    if field in Meta(doc) && Meta(doc)[field] == MapJson(c) {
      assert Meta(doc)[field := MapJson(c)] == Meta(doc);
      WithMetaTwice(doc, Meta(doc), Meta(doc));
      assert WithMap(doc, field, c) == doc;
      RemovalsApply(doc, field, c, removed);
      forall k | k in changed && k in c ensures k in Without(c, removed) {
        WithoutAt(c, removed, k);
      }
      SettingsApply(doc, field, Without(c, removed), c, d, changed);
      ApplyConcat(doc, removals, settings);
      DiffGivesDesired(c, d, removed, changed);
    }
  }

  // ---------- the whole patch ----------

  /** The document shows the map; a non-nil empty map may be left out of the document. */
  ghost predicate Shows(doc: Json, field: string, m: Option<StringMap>)
    requires HasMeta(doc)
  {
    if field in Meta(doc) then m.Some? && Meta(doc)[field] == MapJson(m.value) else Content(m) == map[]
  }

  /** A non-nil empty map that the document leaves out, with something to be put in it. */
  ghost predicate Stuck(doc: Json, field: string, current: Option<StringMap>, desired: Option<StringMap>)
    requires HasMeta(doc)
  {
    current.Some? && field !in Meta(doc) && Content(desired) != map[]
  }

  ghost predicate SameMember(doc: Json, doc': Json, k: string)
    requires HasMeta(doc) && HasMeta(doc')
  {
    (k in Meta(doc) <==> k in Meta(doc')) && (k in Meta(doc) ==> Meta(doc)[k] == Meta(doc')[k])
  }

  /** The documents agree everywhere but in the named members of the metadata. */
  ghost predicate SameExcept(doc: Json, doc': Json, touched: set<string>) {
    && HasMeta(doc) && HasMeta(doc')
    && doc.fields - {"metadata"} == doc'.fields - {"metadata"}
    && forall k :: k !in touched ==> SameMember(doc, doc', k)
  }

  lemma MetaReplaced(doc: Json, meta: map<string, Json>, field: string)
    requires HasMeta(doc) && meta - {field} == Meta(doc) - {field}
    ensures SameExcept(doc, WithMeta(doc, meta), {field})
  {
    forall k | k != field ensures SameMember(doc, WithMeta(doc, meta), k) {
      assert k in meta - {field} <==> k in Meta(doc) - {field};
      assert k in Meta(doc) ==> (meta - {field})[k] == (Meta(doc) - {field})[k];
    }
  }

  ghost predicate ShowsContent(doc: Json, field: string, content: StringMap) {
    HasMeta(doc) && if field in Meta(doc) then Meta(doc)[field] == MapJson(content) else content == map[]
  }

  /** One field: the patch fails exactly when stuck; otherwise it gives the desired content and nothing else changes. */
  lemma FieldPatchApplies(doc: Json, field: string, current: Option<StringMap>, desired: Option<StringMap>,
                          ops: seq<Operation>)
    requires HasMeta(doc) && PlainField(field) && Shows(doc, field, current)
    requires IsFieldPatch(field, current, desired, ops)
    ensures Apply(doc, ops).None? <==> Stuck(doc, field, current, desired)
    ensures var r := Apply(doc, ops);
            r.Some? ==> SameExcept(doc, r.value, {field}) && ShowsContent(r.value, field, Content(desired))
  {
    if Content(current) == Content(desired) {
      assert Apply(doc, ops) == Some(doc);
    } else if current.None? {
      assert ops[1..] == [];
      ApplyToField(doc, field, ops[0]);
      assert Apply(doc, ops) == Some(WithMap(doc, field, desired.value));
      MetaReplaced(doc, Meta(doc)[field := MapJson(desired.value)], field);
    } else if desired.None? {
      assert ops[1..] == [];
      ApplyToField(doc, field, ops[0]);
      assert Apply(doc, ops) == Some(WithMeta(doc, Meta(doc) - {field}));
      MetaReplaced(doc, Meta(doc) - {field}, field);
    } else {
      var removed, changed :| IsDiff(FieldPath(field), current.value, desired.value, removed, changed, ops);
      DiffApplies(doc, field, current.value, desired.value, removed, changed, ops);
      MetaReplaced(doc, Meta(doc)[field := MapJson(desired.value)], field);
    }
  }

  ghost predicate ShowsList(doc: Json, field: string, items: seq<string>) {
    HasMeta(doc) && if field in Meta(doc) then Meta(doc)[field] == ListJson(items) else items == []
  }

  lemma FinalizerPatchApplies(doc: Json, field: string, current: seq<string>, desired: seq<string>)
    requires HasMeta(doc) && PlainField(field) && ShowsList(doc, field, current)
    ensures var r := Apply(doc, FinalizerPatch(field, current, desired));
            r.Some? && SameExcept(doc, r.value, {field}) && ShowsList(r.value, field, desired)
  {
    var ops := FinalizerPatch(field, current, desired);
    if ops != [] {
      assert ops[1..] == [];
      ApplyToField(doc, field, ops[0]);
      var meta := EditMember(Meta(doc), field, ops[0]).value;
      assert Apply(doc, ops) == Some(WithMeta(doc, meta));
      MetaReplaced(doc, meta, field);
    }
  }

  ghost predicate ShowsMetadata(doc: Json, f: Fields, m: Metadata) {
    HasMeta(doc) && ShowsList(doc, f.finalizers, m.finalizers)
    && Shows(doc, f.annotations, m.annotations) && Shows(doc, f.labels, m.labels)
  }

  ghost predicate DistinctFields(f: Fields) {
    && PlainField(f.finalizers) && PlainField(f.annotations) && PlainField(f.labels)
    && f.finalizers != f.annotations && f.finalizers != f.labels && f.annotations != f.labels
  }

  /** The two map fields, one after the other. */
  lemma MapPatchesApply(doc: Json, f: Fields, current: Metadata, desired: Metadata,
                        annotationOps: seq<Operation>, labelOps: seq<Operation>)
    requires DistinctFields(f) && HasMeta(doc)
    requires Shows(doc, f.annotations, current.annotations) && Shows(doc, f.labels, current.labels)
    requires IsFieldPatch(f.annotations, current.annotations, desired.annotations, annotationOps)
    requires IsFieldPatch(f.labels, current.labels, desired.labels, labelOps)
    ensures Apply(doc, annotationOps + labelOps).None? <==>
            (Stuck(doc, f.annotations, current.annotations, desired.annotations)
             || Stuck(doc, f.labels, current.labels, desired.labels))
    ensures var r := Apply(doc, annotationOps + labelOps);
            r.Some? ==>
              && SameExcept(doc, r.value, {f.annotations, f.labels})
              && ShowsContent(r.value, f.annotations, Content(desired.annotations))
              && ShowsContent(r.value, f.labels, Content(desired.labels))
  {
    ApplyConcat(doc, annotationOps, labelOps);
    FieldPatchApplies(doc, f.annotations, current.annotations, desired.annotations, annotationOps);
    if Apply(doc, annotationOps).Some? {
      var mid := Apply(doc, annotationOps).value;
      assert SameMember(doc, mid, f.labels);
      FieldPatchApplies(mid, f.labels, current.labels, desired.labels, labelOps);
      if Apply(mid, labelOps).Some? {
        var end := Apply(mid, labelOps).value;
        assert SameMember(mid, end, f.annotations);
        forall k | k !in {f.annotations, f.labels} ensures SameMember(doc, end, k) {
          assert SameMember(doc, mid, k) && SameMember(mid, end, k);
        }
      }
    }
  }

  /** What a successful patch leaves behind. */
  ghost predicate Reached(doc: Json, doc': Json, f: Fields, desired: Metadata) {
    && SameExcept(doc, doc', {f.finalizers, f.annotations, f.labels})
    && ShowsList(doc', f.finalizers, desired.finalizers)
    && ShowsContent(doc', f.annotations, Content(desired.annotations))
    && ShowsContent(doc', f.labels, Content(desired.labels))
  }

  lemma TouchedTogether(doc: Json, mid: Json, end: Json, f: Fields, items: seq<string>)
    requires DistinctFields(f) && ShowsList(mid, f.finalizers, items)
    requires SameExcept(doc, mid, {f.finalizers}) && SameExcept(mid, end, {f.annotations, f.labels})
    ensures SameExcept(doc, end, {f.finalizers, f.annotations, f.labels}) && ShowsList(end, f.finalizers, items)
  {
    assert SameMember(mid, end, f.finalizers);
    forall k | k !in {f.finalizers, f.annotations, f.labels} ensures SameMember(doc, end, k) {
      assert SameMember(doc, mid, k) && SameMember(mid, end, k);
    }
  }

  lemma MapsAfterFinalizers(doc: Json, mid: Json, f: Fields, current: Metadata, desired: Metadata,
                            annotationOps: seq<Operation>, labelOps: seq<Operation>)
    requires DistinctFields(f) && ShowsMetadata(doc, f, current)
    requires SameExcept(doc, mid, {f.finalizers}) && ShowsList(mid, f.finalizers, desired.finalizers)
    requires IsFieldPatch(f.annotations, current.annotations, desired.annotations, annotationOps)
    requires IsFieldPatch(f.labels, current.labels, desired.labels, labelOps)
    ensures Apply(mid, annotationOps + labelOps).None? <==>
            (Stuck(doc, f.annotations, current.annotations, desired.annotations)
             || Stuck(doc, f.labels, current.labels, desired.labels))
    ensures Apply(mid, annotationOps + labelOps).Some? ==>
              Reached(doc, Apply(mid, annotationOps + labelOps).value, f, desired)
  {
    assert SameMember(doc, mid, f.annotations) && SameMember(doc, mid, f.labels);
    MapPatchesApply(mid, f, current, desired, annotationOps, labelOps);
    if Apply(mid, annotationOps + labelOps).Some? {
      TouchedTogether(doc, mid, Apply(mid, annotationOps + labelOps).value, f, desired.finalizers);
    }
  }

  /**
   Applying the metadata patch to the current document gives the desired finalizers,
   annotations and labels and leaves the rest alone, for every iteration order; it
   fails exactly when a map to be filled is non-nil, empty and left out of the document.
   */
  lemma MetadataPatchReachesDesired(doc: Json, f: Fields, current: Metadata, desired: Metadata, ops: seq<Operation>)
    requires DistinctFields(f) && ShowsMetadata(doc, f, current) && IsMetadataPatch(f, current, desired, ops)
    ensures Apply(doc, ops).None? <==>
            (Stuck(doc, f.annotations, current.annotations, desired.annotations)
             || Stuck(doc, f.labels, current.labels, desired.labels))
    ensures Apply(doc, ops).Some? ==> Reached(doc, Apply(doc, ops).value, f, desired)
  {
    var finalizerOps := FinalizerPatch(f.finalizers, current.finalizers, desired.finalizers);
    var annotationOps, labelOps :|
      && IsFieldPatch(f.annotations, current.annotations, desired.annotations, annotationOps)
      && IsFieldPatch(f.labels, current.labels, desired.labels, labelOps)
      && ops == finalizerOps + (annotationOps + labelOps);
    ApplyConcat(doc, finalizerOps, annotationOps + labelOps);
    FinalizerPatchApplies(doc, f.finalizers, current.finalizers, desired.finalizers);
    MapsAfterFinalizers(doc, Apply(doc, finalizerOps).value, f, current, desired, annotationOps, labelOps);
  }

  lemma KubernetesFieldsAreDistinct()
    ensures DistinctFields(FIELDS)
  {
    assert FIELDS.finalizers[0] == 'f' && FIELDS.annotations[0] == 'a' && FIELDS.labels[0] == 'l';
  }

  /** The same for the finalizers, annotations and labels of a Kubernetes object. */
  lemma UpdateReachesDesired(doc: Json, current: Metadata, desired: Metadata, ops: seq<Operation>)
    requires ShowsMetadata(doc, FIELDS, current) && IsMetadataPatch(FIELDS, current, desired, ops)
    ensures Apply(doc, ops).None? <==>
            (Stuck(doc, FIELDS.annotations, current.annotations, desired.annotations)
             || Stuck(doc, FIELDS.labels, current.labels, desired.labels))
    ensures Apply(doc, ops).Some? ==> Reached(doc, Apply(doc, ops).value, FIELDS, desired)
  {
    KubernetesFieldsAreDistinct();
    MetadataPatchReachesDesired(doc, FIELDS, current, desired, ops);
  }

  /** A stored object without metadata members, read as one with an empty label map, to be labelled a=b. */
  const BARE := Obj(map["metadata" := Obj(map[])])
  const UNLABELLED := Metadata([], None, Some(map[]))
  const LABELLED := Metadata([], None, Some(map["a" := "b"]))

  /** The failing case occurs: whatever the order, the patch that adds the first label fails. */
  lemma FirstLabelFails(ops: seq<Operation>)
    requires IsMetadataPatch(FIELDS, UNLABELLED, LABELLED, ops)
    ensures ShowsMetadata(BARE, FIELDS, UNLABELLED)
    ensures Stuck(BARE, FIELDS.labels, UNLABELLED.labels, LABELLED.labels)
    ensures Apply(BARE, ops).None?
  {
    assert HasMeta(BARE) && Meta(BARE) == map[];
    assert "a" in Content(LABELLED.labels);
    UpdateReachesDesired(BARE, UNLABELLED, LABELLED, ops);
  }

  /** Between two non-nil maps the patch is guarded: on a document holding another map it fails. */
  lemma DifferingMapIsRefused(doc: Json, field: string, c: StringMap, d: StringMap, ops: seq<Operation>)
    requires HasMeta(doc) && PlainField(field) && IsMapOps(FieldPath(field), Some(c), Some(d), ops)
    requires field !in Meta(doc) || Meta(doc)[field] != MapJson(c)
    ensures Apply(doc, ops).None?
  {
    var removed, changed :| IsDiff(FieldPath(field), c, d, removed, changed, ops);
    DiffApplies(doc, field, c, d, removed, changed, ops);
  }
}
