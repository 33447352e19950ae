/** JSON documents and the patch operations of sections 4.1, 4.2, 4.3 and 4.6 of RFC 6902, on object members. */
module JsonPatch {
  import opened Common
  import opened GoStrings
  import opened JsonPointer

  datatype Json = Null | Str(text: string) | Arr(items: seq<Json>) | Obj(fields: map<string, Json>)

  datatype Operation =
    | Add(path: string, value: Json)
    | Remove(path: string)
    | Replace(path: string, value: Json)
    | Test(path: string, value: Json)

  /** What an operation does to the object that holds its target. */
  function EditMember(fields: map<string, Json>, name: string, op: Operation): Option<map<string, Json>> {
    match op
    case Add(_, v) => Some(fields[name := v])
    case Remove(_) => if name in fields then Some(fields - {name}) else None
    case Replace(_, v) => if name in fields then Some(fields[name := v]) else None
    case Test(_, v) => if name in fields && fields[name] == v then Some(fields) else None
  }

  function Edit(doc: Json, tokens: seq<string>, op: Operation): Option<Json>
    requires tokens != []
    decreases |tokens|
  {
    if !doc.Obj? then None
    else if |tokens| == 1 then
      var edited := EditMember(doc.fields, tokens[0], op);
      if edited.Some? then Some(Obj(edited.value)) else None
    else if tokens[0] in doc.fields then
      var inner := Edit(doc.fields[tokens[0]], tokens[1..], op);
      if inner.Some? then Some(Obj(doc.fields[tokens[0] := inner.value])) else None
    else None
  }

  /** One operation; None is failure. Operations on the whole document are not used here and fail. */
  function ApplyOne(doc: Json, op: Operation): Option<Json> {
    var tokens := Tokens(op.path);
    if tokens.Some? && tokens.value != [] then Edit(doc, tokens.value, op) else None
  }

  /** Operations apply in order and the patch fails as a whole when one of them does. */
  function Apply(doc: Json, ops: seq<Operation>): Option<Json>
    decreases |ops|
  {
    if ops == [] then Some(doc)
    else
      var next := ApplyOne(doc, ops[0]);
      if next.Some? then Apply(next.value, ops[1..]) else None
  }

  lemma {:induction false} ApplyConcat(doc: Json, a: seq<Operation>, b: seq<Operation>)
    ensures Apply(doc, a + b) == (var mid := Apply(doc, a); if mid.Some? then Apply(mid.value, b) else None)
    decreases |a|
  {
    if a == [] {
      assert a + b == b;
    } else {
      assert (a + b)[1..] == a[1..] + b;
      var next := ApplyOne(doc, a[0]);
      if next.Some? {
        ApplyConcat(next.value, a[1..], b);
      }
    }
  }

  lemma OneToken(name: string)
    ensures Tokens("/" + Encode(name)) == Some([name])
  {
    var e := Encode(name);
    EncodedHasNoSlash(name);
    DecodeUndoesEncode(name);
    assert ("/" + e)[1..] == e && Split(e, '/') == [e];
    assert [e][1..] == [] && DecodeAll([e]) == [Decode(e)];
  }

  /**
   The four operations on a member of an object: adding always succeeds, removing and
   replacing need the member, testing needs it with that very value.
   */
  lemma MemberOperations(fields: map<string, Json>, name: string, v: Json)
    ensures var doc, at := Obj(fields), "/" + Encode(name);
            && ApplyOne(doc, Add(at, v)) == Some(Obj(fields[name := v]))
            && ApplyOne(doc, Remove(at)) == (if name in fields then Some(Obj(fields - {name})) else None)
            && ApplyOne(doc, Replace(at, v)) == (if name in fields then Some(Obj(fields[name := v])) else None)
            && ApplyOne(doc, Test(at, v)) == (if name in fields && fields[name] == v then Some(doc) else None)
  {
    OneToken(name);
  }
}
