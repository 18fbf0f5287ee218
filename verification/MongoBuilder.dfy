/** The writer streams into document and array builders; the reader sets members one after the other. */
module MongoBuilder {
  import opened YanTypes
  import opened MongoDoc

  class DocBuilder {
    var fields: Doc

    constructor ()
      ensures fields == []
    {
      fields := [];
    }

    method Append(name: string, b: Bson)
      modifies this
      ensures fields == old(fields) + [Entry(name, b)]
    {
      fields := fields + [Entry(name, b)];
    }
  }

  class ArrayBuilder {
    var items: seq<Bson>

    constructor ()
      ensures items == []
    {
      items := [];
    }

    method Append(b: Bson)
      modifies this
      ensures items == old(items) + [b]
    {
      items := items + [b];
    }
  }

  lemma Shift(done: Doc, line: Doc, rest: Doc, goal: Doc)
    requires done + (line + rest) == goal
    ensures done + line + rest == goal
  {
  }

  /******* `MakeWriteBson` *******/

  // `member_ref`, `list_ref` and `struct_ref`: a member adds its line, or nothing.
  method WriteMember(doc: DocBuilder, m: Member, v: Val)
    requires Conforms(m.t, v)
    modifies doc
    ensures doc.fields == old(doc.fields) + Line(m.name, Write(m.t, v))
    decreases m.t, 2
  {
    match m.t
    case One(kind) =>
      if v.v.None? { return; }
      doc.Append(m.name, Leaf(CppTypeOf(kind), v.v.value));
    case Many(kind) =>
      if |v.vs| == 0 { return; }
      var items := WriteLeaves(kind, v.vs);
      doc.Append(m.name, Array(items));
    case Nested(_) =>
      var son := WriteStruct(m.t, v.fields);
      doc.Append(m.name, Document(son));
    case NestedMany(_) =>
      if |v.elems| == 0 { return; }
      var items := WriteArray(m.t, v.elems);
      doc.Append(m.name, Array(items));
  }

  method WriteLeaves(kind: YanType, vs: seq<Value>) returns (items: seq<Bson>)
    ensures items == Leaves(kind, vs)
  {
    var builder := new ArrayBuilder();
    var i := 0;
    while i < |vs|
      invariant 0 <= i <= |vs| && builder.items == Leaves(kind, vs)[..i]
    {
      builder.Append(Leaf(CppTypeOf(kind), vs[i]));
      i := i + 1;
    }
    assert Leaves(kind, vs)[..|vs|] == Leaves(kind, vs);
    items := builder.items;
  }

  // Every element of a list of structs becomes a document.
  method WriteArray(t: Type, es: seq<seq<Val>>) returns (items: seq<Bson>)
    requires IsStruct(t) && forall e :: 0 <= e < |es| ==> FieldsConform(t, es[e])
    ensures items == WriteElems(t, es)
    decreases t, 1
  {
    var builder := new ArrayBuilder();
    var i := 0;
    while i < |es|
      invariant 0 <= i <= |es| && builder.items == WriteElems(t, es)[..i]
    {
      var son := WriteStruct(t, es[i]);
      builder.Append(Document(son));
      i := i + 1;
    }
    assert WriteElems(t, es)[..|es|] == WriteElems(t, es);
    items := builder.items;
  }

  // A nested struct: all its members, dirty or not.
  method WriteStruct(t: Type, fs: seq<Val>) returns (fields: Doc)
    requires IsStruct(t) && FieldsConform(t, fs)
    ensures fields == WriteFrom(t, fs, 0)
    decreases t, 0
  {
    var doc := new DocBuilder();
    ghost var goal := WriteFrom(t, fs, 0);
    var k := 0;
    while k < |t.ms|
      invariant 0 <= k <= |fs| && doc.fields + WriteFrom(t, fs, k) == goal
    {
      ghost var done := doc.fields;
      WriteMember(doc, t.ms[k], fs[k]);
      Shift(done, Line(t.ms[k].name, Write(t.ms[k].t, fs[k])), WriteFrom(t, fs, k + 1), goal);
      k := k + 1;
    }
    fields := doc.fields;
  }

  /** `make`: the dirty members of the object, in the order of their seqs. */
  method Make(t: Type, fs: seq<Val>, dirty: set<nat>) returns (fields: Doc)
    requires IsStruct(t) && FieldsConform(t, fs)
    ensures fields == WriteDirty(t, fs, dirty, 0)
  {
    var doc := new DocBuilder();
    ghost var goal := WriteDirty(t, fs, dirty, 0);
    var k := 0;
    while k < |t.ms|
      invariant 0 <= k <= |fs| && doc.fields + WriteDirty(t, fs, dirty, k) == goal
    {
      ghost var done := doc.fields;
      if k in dirty { WriteMember(doc, t.ms[k], fs[k]); } else { assert done + [] == done; }
      Shift(done, DirtyLine(t, fs, dirty, k), WriteDirty(t, fs, dirty, k + 1), goal);
      k := k + 1;
    }
    fields := doc.fields;
  }

  /******* `FetchMongoResult` *******/

  // `get_value` of a list: one setter call an item.
  method FetchLeaves(kind: YanType, items: seq<Bson>, cur: seq<Value>) returns (r: Result<seq<Value>>)
    requires Readable(kind)
    ensures r == ReadLeaves(kind, items, 0, cur)
  {
    var vs, i := cur, 0;
    while i < |items|
      invariant 0 <= i <= |items| && ReadLeaves(kind, items, 0, cur) == ReadLeaves(kind, items, i, vs)
    {
      if !items[i].Leaf? || items[i].kind != Expected(kind) { return Thrown; }
      vs := vs + [items[i].v];
      i := i + 1;
    }
    r := Ok(vs);
  }

  method FetchMember(t: Type, b: Option<Bson>, cur: Val) returns (r: Result<Val>)
    requires Conforms(t, cur)
    ensures r == Read(t, b, cur)
    decreases t, 2
  {
    match t
    case One(kind) =>
      if !Readable(kind) { return Thrown; }
      if b.None? { return Ok(cur); }
      if !b.value.Leaf? || b.value.kind != Expected(kind) { return Thrown; }
      r := Ok(Plain(Some(b.value.v)));
    case Many(kind) =>
      if !Readable(kind) { return Thrown; }
      var vs := FetchLeaves(kind, ItemsOf(b), cur.vs);
      r := if vs.Ok? then Ok(Plains(vs.value)) else Thrown;
    case Nested(_) =>
      if b.None? { return Ok(cur); }
      if !b.value.Document? { return Thrown; }
      var fs := FetchStruct(t, b.value.fields, cur.fields);
      r := if fs.Ok? then Ok(Object(fs.value)) else Thrown;
    case NestedMany(_) =>
      var o := FetchElement(t, ItemsOf(b));
      r := if o.Ok? then Ok(Objects(cur.elems + [o.value])) else Thrown;
  }

  // One new element, and every document of the array read into it.
  method FetchElement(t: Type, items: seq<Bson>) returns (r: Result<seq<Val>>)
    requires IsStruct(t)
    ensures r == ReadElems(t, items, 0, FreshFields(t))
    decreases t, 1
  {
    var o, i := FreshFields(t), 0;
    while i < |items|
      invariant 0 <= i <= |items| && FieldsConform(t, o)
      invariant ReadElems(t, items, 0, FreshFields(t)) == ReadElems(t, items, i, o)
    {
      if !items[i].Document? { return Thrown; }
      var fs := FetchStruct(t, items[i].fields, o);
      if fs.Thrown? { return Thrown; }
      o := fs.value;
      i := i + 1;
    }
    r := Ok(o);
  }

  /** `fetch`: every member of the struct, in order, looked up by its name. */
  method FetchStruct(t: Type, doc: Doc, cur: seq<Val>) returns (r: Result<seq<Val>>)
    requires IsStruct(t) && FieldsConform(t, cur)
    ensures r == ReadFrom(t, doc, cur, 0)
    decreases t, 0
  {
    var fs, k := cur, 0;
    while k < |t.ms|
      invariant 0 <= k <= |fs| && FieldsConform(t, fs)
      invariant ReadFrom(t, doc, cur, 0) == ReadFrom(t, doc, fs, k)
    {
      var v := FetchMember(t.ms[k].t, Find(doc, t.ms[k].name), fs[k]);
      if v.Thrown? { return Thrown; }
      fs := fs[k := v.value];
      k := k + 1;
    }
    r := Ok(fs);
  }
}
