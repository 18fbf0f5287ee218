/**
 Objects as documents: the recursive writer and reader over a schema tree of scalars, lists and
 nested structs, and exactly when reading a written object gives it back.
 */
module MongoDoc {
  import opened YanTypes

  /******* Schemas, objects and documents *******/

  datatype Type =
    | One(kind: YanType)
    | Many(kind: YanType)
    | Nested(ms: seq<Member>)
    | NestedMany(ms: seq<Member>)

  datatype Member = Member(name: string, t: Type)

  // A scalar that has no value has its flag unset.
  datatype Val =
    | Plain(v: Option<Value>)
    | Plains(vs: seq<Value>)
    | Object(fields: seq<Val>)
    | Objects(elems: seq<seq<Val>>)

  // A scalar is streamed as its C++ type, and the document keeps it.
  datatype Bson =
    | Leaf(kind: CppType, v: Value)
    | Array(items: seq<Bson>)
    | Document(fields: Doc)

  datatype Entry = Entry(name: string, b: Bson)

  type Doc = seq<Entry>

  predicate IsStruct(t: Type) { t.Nested? || t.NestedMany? }

  // The kinds the reader knows: strings by `get_utf8`, and `get_int32` and `get_double`.
  predicate Readable(kind: YanType) {
    kind.String? || kind.Text? || kind.Blob? || kind.Int32? || kind.Double?
  }

  lemma ReadableIff(kind: YanType)
    ensures Readable(kind) <==> CppTypeOf(kind) in {StringT, Int32T, DoubleT}
  {
  }

  // The stored type that the reader asks for.
  function Expected(kind: YanType): CppType
    requires Readable(kind)
  {
    match kind
    case Int32 => Int32T
    case Double => DoubleT
    case _ => StringT
  }

  predicate AllReadable(t: Type)
    decreases t
  {
    if IsStruct(t) then forall k :: 0 <= k < |t.ms| ==> AllReadable(t.ms[k].t) else Readable(t.kind)
  }

  predicate AllDistinct(t: Type)
    decreases t
  {
    IsStruct(t) ==>
      && (forall j, k :: 0 <= j < k < |t.ms| ==> t.ms[j].name != t.ms[k].name)
      && forall k :: 0 <= k < |t.ms| ==> AllDistinct(t.ms[k].t)
  }

  predicate Conforms(t: Type, v: Val)
    decreases t, 1
  {
    match t
    case One(_) => v.Plain?
    case Many(_) => v.Plains?
    case Nested(_) => v.Object? && FieldsConform(t, v.fields)
    case NestedMany(_) => v.Objects? && forall e :: 0 <= e < |v.elems| ==> FieldsConform(t, v.elems[e])
  }

  predicate FieldsConform(t: Type, fs: seq<Val>)
    requires IsStruct(t)
    decreases t, 0
  {
    |fs| == |t.ms| && forall k :: 0 <= k < |fs| ==> Conforms(t.ms[k].t, fs[k])
  }

  function Fresh(t: Type): (v: Val)
    ensures Conforms(t, v)
    decreases t, 1
  {
    match t
    case One(_) => Plain(None)
    case Many(_) => Plains([])
    case Nested(_) => Object(FreshFields(t))
    case NestedMany(_) => Objects([])
  }

  function FreshFields(t: Type): (fs: seq<Val>)
    requires IsStruct(t)
    ensures FieldsConform(t, fs) && forall k :: 0 <= k < |fs| ==> fs[k] == Fresh(t.ms[k].t)
    decreases t, 0
  {
    seq(|t.ms|, k requires 0 <= k < |t.ms| => Fresh(t.ms[k].t))
  }

  /******* Writing *******/

  function Leaves(kind: YanType, vs: seq<Value>): (bs: seq<Bson>)
    ensures |bs| == |vs| && forall i :: 0 <= i < |vs| ==> bs[i] == Leaf(CppTypeOf(kind), vs[i])
  {
    seq(|vs|, i requires 0 <= i < |vs| => Leaf(CppTypeOf(kind), vs[i]))
  }

  /** What a member contributes to its document: an unset scalar or an empty list nothing, a nested
      struct always a document of its own. */
  function Write(t: Type, v: Val): Option<Bson>
    requires Conforms(t, v)
    decreases t, 2
  {
    match t
    case One(kind) => if v.v.Some? then Some(Leaf(CppTypeOf(kind), v.v.value)) else None
    case Many(kind) => if v.vs != [] then Some(Array(Leaves(kind, v.vs))) else None
    case Nested(_) => Some(Document(WriteFrom(t, v.fields, 0)))
    case NestedMany(_) => if v.elems != [] then Some(Array(WriteElems(t, v.elems))) else None
  }

  function WriteElems(t: Type, es: seq<seq<Val>>): (bs: seq<Bson>)
    requires IsStruct(t) && forall e :: 0 <= e < |es| ==> FieldsConform(t, es[e])
    ensures |bs| == |es| && forall e :: 0 <= e < |es| ==> bs[e] == Document(WriteFrom(t, es[e], 0))
    decreases t, 1
  {
    seq(|es|, e requires 0 <= e < |es| => Document(WriteFrom(t, es[e], 0)))
  }

  function Line(name: string, b: Option<Bson>): Doc {
    if b.None? then [] else [Entry(name, b.value)]
  }

  // The members of a nested struct from the k-th on.
  function WriteFrom(t: Type, fs: seq<Val>, k: nat): Doc
    requires IsStruct(t) && FieldsConform(t, fs) && k <= |fs|
    decreases t, 0, |fs| - k
  {
    if k == |fs| then [] else Line(t.ms[k].name, Write(t.ms[k].t, fs[k])) + WriteFrom(t, fs, k + 1)
  }

  function DirtyLine(t: Type, fs: seq<Val>, dirty: set<nat>, k: nat): Doc
    requires IsStruct(t) && FieldsConform(t, fs) && k < |fs|
  {
    if k in dirty then Line(t.ms[k].name, Write(t.ms[k].t, fs[k])) else []
  }

  // The dirty members of the object itself from the k-th on.
  function WriteDirty(t: Type, fs: seq<Val>, dirty: set<nat>, k: nat): Doc
    requires IsStruct(t) && FieldsConform(t, fs) && k <= |fs|
    decreases |fs| - k
  {
    if k == |fs| then [] else DirtyLine(t, fs, dirty, k) + WriteDirty(t, fs, dirty, k + 1)
  }

  /******* Reading *******/

  function Find(doc: Doc, name: string): Option<Bson> {
    if doc == [] then None
    else if doc[0].name == name then Some(doc[0].b)
    else Find(doc[1..], name)
  }

  // The values of the items from the i-th on, each of the stored kind; otherwise `get_...` throws.
  function ReadLeaves(kind: YanType, items: seq<Bson>, i: nat, vs: seq<Value>): Result<seq<Value>>
    requires i <= |items| && Readable(kind)
    decreases |items| - i
  {
    if i == |items| then Ok(vs)
    else if items[i].Leaf? && items[i].kind == Expected(kind) then ReadLeaves(kind, items, i + 1, vs + [items[i].v])
    else Thrown
  }

  function ItemsOf(b: Option<Bson>): seq<Bson> {
    if b.Some? && b.value.Array? then b.value.items else []
  }

  /** Reading a member into its current value.  A list of structs always gains one element, into which
      all documents of the array are read, one over the other. */
  function Read(t: Type, b: Option<Bson>, cur: Val): (r: Result<Val>)
    requires Conforms(t, cur)
    ensures r.Ok? ==> Conforms(t, r.value)
    decreases t, 2
  {
    match t
    case One(kind) =>
      if !Readable(kind) then Thrown
      else if b.None? then Ok(cur)
      else if b.value.Leaf? && b.value.kind == Expected(kind) then Ok(Plain(Some(b.value.v)))
      else Thrown
    case Many(kind) =>
      if !Readable(kind) then Thrown
      else
        var r := ReadLeaves(kind, ItemsOf(b), 0, cur.vs);
        if r.Ok? then Ok(Plains(r.value)) else Thrown
    case Nested(_) =>
      if b.None? then Ok(cur)
      else if !b.value.Document? then Thrown
      else
        var r := ReadFrom(t, b.value.fields, cur.fields, 0);
        if r.Ok? then Ok(Object(r.value)) else Thrown
    case NestedMany(_) =>
      var r := ReadElems(t, ItemsOf(b), 0, FreshFields(t));
      if r.Ok? then Ok(Objects(cur.elems + [r.value])) else Thrown
  }

  function ReadElems(t: Type, items: seq<Bson>, i: nat, o: seq<Val>): (r: Result<seq<Val>>)
    requires IsStruct(t) && FieldsConform(t, o) && i <= |items|
    ensures r.Ok? ==> FieldsConform(t, r.value)
    decreases t, 1, |items| - i
  {
    if i == |items| then Ok(o)
    else if !items[i].Document? then Thrown
    else
      var r := ReadFrom(t, items[i].fields, o, 0);
      if r.Ok? then ReadElems(t, items, i + 1, r.value) else Thrown
  }

  function ReadFrom(t: Type, doc: Doc, fs: seq<Val>, k: nat): (r: Result<seq<Val>>)
    requires IsStruct(t) && FieldsConform(t, fs) && k <= |fs|
    ensures r.Ok? ==> FieldsConform(t, r.value)
    decreases t, 0, |fs| - k
  {
    if k == |fs| then Ok(fs)
    else
      var v := Read(t.ms[k].t, Find(doc, t.ms[k].name), fs[k]);
      if v.Ok? then ReadFrom(t, doc, fs[k := v.value], k + 1) else Thrown
  }

  /******* Documents hold what was written *******/

  lemma {:induction false} FindLine(name: string, b: Option<Bson>, rest: Doc, other: string)
    ensures Find(Line(name, b) + rest, other) == if b.Some? && name == other then b else Find(rest, other)
  {
    if b.Some? { assert (Line(name, b) + rest)[1..] == rest; } else { assert [] + rest == rest; }
  }

  lemma {:induction false} FindWritten(t: Type, fs: seq<Val>, j: nat, k: nat)
    requires IsStruct(t) && FieldsConform(t, fs) && AllDistinct(t) && j <= |fs| && k < |fs|
    ensures Find(WriteFrom(t, fs, j), t.ms[k].name) == if k < j then None else Write(t.ms[k].t, fs[k])
    decreases |fs| - j
  {
    if j < |fs| {
      FindWritten(t, fs, j + 1, k);
      FindLine(t.ms[j].name, Write(t.ms[j].t, fs[j]), WriteFrom(t, fs, j + 1), t.ms[k].name);
    }
  }

  lemma {:induction false} FindDirty(t: Type, fs: seq<Val>, dirty: set<nat>, j: nat, k: nat)
    requires IsStruct(t) && FieldsConform(t, fs) && AllDistinct(t) && j <= |fs| && k < |fs|
    ensures Find(WriteDirty(t, fs, dirty, j), t.ms[k].name) ==
            if k < j || k !in dirty then None else Write(t.ms[k].t, fs[k])
    decreases |fs| - j
  {
    if j < |fs| {
      hide Write, Conforms;
      FindDirty(t, fs, dirty, j + 1, k);
      var line := if j in dirty then Write(t.ms[j].t, fs[j]) else None;
      assert DirtyLine(t, fs, dirty, j) == Line(t.ms[j].name, line);
      FindLine(t.ms[j].name, line, WriteDirty(t, fs, dirty, j + 1), t.ms[k].name);
    }
  }

  // The document holds exactly what its members contribute.
  predicate DocHolds(t: Type, fs: seq<Val>, doc: Doc)
    requires IsStruct(t) && FieldsConform(t, fs)
  {
    forall k :: 0 <= k < |fs| ==> Find(doc, t.ms[k].name) == Write(t.ms[k].t, fs[k])
  }

  lemma {:induction false} WrittenHolds(t: Type, fs: seq<Val>)
    requires IsStruct(t) && FieldsConform(t, fs) && AllDistinct(t)
    ensures DocHolds(t, fs, WriteFrom(t, fs, 0))
  {
    forall k | 0 <= k < |fs| ensures Find(WriteFrom(t, fs, 0), t.ms[k].name) == Write(t.ms[k].t, fs[k]) {
      FindWritten(t, fs, 0, k);
    }
  }

  // A member that has something to write: a set scalar, a list with elements, any nested struct.
  predicate Present(t: Type, v: Val)
    requires Conforms(t, v)
  {
    match t
    case One(_) => v.v.Some?
    case Many(_) => |v.vs| > 0
    case Nested(_) => true
    case NestedMany(_) => |v.elems| > 0
  }

  function NamesOf(doc: Doc): seq<string> {
    if doc == [] then [] else [doc[0].name] + NamesOf(doc[1..])
  }

  // The names of the present members from the k-th on, in their order; only the dirty ones of the object
  // itself.
  function WrittenNames(t: Type, fs: seq<Val>, written: Option<set<nat>>, k: nat): seq<string>
    requires IsStruct(t) && FieldsConform(t, fs) && k <= |fs|
    decreases |fs| - k
  {
    if k == |fs| then []
    else (if (written.None? || k in written.value) && Present(t.ms[k].t, fs[k]) then [t.ms[k].name] else []) + WrittenNames(t, fs, written, k + 1)
  }

  lemma WritesPresent(t: Type, v: Val)
    requires Conforms(t, v)
    ensures Write(t, v).Some? <==> Present(t, v)
  {
  }

  lemma {:induction false} NamesOfLine(name: string, b: Option<Bson>, rest: Doc)
    ensures NamesOf(Line(name, b) + rest) == (if b.Some? then [name] else []) + NamesOf(rest)
  {
    if b.Some? { assert (Line(name, b) + rest)[1..] == rest; } else { assert [] + rest == rest; }
  }

  // What one member adds to the names.
  lemma OneName(t: Type, fs: seq<Val>, dirty: set<nat>, k: nat)
    requires IsStruct(t) && FieldsConform(t, fs) && k < |fs|
    ensures var name := if Present(t.ms[k].t, fs[k]) then [t.ms[k].name] else [];
      && NamesOf(WriteFrom(t, fs, k)) == name + NamesOf(WriteFrom(t, fs, k + 1))
      && NamesOf(WriteDirty(t, fs, dirty, k)) == (if k in dirty then name else []) + NamesOf(WriteDirty(t, fs, dirty, k + 1))
  {
    WritesPresent(t.ms[k].t, fs[k]);
    hide Write, Present, NamesOf;
    NamesOfLine(t.ms[k].name, Write(t.ms[k].t, fs[k]), WriteFrom(t, fs, k + 1));
    var line := if k in dirty then Write(t.ms[k].t, fs[k]) else None;
    assert DirtyLine(t, fs, dirty, k) == Line(t.ms[k].name, line);
    NamesOfLine(t.ms[k].name, line, WriteDirty(t, fs, dirty, k + 1));
  }

  /** The document of an object has one entry for each dirty member that is present, in the order of the
      struct, and no other; that of a nested struct one for each member that is present. */
  lemma {:induction false} DocumentNames(t: Type, fs: seq<Val>, dirty: set<nat>, k: nat)
    requires IsStruct(t) && FieldsConform(t, fs) && k <= |fs|
    ensures NamesOf(WriteDirty(t, fs, dirty, k)) == WrittenNames(t, fs, Some(dirty), k)
    ensures NamesOf(WriteFrom(t, fs, k)) == WrittenNames(t, fs, None, k)
    decreases |fs| - k
  {
    hide Write, Conforms, Present, NamesOf, WriteFrom, WriteDirty;
    if k < |fs| {
      DocumentNames(t, fs, dirty, k + 1);
      OneName(t, fs, dirty, k);
    } else {
      NoNamesLeft(t, fs, dirty);
    }
  }

  lemma NoNamesLeft(t: Type, fs: seq<Val>, dirty: set<nat>)
    requires IsStruct(t) && FieldsConform(t, fs)
    ensures NamesOf(WriteDirty(t, fs, dirty, |fs|)) == NamesOf(WriteFrom(t, fs, |fs|)) == []
  {
  }

  /******* Reading back *******/

  lemma {:induction false} ReadLeavesAll(kind: YanType, vs: seq<Value>, i: nat, acc: seq<Value>)
    requires i <= |vs| && Readable(kind)
    ensures ReadLeaves(kind, Leaves(kind, vs), i, acc) == Ok(acc + vs[i..])
    decreases |vs| - i
  {
    if i < |vs| {
      ReadLeavesAll(kind, vs, i + 1, acc + [vs[i]]);
      assert acc + [vs[i]] + vs[i + 1..] == acc + vs[i..];
    } else {
      assert acc + vs[i..] == acc;
    }
  }

  // If every member from the k-th on can be read, so can the rest of the struct, member by member.
  lemma {:induction false} ReadFromIs(t: Type, doc: Doc, fs: seq<Val>, k: nat)
    requires IsStruct(t) && FieldsConform(t, fs) && k <= |fs|
    requires forall j :: k <= j < |fs| ==> Read(t.ms[j].t, Find(doc, t.ms[j].name), fs[j]).Ok?
    ensures ReadFrom(t, doc, fs, k).Ok?
    ensures var r := ReadFrom(t, doc, fs, k).value;
      |r| == |fs| && forall j :: 0 <= j < |fs| ==>
        r[j] == if j < k then fs[j] else Read(t.ms[j].t, Find(doc, t.ms[j].name), fs[j]).value
    decreases |fs| - k
  {
    if k < |fs| {
      var v := Read(t.ms[k].t, Find(doc, t.ms[k].name), fs[k]).value;
      ReadFromIs(t, doc, fs[k := v], k + 1);
    }
  }

  /** A written member can always be read again, into whatever is there. */
  lemma {:induction false} ReadSucceeds(t: Type, v: Val, cur: Val)
    requires Conforms(t, v) && Conforms(t, cur) && AllReadable(t) && AllDistinct(t)
    ensures Read(t, Write(t, v), cur).Ok?
    decreases t, 2
  {
    match t
    case One(_) =>
    case Many(kind) => if v.vs != [] { ReadLeavesAll(kind, v.vs, 0, cur.vs); }
    case Nested(_) => FieldsSucceed(t, v.fields, WriteFrom(t, v.fields, 0), cur.fields);
    case NestedMany(_) => ElemsSucceed(t, v.elems, 0, FreshFields(t));
  }

  lemma {:induction false} FieldsSucceed(t: Type, fs: seq<Val>, doc: Doc, cur: seq<Val>)
    requires IsStruct(t) && FieldsConform(t, fs) && FieldsConform(t, cur) && AllReadable(t) && AllDistinct(t)
    requires doc == WriteFrom(t, fs, 0)
    ensures ReadFrom(t, doc, cur, 0).Ok?
    decreases t, 0
  {
    WrittenHolds(t, fs);
    forall j | 0 <= j < |cur| ensures Read(t.ms[j].t, Find(doc, t.ms[j].name), cur[j]).Ok? {
      ReadSucceeds(t.ms[j].t, fs[j], cur[j]);
    }
    ReadFromIs(t, doc, cur, 0);
  }

  lemma {:induction false} ElemsSucceed(t: Type, es: seq<seq<Val>>, i: nat, o: seq<Val>)
    requires IsStruct(t) && (forall e :: 0 <= e < |es| ==> FieldsConform(t, es[e])) && i <= |es|
    requires FieldsConform(t, o) && AllReadable(t) && AllDistinct(t)
    ensures ReadElems(t, WriteElems(t, es), i, o).Ok?
    decreases t, 1, |es| - i
  {
    if i < |es| {
      FieldsSucceed(t, es[i], WriteFrom(t, es[i], 0), o);
      ElemsSucceed(t, es, i + 1, ReadFrom(t, WriteFrom(t, es[i], 0), o, 0).value);
    }
  }

  /** Every list of structs in the object has exactly one element. */
  predicate Single(t: Type, v: Val)
    requires Conforms(t, v)
    decreases t, 1
  {
    match t
    case Nested(_) => SingleFields(t, v.fields)
    case NestedMany(_) => |v.elems| == 1 && SingleFields(t, v.elems[0])
    case _ => true
  }

  predicate SingleFields(t: Type, fs: seq<Val>)
    requires IsStruct(t) && FieldsConform(t, fs)
    decreases t, 0
  {
    forall k :: 0 <= k < |fs| ==> Single(t.ms[k].t, fs[k])
  }

  /** A member read back into a fresh one is the member that was written, exactly when its lists of
      structs have one element each. */
  lemma {:induction false} MemberRoundTrip(t: Type, v: Val)
    requires Conforms(t, v) && AllReadable(t) && AllDistinct(t)
    ensures Read(t, Write(t, v), Fresh(t)).Ok?
    ensures Read(t, Write(t, v), Fresh(t)).value == v <==> Single(t, v)
    decreases t, 2
  {
    ReadSucceeds(t, v, Fresh(t));
    match t
    case One(_) =>
    case Many(kind) =>
      if v.vs != [] {
        ReadLeavesAll(kind, v.vs, 0, []);
        assert [] + v.vs[0..] == v.vs;
      }
    case Nested(_) => FieldsRoundTrip(t, v.fields);
    case NestedMany(_) =>
      if |v.elems| == 1 {
        FieldsRoundTrip(t, v.elems[0]);
        OneElement(t, v.elems);
      }
  }

  lemma {:induction false} FieldsRoundTrip(t: Type, fs: seq<Val>)
    requires IsStruct(t) && FieldsConform(t, fs) && AllReadable(t) && AllDistinct(t)
    ensures ReadFrom(t, WriteFrom(t, fs, 0), FreshFields(t), 0).Ok?
    ensures ReadFrom(t, WriteFrom(t, fs, 0), FreshFields(t), 0).value == fs <==> SingleFields(t, fs)
    decreases t, 0
  {
    var doc, cur := WriteFrom(t, fs, 0), FreshFields(t);
    WrittenHolds(t, fs);
    forall j | 0 <= j < |fs|
      ensures Read(t.ms[j].t, Find(doc, t.ms[j].name), cur[j]).Ok?
      ensures Read(t.ms[j].t, Find(doc, t.ms[j].name), cur[j]).value == fs[j] <==> Single(t.ms[j].t, fs[j])
    {
      MemberRoundTrip(t.ms[j].t, fs[j]);
    }
    ReadFromIs(t, doc, cur, 0);
  }

  lemma {:induction false} OneElement(t: Type, es: seq<seq<Val>>)
    requires t.NestedMany? && |es| == 1 && FieldsConform(t, es[0])
    requires ReadFrom(t, WriteFrom(t, es[0], 0), FreshFields(t), 0).Ok?
    ensures ReadElems(t, WriteElems(t, es), 0, FreshFields(t)) == ReadFrom(t, WriteFrom(t, es[0], 0), FreshFields(t), 0)
  {
    var bs := WriteElems(t, es);
    var r := ReadFrom(t, bs[0].fields, FreshFields(t), 0).value;
    assert ReadElems(t, bs, 1, r) == Ok(r);
  }

  // Whatever is not dirty was never touched; the builder sees to this for objects that were not fetched.
  predicate Tracked(t: Type, fs: seq<Val>, dirty: set<nat>)
    requires IsStruct(t) && FieldsConform(t, fs)
  {
    forall k :: 0 <= k < |fs| && k !in dirty ==> fs[k] == Fresh(t.ms[k].t)
  }

  // What reading visits: all lists of structs of the object, and those in nested structs that were written.
  predicate SingleVisited(t: Type, fs: seq<Val>, dirty: set<nat>)
    requires IsStruct(t) && FieldsConform(t, fs)
  {
    forall k :: 0 <= k < |fs| && (k in dirty || t.ms[k].t.NestedMany?) ==> Single(t.ms[k].t, fs[k])
  }

  /** The reflective round trip: fetching the document made of an object into a fresh object never
      fails, and restores every value and every flag exactly when each list of structs on the way
      has one element. */
  lemma {:induction false} ObjectRoundTrip(t: Type, fs: seq<Val>, dirty: set<nat>)
    requires IsStruct(t) && FieldsConform(t, fs) && AllReadable(t) && AllDistinct(t) && Tracked(t, fs, dirty)
    ensures ReadFrom(t, WriteDirty(t, fs, dirty, 0), FreshFields(t), 0).Ok?
    ensures ReadFrom(t, WriteDirty(t, fs, dirty, 0), FreshFields(t), 0).value == fs <==> SingleVisited(t, fs, dirty)
  {
    var doc, cur := WriteDirty(t, fs, dirty, 0), FreshFields(t);
    forall j | 0 <= j < |fs|
      ensures Read(t.ms[j].t, Find(doc, t.ms[j].name), cur[j]).Ok?
      ensures Read(t.ms[j].t, Find(doc, t.ms[j].name), cur[j]).value == fs[j]
              <==> ((j in dirty || t.ms[j].t.NestedMany?) ==> Single(t.ms[j].t, fs[j]))
    {
      FindDirty(t, fs, dirty, 0, j);
      if j in dirty { MemberRoundTrip(t.ms[j].t, fs[j]); } else { AbsentMember(t.ms[j].t); }
    }
    ReadFromIs(t, doc, cur, 0);
  }

  // A member that is not in the document stays fresh, but a list of structs gains an element.
  lemma {:induction false} AbsentMember(t: Type)
    requires AllReadable(t)
    ensures Read(t, None, Fresh(t)) == if t.NestedMany? then Ok(Objects([FreshFields(t)])) else Ok(Fresh(t))
  {
    if t.NestedMany? {
      assert ReadElems(t, ItemsOf(None), 0, FreshFields(t)) == Ok(FreshFields(t));
      assert [] + [FreshFields(t)] == [FreshFields(t)];
    }
  }

  /** Whatever the array holds, a list of structs gains exactly one element. */
  lemma {:induction false} OneElementOnly(t: Type, b: Option<Bson>, cur: Val)
    requires t.NestedMany? && Conforms(t, cur)
    ensures Read(t, b, cur).Ok? ==>
            |Read(t, b, cur).value.elems| == |cur.elems| + 1 && Read(t, b, cur).value.elems[..|cur.elems|] == cur.elems
  {
  }

  /** What a reader makes of a value it did not expect: a scalar of another stored type throws, and so does
      a struct that is no document; a list that is no array is read as if it had no items. */
  lemma UnexpectedValue(t: Type, b: Bson, cur: Val)
    requires Conforms(t, cur) && AllReadable(t)
    ensures t.One? ==> (Read(t, Some(b), cur).Ok? <==> b.Leaf? && b.kind == CppTypeOf(t.kind))
    ensures t.Nested? && !b.Document? ==> Read(t, Some(b), cur).Thrown?
    ensures t.Many? && !b.Array? ==> Read(t, Some(b), cur) == Ok(cur)
    ensures t.Many? && b.Array? && b.items != [] && !b.items[0].Leaf? ==> Read(t, Some(b), cur).Thrown?
    ensures t.Many? && b.Array? && b.items != [] && b.items[0].Leaf? && b.items[0].kind != CppTypeOf(t.kind) ==>
              Read(t, Some(b), cur).Thrown?
    ensures t.NestedMany? && !b.Array? ==> Read(t, Some(b), cur) == Ok(Objects(cur.elems + [FreshFields(t)]))
  {
    if t.NestedMany? && !b.Array? { assert ReadElems(t, ItemsOf(Some(b)), 0, FreshFields(t)) == Ok(FreshFields(t)); }
  }

  // The last value of a name among some documents.
  function LastOf(items: seq<Bson>, name: string, i: nat): Option<Bson>
    requires i <= |items|
    decreases |items| - i
  {
    if i == |items| then None
    else
      var later := LastOf(items, name, i + 1);
      if later.Some? then later else if items[i].Document? then Find(items[i].fields, name) else None
  }

  /** All documents of an array are read into the one element, one over the other: a scalar member has the
      value of the last document with its name. */
  lemma {:induction false} LastOverwrites(t: Type, items: seq<Bson>, i: nat, o: seq<Val>, k: nat)
    requires IsStruct(t) && FieldsConform(t, o) && i <= |items| && k < |o| && t.ms[k].t.One?
    requires ReadElems(t, items, i, o).Ok?
    ensures var b := LastOf(items, t.ms[k].name, i);
            ReadElems(t, items, i, o).value[k] == if b.Some? && b.value.Leaf? then Plain(Some(b.value.v)) else o[k]
    decreases |items| - i
  {
    if i < |items| {
      var r := ReadFrom(t, items[i].fields, o, 0).value;
      ReadFromAt(t, items[i].fields, o, 0, k);
      LastOverwrites(t, items, i + 1, r, k);
      LastIsLeaf(t, items, i + 1, r, k);
    }
  }

  // What reading left of a scalar member.
  lemma {:induction false} ReadFromAt(t: Type, doc: Doc, fs: seq<Val>, j: nat, k: nat)
    requires IsStruct(t) && FieldsConform(t, fs) && j <= |fs| && k < |fs| && ReadFrom(t, doc, fs, j).Ok?
    ensures j <= k ==> Read(t.ms[k].t, Find(doc, t.ms[k].name), fs[k]) == Ok(ReadFrom(t, doc, fs, j).value[k])
    ensures j > k ==> ReadFrom(t, doc, fs, j).value[k] == fs[k]
    decreases |fs| - j
  {
    if j < |fs| {
      var v := Read(t.ms[j].t, Find(doc, t.ms[j].name), fs[j]).value;
      ReadFromAt(t, doc, fs[j := v], j + 1, k);
    }
  }

  // A scalar that was read came from a leaf.
  lemma {:induction false} LastIsLeaf(t: Type, items: seq<Bson>, i: nat, o: seq<Val>, k: nat)
    requires IsStruct(t) && FieldsConform(t, o) && i <= |items| && k < |o| && t.ms[k].t.One?
    requires ReadElems(t, items, i, o).Ok?
    ensures var b := LastOf(items, t.ms[k].name, i); b.Some? ==> b.value.Leaf?
    decreases |items| - i
  {
    if i < |items| {
      ReadFromAt(t, items[i].fields, o, 0, k);
      LastIsLeaf(t, items, i + 1, ReadFrom(t, items[i].fields, o, 0).value, k);
    }
  }

  /** A member of another type makes every fetch throw, written or not. */
  lemma {:induction false} UnreadableThrows(t: Type, doc: Doc, fs: seq<Val>, j: nat)
    requires IsStruct(t) && FieldsConform(t, fs) && j < |fs| && !IsStruct(t.ms[j].t) && !Readable(t.ms[j].t.kind)
    ensures ReadFrom(t, doc, fs, 0).Thrown?
  {
    UnreadableFrom(t, doc, fs, j, 0);
  }

  lemma {:induction false} UnreadableFrom(t: Type, doc: Doc, fs: seq<Val>, j: nat, k: nat)
    requires IsStruct(t) && FieldsConform(t, fs) && k <= j < |fs| && !IsStruct(t.ms[j].t) && !Readable(t.ms[j].t.kind)
    ensures ReadFrom(t, doc, fs, k).Thrown?
    decreases |fs| - k
  {
    var v := Read(t.ms[k].t, Find(doc, t.ms[k].name), fs[k]);
    if k < j && v.Ok? { UnreadableFrom(t, doc, fs[k := v.value], j, k + 1); }
  }
}
