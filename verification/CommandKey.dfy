/** The commands of one connection, the key and the text of each, and exactly when keys collide. */
module CommandKey {
  import opened YanTypes
  import opened Strings
  import opened SqlGrammar
  import opened QueryModel
  import opened SqlText
  import opened InsertSql
  import opened ParamKey

  datatype Command =
    | ReadCommand(c: ReadCond)
    | DeleteCommand(c: ReadCond)
    | UpdateCommand(u: UpdateCond)

  predicate KeyedCond(c: ReadCond) {
    c.params.Some? ==> SmallFields(c.params.value)
  }

  function HashOf(c: ReadCond): string
    requires KeyedCond(c)
  {
    if c.params.None? then "" else Chunks(c.params.value)
  }

  function RetName(ret: Ret): string {
    match ret
    case Count => ""
    case Rows(t) => t.name
  }

  // `_hash_value`: the result type leaves no trace when it is a count, nor does a missing table.
  function CondKey(c: ReadCond): string
    requires KeyedCond(c)
  {
    if c.table.None? then RetName(c.ret) else RetName(c.ret) + c.table.value.name + HashOf(c)
  }

  predicate Keyed(cmd: Command) {
    match cmd
    case ReadCommand(c) => KeyedCond(c)
    case DeleteCommand(c) => KeyedCond(c)
    case UpdateCommand(u) => KeyedCond(u.cond)
  }

  /** The key of `SqliteContext::read`, `del` and `update`. */
  function KeyOf(cmd: Command): string
    requires Keyed(cmd)
  {
    match cmd
    case ReadCommand(c) => CondKey(c)
    case DeleteCommand(c) => CondKey(c) + "D"
    case UpdateCommand(u) => CondKey(u.cond) + DigitsOf(u.seqs) + "U"
  }

  predicate WellFormedCommand(cmd: Command) {
    match cmd
    case ReadCommand(c) => WellFormed(c)
    case DeleteCommand(c) => WellFormed(c)
    case UpdateCommand(u) => WellFormedUpdate(u) && Ascending(u.seqs)
  }

  /** The text a fresh generator makes of a command. */
  function CommandText(cmd: Command): Result<string>
    requires WellFormedCommand(cmd)
  {
    match cmd
    case ReadCommand(c) => if QueryThrows(c) then Thrown else Ok(QueryText(c))
    case DeleteCommand(c) => if DeleteThrows(c) then Thrown else Ok(DeleteText(c))
    case UpdateCommand(u) => if UpdateThrows(u) then Thrown else Ok(UpdateText(u))
  }

  /******* The text depends on the shape of the conditions only *******/

  // Two parameter lists over one table that print the same.
  lemma {:induction false} SameConds(t: Table, ps: seq<Param>, qs: seq<Param>, first: bool)
    requires FieldsKnown(t, ps) && FieldsKnown(t, qs) && Shapes(ps) == Shapes(qs)
    ensures CondsText(Resolve(t, ps), first) == CondsText(Resolve(t, qs), first)
    ensures CondsThrow(Resolve(t, ps), first) == CondsThrow(Resolve(t, qs), first)
    ensures |ps| == |qs|
  {
    assert |Shapes(ps)| == |Shapes(qs)|;
    if ps != [] {
      assert Shapes(ps)[0] == Shapes(qs)[0];
      assert Shapes(ps)[1..] == Shapes(ps[1..]) && Shapes(qs)[1..] == Shapes(qs[1..]);
      SameConds(t, ps[1..], qs[1..], false);
      SameCond(Resolve(t, ps)[0], Resolve(t, qs)[0], first);
      assert Resolve(t, ps)[1..] == Resolve(t, ps[1..]) && Resolve(t, qs)[1..] == Resolve(t, qs[1..]);
    }
  }

  lemma SameCond(m: Named, n: Named, first: bool)
    requires m.col == n.col && m.cond == n.cond && m.op == n.op
    ensures CondText(m, first) == CondText(n, first)
  {
  }

  // The same condition object but for the values compared with.
  predicate SameShape(c: ReadCond, d: ReadCond) {
    && c.ret == d.ret && c.table == d.table && (c.params.Some? <==> d.params.Some?)
    && (c.params.Some? ==> Shapes(c.params.value) == Shapes(d.params.value))
  }

  lemma SameWhere(c: ReadCond, d: ReadCond)
    requires WellFormed(c) && WellFormed(d) && SameShape(c, d)
    ensures WhereText(NamedConds(c)) == WhereText(NamedConds(d))
    ensures CondsThrow(NamedConds(c), true) == CondsThrow(NamedConds(d), true)
  {
    if c.params.Some? {
      SameConds(c.table.value, c.params.value, d.params.value, true);
    }
  }

  /** Values never enter the text: commands of the same shape have the same text. */
  lemma SameShapeSameText(a: Command, b: Command)
    requires WellFormedCommand(a) && WellFormedCommand(b)
    requires a.ReadCommand? && b.ReadCommand? ==> SameShape(a.c, b.c)
    requires a.DeleteCommand? && b.DeleteCommand? ==> SameShape(a.c, b.c)
    requires a.UpdateCommand? && b.UpdateCommand? ==> SameShape(a.u.cond, b.u.cond) && a.u.seqs == b.u.seqs
    requires (a.ReadCommand? <==> b.ReadCommand?) && (a.DeleteCommand? <==> b.DeleteCommand?)
    ensures CommandText(a) == CommandText(b)
  {
    if a.UpdateCommand? { SameWhere(a.u.cond, b.u.cond); } else { SameWhere(a.c, b.c); }
  }

  /******* Fixed tables: the key determines the comparisons *******/

  lemma CancelFront(a: string, x: string, y: string)
    requires a + x == a + y
    ensures x == y
  {
    SplitChunk(a, x, a, y);
  }

  lemma CondKeyDecodes(c: ReadCond, d: ReadCond, x: string, y: string)
    requires WellFormed(c) && WellFormed(d) && KeyedCond(c) && KeyedCond(d)
    requires c.ret == d.ret && c.table == d.table && Plain(x) && Plain(y)
    requires CondKey(c) + x == CondKey(d) + y
    ensures SameShape(c, d) && x == y
  {
    if c.table.None? {
      CancelFront(CondKey(c), x, y);
    } else {
      var head := RetName(c.ret) + c.table.value.name;
      var ps, qs := if c.params.Some? then c.params.value else [], if d.params.Some? then d.params.value else [];
      Assoc3(head, HashOf(c), x);
      Assoc3(head, HashOf(d), y);
      CancelFront(head, HashOf(c) + x, HashOf(d) + y);
      ChunksThenDigits(ps, x, qs, y);
      assert |Shapes(ps)| == |Shapes(qs)|;
    }
  }

  /** For fixed result and condition tables: equal read, delete or update keys imply the same list
      of (seq, operator, condition), the same assigned members and so the same SQL, provided an
      updated struct has at most twelve members. */
  lemma KeyDecodes(a: Command, b: Command)
    requires WellFormedCommand(a) && WellFormedCommand(b) && Keyed(a) && Keyed(b) && KeyOf(a) == KeyOf(b)
    requires (a.ReadCommand? <==> b.ReadCommand?) && (a.DeleteCommand? <==> b.DeleteCommand?)
    requires !a.UpdateCommand? ==> a.c.ret == b.c.ret && a.c.table == b.c.table
    requires a.UpdateCommand? ==> a.u.cond.ret == b.u.cond.ret && |a.u.cond.ret.table.members| <= 12
    ensures if a.UpdateCommand? then SameShape(a.u.cond, b.u.cond) && a.u.seqs == b.u.seqs else SameShape(a.c, b.c)
    ensures CommandText(a) == CommandText(b)
  {
    if a.UpdateCommand? {
      var x, y := DigitsOf(a.u.seqs), DigitsOf(b.u.seqs);
      DigitsPlain(a.u.seqs);
      DigitsPlain(b.u.seqs);
      DropLast(CondKey(a.u.cond) + x, CondKey(b.u.cond) + y, 'U');
      CondKeyDecodes(a.u.cond, b.u.cond, x, y);
      DigitsTellTwelve(a.u.seqs, b.u.seqs);
    } else {
      assert CondKey(a.c) + "" == CondKey(a.c) && CondKey(b.c) + "" == CondKey(b.c);
      if a.DeleteCommand? { DropLast(CondKey(a.c), CondKey(b.c), 'D'); }
      CondKeyDecodes(a.c, b.c, "", "");
    }
    SameShapeSameText(a, b);
  }

  lemma DropLast(x: string, y: string, c: char)
    requires x + [c] == y + [c]
    ensures x == y
  {
    assert |x + [c]| == |y + [c]|;
    assert x == (x + [c])[..|x|] && y == (y + [c])[..|y|];
  }

  /******* Commands for one table *******/

  predicate Blankless(s: string) {
    forall i :: 0 <= i < |s| ==> s[i] != ' '
  }

  // A table named by an identifier, its members by different identifiers.
  predicate Ordinary(t: Table) {
    && t.name != "" && Plain(t.name) && DistinctNames(t)
    && forall i :: 0 <= i < |t.members| ==> Blankless(t.members[i].name)
  }

  // A command as the facade builds it for a single table.
  predicate OneTable(cmd: Command, t: Table) {
    WellFormedCommand(cmd) && Keyed(cmd) &&
    match cmd
    case ReadCommand(c) => (c.ret == Rows(t) || (c.ret.Count? && c.table.Some?)) && (c.table.Some? ==> c.table.value == t)
    case DeleteCommand(c) => c.ret.Count? && c.table == Some(t) && c.params.Some?
    case UpdateCommand(u) => u.cond.ret == Rows(t)
  }

  // The unconditional count, and the unconditional read of whole rows.
  predicate CountsAll(cmd: Command) {
    cmd.ReadCommand? && cmd.c.ret.Count? && cmd.c.params.None?
  }

  predicate ReadsAll(cmd: Command) {
    cmd.ReadCommand? && cmd.c.ret.Rows? && cmd.c.table.None?
  }

  datatype Kind = Unconditional | Conditional | Deletion | Updating

  function KindOf(cmd: Command): Kind {
    match cmd
    case ReadCommand(c) => if c.params.None? then Unconditional else Conditional
    case DeleteCommand(_) => Deletion
    case UpdateCommand(_) => Updating
  }

  lemma {:induction false} ChunksLast(ps: seq<Param>)
    requires SmallFields(ps) && ps != []
    ensures Chunks(ps)[|Chunks(ps)| - 1] <= 6 as char
  {
    if |ps| == 1 {
      CondCodeInjective(ps[0].cond, ps[0].cond);
      assert Chunks(ps[1..]) == "";
    } else {
      ChunksLast(ps[1..]);
    }
  }

  lemma LastOf(a: string, b: string)
    requires b != ""
    ensures (a + b)[|a + b| - 1] == b[|b| - 1]
  {
  }

  // What tells a key of each kind from those of the others, whatever the name of the table ends in.
  predicate LooksLike(kind: Kind, key: string, name: string) {
    key != "" &&
    match kind
    case Unconditional => Plain(key) && |key| <= 2 * |name|
    case Conditional => key[|key| - 1] <= 6 as char
    case Deletion => key[|key| - 1] == 'D' && !Plain(key)
    case Updating => key[|key| - 1] == 'U' && |key| > 2 * |name|
  }

  lemma DeleteKeyLooks(c: ReadCond, t: Table)
    requires OneTable(DeleteCommand(c), t) && Ordinary(t)
    ensures LooksLike(Deletion, KeyOf(DeleteCommand(c)), t.name)
  {
    var key := CondKey(c) + "D";
    ChunksLast(c.params.value);
    LastOf(RetName(c.ret) + t.name, HashOf(c));
    LastOf(CondKey(c), "D");
    assert key[|key| - 2] == CondKey(c)[|CondKey(c)| - 1];
  }

  lemma UpdateKeyLooks(u: UpdateCond, t: Table)
    requires OneTable(UpdateCommand(u), t) && Ordinary(t)
    ensures LooksLike(Updating, KeyOf(UpdateCommand(u)), t.name)
  {
    LastOf(CondKey(u.cond) + DigitsOf(u.seqs), "U");
    assert |CondKey(u.cond)| >= |t.name + t.name|;
  }

  lemma ReadKeyLooks(c: ReadCond, t: Table)
    requires OneTable(ReadCommand(c), t) && Ordinary(t)
    ensures LooksLike(KindOf(ReadCommand(c)), KeyOf(ReadCommand(c)), t.name)
  {
    if c.params.Some? {
      ChunksLast(c.params.value);
      LastOf(RetName(c.ret) + t.name, HashOf(c));
    } else if c.table.Some? {
      assert CondKey(c) == RetName(c.ret) + t.name;
    }
  }

  lemma KeyLooks(cmd: Command, t: Table)
    requires OneTable(cmd, t) && Ordinary(t)
    ensures LooksLike(KindOf(cmd), KeyOf(cmd), t.name)
  {
    match cmd
    case ReadCommand(c) => ReadKeyLooks(c, t);
    case DeleteCommand(c) => DeleteKeyLooks(c, t);
    case UpdateCommand(u) => UpdateKeyLooks(u, t);
  }

  lemma KindFromKey(a: Command, b: Command, t: Table)
    requires OneTable(a, t) && OneTable(b, t) && Ordinary(t) && KeyOf(a) == KeyOf(b)
    ensures KindOf(a) == KindOf(b)
  {
    hide OneTable, KeyOf;
    KeyLooks(a, t);
    KeyLooks(b, t);
  }

  // A conditional count is never mistaken for a conditional read of rows.
  lemma {:induction false} CountNotRows(name: string, ps: seq<Param>, qs: seq<Param>)
    requires name != "" && Plain(name) && SmallFields(ps) && SmallFields(qs) && qs != []
    ensures Chunks(qs) != name + Chunks(ps)
  {
    if |name| > 2 {
      OpByte(qs, 0, "");
      ThirdByte(name, Chunks(ps), Chunks(qs));
    } else {
      Lengths(|name|, |ps|, |qs|);
      assert |name + Chunks(ps)| == |name| + 4 * |ps|;
    }
  }

  lemma ThirdByte(name: string, x: string, y: string)
    requires |name| > 2 && |y| > 2 && (y + "")[2] <= 6 as char && Plain(name)
    ensures y != name + x
  {
    assert y + "" == y && (name + x)[2] == name[2];
  }

  lemma Lengths(n: nat, p: nat, q: nat)
    requires 1 <= n <= 2
    ensures n + 4 * p != 4 * q
  {
  }

  lemma ConditionalReads(a: ReadCond, b: ReadCond, t: Table)
    requires OneTable(ReadCommand(a), t) && OneTable(ReadCommand(b), t) && Ordinary(t)
    requires a.params.Some? && b.params.Some? && CondKey(a) == CondKey(b)
    ensures a.ret == b.ret && a.table == b.table
  {
    assert a.table == Some(t) && b.table == Some(t);
    if a.ret.Count? && b.ret.Rows? { CountVersusRows(a, b, t); }
    if b.ret.Count? && a.ret.Rows? { CountVersusRows(b, a, t); }
  }

  lemma CountVersusRows(a: ReadCond, b: ReadCond, t: Table)
    requires WellFormed(a) && WellFormed(b) && KeyedCond(a) && KeyedCond(b) && Ordinary(t)
    requires a.ret.Count? && b.ret == Rows(t) && a.table == b.table == Some(t)
    requires a.params.Some? && b.params.Some?
    ensures CondKey(a) != CondKey(b)
  {
    assert "" + t.name + HashOf(a) == t.name + HashOf(a);
    Assoc3(t.name, t.name, HashOf(b));
    CountNotRows(t.name, b.params.value, a.params.value);
    if CondKey(a) == CondKey(b) { CancelFront(t.name, HashOf(a), t.name + HashOf(b)); }
  }

  lemma UnconditionalReads(a: ReadCond, b: ReadCond, t: Table)
    requires OneTable(ReadCommand(a), t) && OneTable(ReadCommand(b), t) && Ordinary(t)
    requires a.params.None? && b.params.None? && CondKey(a) == CondKey(b)
    ensures (a.ret == b.ret && a.table == b.table)
            || (CountsAll(ReadCommand(a)) && ReadsAll(ReadCommand(b))) || (ReadsAll(ReadCommand(a)) && CountsAll(ReadCommand(b)))
  {
    assert |t.name + t.name| > |t.name|;
    assert a.ret.Count? ==> CondKey(a) == t.name;
    assert b.ret.Count? ==> CondKey(b) == t.name;
  }

  // The texts of the two differ.
  lemma CountTextDiffers(a: Command, b: Command, t: Table)
    requires OneTable(a, t) && OneTable(b, t) && CountsAll(a) && ReadsAll(b)
    ensures KeyOf(a) == KeyOf(b) && CommandText(a) != CommandText(b)
  {
    assert "" + t.name + "" == t.name;
    assert CommandText(b) == Ok(HeadText(Star, t.name) + "");
    if CommandText(a).Ok? {
      var cols := ReadColumns(a.c).value;
      assert CommandText(a) == Ok(HeadText(cols, t.name) + "");
      HeadsDiffer(ColumnsText(cols), " FROM " + t.name);
      HeadSplit(ColumnsText(cols), t.name);
      HeadSplit("*", t.name);
      SameTail("SELECT ", ColumnsText(cols) + (" FROM " + t.name), "*" + (" FROM " + t.name));
    }
  }

  lemma HeadSplit(cols: string, name: string)
    ensures "SELECT " + cols + " FROM " + name + "" == "SELECT " + (cols + (" FROM " + name))
  {
  }

  lemma HeadsDiffer(cols: string, rest: string)
    requires cols != "*"
    ensures cols + rest != "*" + rest
  {
    if |cols| == 1 {
      assert cols[0] != '*';
      assert (cols + rest)[0] == cols[0] && ("*" + rest)[0] == '*';
    } else {
      assert |cols + rest| != |"*" + rest|;
    }
  }

  lemma SameTail(front: string, x: string, y: string)
    ensures front + x == front + y <==> x == y
  {
    if front + x == front + y { CancelFront(front, x, y); }
  }

  /******* Updates of different members *******/

  /** Update keys of one table are equal exactly when the conditions have one shape and the assigned
      members the same digits. */
  lemma UpdateKeyIff(u: UpdateCond, v: UpdateCond)
    requires WellFormedUpdate(u) && WellFormedUpdate(v) && KeyedCond(u.cond) && KeyedCond(v.cond)
    requires u.cond.ret == v.cond.ret
    ensures KeyOf(UpdateCommand(u)) == KeyOf(UpdateCommand(v))
            <==> SameShape(u.cond, v.cond) && DigitsOf(u.seqs) == DigitsOf(v.seqs)
  {
    var x, y := DigitsOf(u.seqs), DigitsOf(v.seqs);
    if KeyOf(UpdateCommand(u)) == KeyOf(UpdateCommand(v)) {
      DigitsPlain(u.seqs);
      DigitsPlain(v.seqs);
      DropLast(CondKey(u.cond) + x, CondKey(v.cond) + y, 'U');
      CondKeyDecodes(u.cond, v.cond, x, y);
    }
    if SameShape(u.cond, v.cond) { SameShapeSameKey(u.cond, v.cond); }
  }

  lemma SameShapeSameKey(c: ReadCond, d: ReadCond)
    requires KeyedCond(c) && KeyedCond(d) && SameShape(c, d)
    ensures CondKey(c) == CondKey(d)
  {
    if c.params.Some? { ChunksOfShapes(c.params.value, d.params.value); }
  }

  // The SET list says which names are assigned.
  lemma {:induction false} SetsTell(xs: seq<string>, ys: seq<string>)
    requires forall i :: 0 <= i < |xs| ==> Blankless(xs[i])
    requires forall i :: 0 <= i < |ys| ==> Blankless(ys[i])
    requires SetsText(xs) == SetsText(ys)
    ensures xs == ys
  {
    hide Blankless;
    if xs != [] { SetsLonger(xs); }
    if ys != [] { SetsLonger(ys); }
    if xs != [] && ys != [] {
      FirstSet(xs[0], SetsRest(xs), ys[0], SetsRest(ys));
      if |xs| > 1 && |ys| > 1 {
        CancelFront(", ", SetsText(xs[1..]), SetsText(ys[1..]));
        SetsTell(xs[1..], ys[1..]);
      }
      assert |xs| == 1 ==> xs == [xs[0]];
      assert |ys| == 1 ==> ys == [ys[0]];
      assert xs == [xs[0]] + xs[1..] && ys == [ys[0]] + ys[1..];
    }
  }

  function SetsRest(xs: seq<string>): string
    requires xs != []
  {
    if |xs| == 1 then "" else ", " + SetsText(xs[1..])
  }

  lemma {:induction false} SetsLonger(xs: seq<string>)
    requires xs != []
    ensures SetsText(xs) == xs[0] + (" = ?" + SetsRest(xs)) && |SetsText(xs)| > 0
  {
  }

  lemma NotShorter(x: string, a: string, y: string, b: string)
    requires Blankless(y) && a != "" && a[0] == ' ' && x + a == y + b
    ensures |x| >= |y|
  {
    assert (x + a)[|x|] == ' ';
    assert forall i :: 0 <= i < |y| ==> (y + b)[i] == y[i];
  }

  lemma FirstSet(x: string, xs: string, y: string, ys: string)
    requires Blankless(x) && Blankless(y) && x + (" = ?" + xs) == y + (" = ?" + ys)
    ensures x == y && xs == ys
  {
    NotShorter(x, " = ?" + xs, y, " = ?" + ys);
    NotShorter(y, " = ?" + ys, x, " = ?" + xs);
    SplitChunk(x, " = ?" + xs, y, " = ?" + ys);
    CancelFront(" = ?", xs, ys);
  }

  lemma {:induction false} SameNamesSameSeqs(t: Table, x: seq<nat>, y: seq<nat>)
    requires DistinctNames(t) && forall i :: 0 <= i < |x| ==> x[i] < |t.members|
    requires forall i :: 0 <= i < |y| ==> y[i] < |t.members|
    requires SetNames(t, x) == SetNames(t, y)
    ensures x == y
  {
    assert |x| == |SetNames(t, x)| == |SetNames(t, y)| == |y|;
    forall i | 0 <= i < |x| ensures x[i] == y[i] {
      assert SetNames(t, x)[i] == SetNames(t, y)[i];
    }
  }

  // Two updates over one table print the same only if they assign the same members.
  lemma UpdateTextsTell(u: UpdateCond, v: UpdateCond, t: Table)
    requires OneTable(UpdateCommand(u), t) && OneTable(UpdateCommand(v), t) && Ordinary(t)
    requires SameShape(u.cond, v.cond) && UpdateText(u) == UpdateText(v)
    ensures u.seqs == v.seqs
  {
    var x, y, w := SetsText(SetNames(t, u.seqs)), SetsText(SetNames(t, v.seqs)), WhereText(NamedConds(u.cond));
    var head := "UPDATE " + t.name + " SET ";
    SameWhere(u.cond, v.cond);
    Assoc3(head, x, w);
    Assoc3(head, y, w);
    CancelFront(head, x + w, y + w);
    assert |x| + |w| == |x + w| == |y + w| == |y| + |w|;
    SplitChunk(x, w, y, w);
    SetsTell(SetNames(t, u.seqs), SetNames(t, v.seqs));
    SameNamesSameSeqs(t, u.seqs, v.seqs);
  }

  /** Two updates of one shape whose assigned members differ though their digits do not, and which
      are not both refused: with {1, 2} and {12} it takes thirteen members. */
  predicate DigitsClash(a: Command, b: Command)
    requires WellFormedCommand(a) && WellFormedCommand(b)
  {
    && a.UpdateCommand? && b.UpdateCommand? && SameShape(a.u.cond, b.u.cond)
    && a.u.seqs != b.u.seqs && DigitsOf(a.u.seqs) == DigitsOf(b.u.seqs)
    && !(UpdateThrows(a.u) && UpdateThrows(b.u))
  }

  lemma UpdatesCollideIff(a: Command, b: Command, t: Table)
    requires OneTable(a, t) && OneTable(b, t) && Ordinary(t) && a.UpdateCommand? && b.UpdateCommand?
    ensures KeyOf(a) == KeyOf(b) && CommandText(a) != CommandText(b) <==> DigitsClash(a, b)
  {
    hide Ordinary, DistinctNames, KeyOf, SameShape, UpdateText;
    UpdateKeyIff(a.u, b.u);
    if KeyOf(a) == KeyOf(b) {
      if a.u.seqs == b.u.seqs {
        SameShapeSameText(a, b);
      } else if !UpdateThrows(a.u) && !UpdateThrows(b.u) && UpdateText(a.u) == UpdateText(b.u) {
        UpdateTextsTell(a.u, b.u, t);
      }
    }
  }

  /******* The only collisions *******/

  predicate CountMeetsRead(a: Command, b: Command) {
    (CountsAll(a) && ReadsAll(b)) || (ReadsAll(a) && CountsAll(b))
  }

  /** Two commands for one table share a key and yet differ in their SQL exactly when one is the
      unconditional count and the other the unconditional read, or when they are updates whose
      digits clash. */
  lemma OnlyCollision(a: Command, b: Command, t: Table)
    requires OneTable(a, t) && OneTable(b, t) && Ordinary(t)
    ensures KeyOf(a) == KeyOf(b) && CommandText(a) != CommandText(b)
            <==> CountMeetsRead(a, b) || DigitsClash(a, b)
  {
    if CountsAll(a) && ReadsAll(b) {
      CountTextDiffers(a, b, t);
    } else if ReadsAll(a) && CountsAll(b) {
      CountTextDiffers(b, a, t);
    } else if KeyOf(a) == KeyOf(b) {
      KindFromKey(a, b, t);
      SameKind(a, b, t);
    } else if a.UpdateCommand? && b.UpdateCommand? {
      UpdatesCollideIff(a, b, t);
    }
  }

  lemma SameKind(a: Command, b: Command, t: Table)
    requires OneTable(a, t) && OneTable(b, t) && Ordinary(t) && KeyOf(a) == KeyOf(b) && KindOf(a) == KindOf(b)
    requires !CountMeetsRead(a, b)
    ensures CommandText(a) != CommandText(b) <==> DigitsClash(a, b)
  {
    if a.UpdateCommand? {
      UpdatesCollideIff(a, b, t);
    } else {
      if a.ReadCommand? {
        if a.c.params.Some? { ConditionalReads(a.c, b.c, t); } else { UnconditionalReads(a.c, b.c, t); }
      }
      KeyDecodes(a, b);
    }
  }

  /** The thirteenth member: updates of {1, 2} and of {12} share a key, not their SQL. */
  lemma OneTwoTwelve(a: Command, b: Command, t: Table)
    requires OneTable(a, t) && OneTable(b, t) && Ordinary(t) && a.UpdateCommand? && b.UpdateCommand?
    requires SameShape(a.u.cond, b.u.cond) && a.u.seqs == [1, 2] && b.u.seqs == [12] && !UpdateThrows(a.u)
    ensures KeyOf(a) == KeyOf(b) && CommandText(a) != CommandText(b)
  {
    OneTwo();
    UpdatesCollideIff(a, b, t);
  }

  /******* Join keys *******/

  // The key of a join read: tables, equalities and conditions, but not the result type.
  function JoinsKey(js: seq<JoinCond>): string {
    if js == [] then "" else js[0].table.name + EqualsKey(js[0].equals) + JoinsKey(js[1..])
  }

  function EqualsKey(bs: seq<Bridge>): string {
    if bs == [] then "" else BridgeText(bs[0]) + EqualsKey(bs[1..])
  }

  function CondsKey(cs: seq<ReadCond>): string
    requires forall i :: 0 <= i < |cs| ==> KeyedCond(cs[i])
  {
    if cs == [] then "" else CondKey(cs[0]) + CondsKey(cs[1..])
  }

  function JoinKey(ret: Ret, js: seq<JoinCond>, cs: seq<ReadCond>): string
    requires forall i :: 0 <= i < |cs| ==> KeyedCond(cs[i])
  {
    JoinsKey(js) + CondsKey(cs)
  }

  /** The key of a union is that of its members one after the other, so a union of one is the read
      itself: the same key, the same text. */
  lemma UnionOfOne(c: ReadCond)
    requires WellFormed(c) && KeyedCond(c)
    ensures CondsKey([c]) == CondKey(c)
    ensures UnionThrows([c]) <==> QueryThrows(c)
    ensures !QueryThrows(c) ==> UnionText([c]) == QueryText(c)
  {
    assert [c][1..] == [] && [c][0] == c;
    assert !QueryThrows(c) ==> MemberParts([c]) == [PartsOf(c)];
  }

  /** Two joins that differ in the result type only share a key, and share their text exactly when
      their column lists read the same. */
  lemma JoinKeyForgetsResult(r: Ret, s: Ret, js: seq<JoinCond>, cs: seq<ReadCond>)
    requires AllConditional(cs) && !JoinThrows(r, js, cs) && !JoinThrows(s, js, cs)
    requires forall i :: 0 <= i < |cs| ==> KeyedCond(cs[i])
    ensures JoinKey(r, js, cs) == JoinKey(s, js, cs)
    ensures JoinText(r, js, cs) == JoinText(s, js, cs)
            <==> ColumnsText(RetColumns(r).value) == ColumnsText(RetColumns(s).value)
  {
    var a, b := ColumnsText(RetColumns(r).value), ColumnsText(RetColumns(s).value);
    var rest := " FROM " + js[0].table.name + BridgesText(js[0].equals) + JoinsText(js[1..]) + WhereText(AllConds(cs));
    JoinHead(a, js[0].table.name, BridgesText(js[0].equals), JoinsText(js[1..]), WhereText(AllConds(cs)));
    JoinHead(b, js[0].table.name, BridgesText(js[0].equals), JoinsText(js[1..]), WhereText(AllConds(cs)));
    SameTail("SELECT ", a + rest, b + rest);
    if a + rest == b + rest {
      assert |a + rest| == |b + rest|;
      SplitChunk(a, rest, b, rest);
    }
  }

  lemma JoinHead(cols: string, from: string, es: string, js: string, w: string)
    ensures "SELECT " + cols + " FROM " + from + es + js + w == "SELECT " + (cols + (" FROM " + from + es + js + w))
  {
  }

  /******* The loops that build the longer keys *******/

  // `JoinReadCond::hash_value`
  method BuildTableKey(j: JoinCond) returns (key: string)
    ensures key == j.table.name + EqualsKey(j.equals)
  {
    hide BridgeText;
    key := j.table.name;
    ghost var goal := key + EqualsKey(j.equals);
    var i := 0;
    assert j.equals[0..] == j.equals;
    while i < |j.equals|
      invariant 0 <= i <= |j.equals| && key + EqualsKey(j.equals[i..]) == goal
    {
      assert j.equals[i..][1..] == j.equals[i + 1..];
      Shift(key, BridgeText(j.equals[i]), EqualsKey(j.equals[i + 1..]), goal);
      key := key + BridgeText(j.equals[i]);
      i := i + 1;
    }
    assert key + "" == key;
  }

  method BuildTablesKey(js: seq<JoinCond>) returns (key: string)
    ensures key == JoinsKey(js)
  {
    hide EqualsKey;
    key := "";
    ghost var goal := JoinsKey(js);
    var i := 0;
    Empty(goal);
    assert js[0..] == js;
    while i < |js|
      invariant 0 <= i <= |js| && key + JoinsKey(js[i..]) == goal
    {
      assert js[i..][1..] == js[i + 1..];
      var piece := BuildTableKey(js[i]);
      Shift(key, piece, JoinsKey(js[i + 1..]), goal);
      key := key + piece;
      i := i + 1;
    }
    Empty(key);
  }

  /** The key of a join read: tables with their equalities, then the keys of the conditions. */
  method BuildJoinKey(ret: Ret, js: seq<JoinCond>, cs: seq<ReadCond>) returns (key: string)
    requires forall i :: 0 <= i < |cs| ==> KeyedCond(cs[i])
    ensures key == JoinKey(ret, js, cs)
  {
    hide EqualsKey, JoinsKey, CondKey, KeyedCond;
    key := BuildTablesKey(js);
    ghost var goal := JoinKey(ret, js, cs);
    var i := 0;
    assert cs[0..] == cs;
    while i < |cs|
      invariant 0 <= i <= |cs| && key + CondsKey(cs[i..]) == goal
    {
      assert cs[i..][1..] == cs[i + 1..];
      Shift(key, CondKey(cs[i]), CondsKey(cs[i + 1..]), goal);
      key := key + CondKey(cs[i]);
      i := i + 1;
    }
    Empty(key);
  }

  /** The key of an update: that of its condition, the assigned members in decimal, and `U`. */
  method BuildUpdateKey(u: UpdateCond) returns (key: string)
    requires KeyedCond(u.cond)
    ensures key == KeyOf(UpdateCommand(u))
  {
    hide CondKey, Digits;
    key := CondKey(u.cond);
    ghost var goal := key + DigitsOf(u.seqs);
    var i := 0;
    assert u.seqs[0..] == u.seqs;
    while i < |u.seqs|
      invariant 0 <= i <= |u.seqs| && key + DigitsOf(u.seqs[i..]) == goal
    {
      assert u.seqs[i..][1..] == u.seqs[i + 1..];
      Shift(key, Digits(u.seqs[i]), DigitsOf(u.seqs[i + 1..]), goal);
      key := key + Digits(u.seqs[i]);
      i := i + 1;
    }
    assert key + "" == key;
    key := key + "U";
  }
}
