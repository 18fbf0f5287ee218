/**
 The SELECT, UNION, JOIN, COPY, DELETE and UPDATE generators: text is appended to one buffer, and
 two flags remember whether a separator is due.  Each method is proved against the text functions.
 */
module MakeSql {
  import opened YanTypes
  import opened Strings
  import opened SqlGrammar
  import opened QueryModel
  import opened SqlText

  // What a loop still has to append: its pieces from the i-th on.
  function From(pieces: seq<string>, i: nat): string
    decreases |pieces| - i
  {
    if i >= |pieces| then "" else pieces[i] + From(pieces, i + 1)
  }

  // The pieces of a separated list: every item but the first carries the separator.
  function Item(sep: string, i: nat, item: string): string {
    if i == 0 then item else sep + item
  }

  lemma Separate(sep: string, item: string, comma: string, rest: string)
    ensures sep + (item + comma + rest) == (sep + item) + (comma + rest)
    ensures item + comma + rest == item + (comma + rest)
  {
  }

  function ColumnPieces(cs: seq<Column>): seq<string> {
    seq(|cs|, i requires 0 <= i < |cs| => Item(", ", i, ColumnText(cs[i])))
  }

  lemma {:induction false} ColumnPiecesFrom(cs: seq<Column>, i: nat)
    requires i < |cs|
    ensures From(ColumnPieces(cs), i) == Item(", ", i, ColumnListText(cs[i..]))
    ensures cs[0..] == cs
    decreases |cs| - i
  {
    var text := ColumnText(cs[i]);
    assert cs[i..][1..] == cs[i + 1..];
    Empty(ColumnPieces(cs)[i]);
    if i + 1 < |cs| {
      ColumnPiecesFrom(cs, i + 1);
      Separate(", ", text, ", ", ColumnListText(cs[i + 1..]));
    }
  }

  lemma {:induction false} ColumnPiecesText(cs: seq<Column>)
    ensures From(ColumnPieces(cs), 0) == ColumnListText(cs)
  {
    if cs != [] { ColumnPiecesFrom(cs, 0); }
  }

  function SetPieces(names: seq<string>): seq<string> {
    seq(|names|, i requires 0 <= i < |names| => Item(", ", i, names[i] + " = ?"))
  }

  lemma {:induction false} SetPiecesFrom(names: seq<string>, i: nat)
    requires i < |names|
    ensures From(SetPieces(names), i) == Item(", ", i, SetsText(names[i..]))
    ensures names[0..] == names
    decreases |names| - i
  {
    var text := names[i] + " = ?";
    assert names[i..][1..] == names[i + 1..];
    Empty(SetPieces(names)[i]);
    if i + 1 < |names| {
      SetPiecesFrom(names, i + 1);
      Separate(", ", text, ", ", SetsText(names[i + 1..]));
    }
  }

  lemma {:induction false} SetPiecesText(names: seq<string>)
    ensures From(SetPieces(names), 0) == SetsText(names)
  {
    if names != [] { SetPiecesFrom(names, 0); }
  }

  function BridgePieces(bs: seq<Bridge>): seq<string> {
    seq(|bs|, i requires 0 <= i < |bs| => Item(" AND ", i, BridgeText(bs[i])))
  }

  lemma {:induction false} BridgePiecesFrom(bs: seq<Bridge>, i: nat)
    requires i < |bs|
    ensures From(BridgePieces(bs), i) == Item(" AND ", i, BridgesText(bs[i..]))
    ensures bs[0..] == bs
    decreases |bs| - i
  {
    var text := BridgeText(bs[i]);
    assert bs[i..][1..] == bs[i + 1..];
    Empty(BridgePieces(bs)[i]);
    if i + 1 < |bs| {
      BridgePiecesFrom(bs, i + 1);
      Separate(" AND ", text, " AND ", BridgesText(bs[i + 1..]));
    }
  }

  lemma {:induction false} BridgePiecesText(bs: seq<Bridge>)
    ensures From(BridgePieces(bs), 0) == BridgesText(bs)
  {
    if bs != [] { BridgePiecesFrom(bs, 0); }
  }

  // Conditions carry their own connectives.
  function CondPieces(ns: seq<Named>, first: bool): seq<string> {
    seq(|ns|, i requires 0 <= i < |ns| => CondText(ns[i], first && i == 0))
  }

  lemma {:induction false} CondPiecesFrom(ns: seq<Named>, first: bool, i: nat)
    requires i <= |ns|
    ensures From(CondPieces(ns, first), i) == CondsText(ns[i..], first && i == 0)
    ensures ns[0..] == ns
    decreases |ns| - i
  {
    if i < |ns| {
      CondPiecesFrom(ns, first, i + 1);
      assert ns[i..][1..] == ns[i + 1..];
    }
  }

  // The conditions of one object, and whether its first one cannot open a WHERE.
  function ObjectText(c: ReadCond, first: bool): string
    requires WellFormed(c)
  {
    CondsText(NamedConds(c), first)
  }

  predicate ObjectThrows(c: ReadCond)
    requires WellFormed(c)
  {
    CondsThrow(NamedConds(c), true)
  }

  // What the loop over the condition objects still has to append.
  function AllCondsFrom(cs: seq<ReadCond>, i: nat): string
    requires AllConditional(cs) && i <= |cs|
    decreases |cs| - i
  {
    if i == |cs| then "" else ObjectText(cs[i], i == 0) + AllCondsFrom(cs, i + 1)
  }

  lemma {:induction false} AllCondsFromIs(cs: seq<ReadCond>, i: nat)
    requires AllConditional(cs) && i <= |cs|
    ensures AllCondsFrom(cs, i) == CondsText(AllConds(cs[i..]), i == 0)
    decreases |cs| - i
  {
    if i < |cs| {
      AllCondsFromIs(cs, i + 1);
      assert cs[i..][1..] == cs[i + 1..];
      assert NamedConds(cs[i]) != [];
      CondsTextAppend(NamedConds(cs[i]), AllConds(cs[i + 1..]), i == 0);
    }
  }

  lemma {:induction false} AllCondsText(cs: seq<ReadCond>)
    requires AllConditional(cs)
    ensures AllCondsFrom(cs, 0) == CondsText(AllConds(cs), true)
    ensures cs != [] ==> CondsThrow(AllConds(cs), true) == CondsThrow(NamedConds(cs[0]), true)
  {
    AllCondsFromIs(cs, 0);
    assert cs[0..] == cs;
    if cs != [] { assert NamedConds(cs[0]) != []; }
  }

  // The tables of a join: the first follows FROM, the others LEFT JOIN.
  function TablePiece(j: JoinCond, first: bool): string {
    if first then " FROM " + j.table.name + BridgesText(j.equals)
    else " LEFT JOIN " + j.table.name + " ON " + BridgesText(j.equals)
  }

  function TablesFrom(js: seq<JoinCond>, i: nat): string
    requires i <= |js|
    decreases |js| - i
  {
    if i == |js| then "" else TablePiece(js[i], i == 0) + TablesFrom(js, i + 1)
  }

  function TablesText(js: seq<JoinCond>): string
    requires js != []
  {
    " FROM " + js[0].table.name + BridgesText(js[0].equals) + JoinsText(js[1..])
  }

  lemma {:induction false} JoinsFromIs(js: seq<JoinCond>, i: nat)
    requires 0 < i <= |js|
    ensures TablesFrom(js, i) == JoinsText(js[i..])
    decreases |js| - i
  {
    if i < |js| {
      JoinsFromIs(js, i + 1);
      assert js[i..][1..] == js[i + 1..];
    }
  }

  lemma {:induction false} TablesTextIs(js: seq<JoinCond>)
    requires js != []
    ensures TablesFrom(js, 0) == TablesText(js)
  {
    JoinsFromIs(js, 1);
  }

  lemma TableShape(s: string, name: string, es: string)
    ensures s + " FROM " + name + es == s + (" FROM " + name + es)
    ensures s + " LEFT JOIN " + name + " ON " + es == s + (" LEFT JOIN " + name + " ON " + es)
  {
  }

  predicate NoneThrows(cs: seq<ReadCond>, i: nat)
    requires AllWellFormed(cs) && i <= |cs|
  {
    forall j :: 0 <= j < i ==> !QueryThrows(cs[j])
  }

  function MemberPiece(c: ReadCond, first: bool): string
    requires WellFormed(c) && !QueryThrows(c)
  {
    if first then QueryText(c) else " UNION " + QueryText(c)
  }

  // What the loop over the members of a union still has to append.
  function UnionFrom(cs: seq<ReadCond>, i: nat): string
    requires AllWellFormed(cs) && i <= |cs|
    decreases |cs| - i
  {
    if i == |cs| || QueryThrows(cs[i]) then "" else MemberPiece(cs[i], i == 0) + UnionFrom(cs, i + 1)
  }

  lemma {:induction false} UnionFromIs(cs: seq<ReadCond>, i: nat)
    requires AllWellFormed(cs) && !UnionThrows(cs) && i < |cs|
    ensures UnionFrom(cs, i) == Item(" UNION ", i, UnionOfText(MemberParts(cs)[i..]))
    decreases |cs| - i
  {
    var ps := MemberParts(cs);
    assert ps[i..][1..] == ps[i + 1..] && SelectText(ps[i]) == QueryText(cs[i]);
    Empty(MemberPiece(cs[i], i == 0));
    if i + 1 < |cs| {
      UnionFromIs(cs, i + 1);
      Separate(" UNION ", QueryText(cs[i]), " UNION ", UnionOfText(ps[i + 1..]));
    }
  }

  lemma {:induction false} UnionDone(cs: seq<ReadCond>)
    requires AllWellFormed(cs) && cs != [] && NoneThrows(cs, |cs|)
    ensures !UnionThrows(cs) && UnionFrom(cs, 0) == UnionText(cs)
  {
    UnionFromIs(cs, 0);
    assert MemberParts(cs)[0..] == MemberParts(cs);
  }

  class MakeQuerySql {
    var sql: string
    var appendRetFirst: bool
    var appendCondFirst: bool

    constructor ()
      ensures sql == "" && appendRetFirst && appendCondFirst
    {
      sql, appendRetFirst, appendCondFirst := "", true, true;
    }

    // One call of the member callback.
    method AppendColumn(c: Column)
      modifies this
      ensures sql == old(sql) + (if old(appendRetFirst) then ColumnText(c) else ", " + ColumnText(c))
      ensures !appendRetFirst && appendCondFirst == old(appendCondFirst)
    {
      if !appendRetFirst {
        sql := sql + ", ";
      } else {
        appendRetFirst := false;
      }
      ghost var before := sql;
      if c.table != "" {
        sql := sql + c.table + ".";
      }
      sql := sql + c.name;
      Assoc4(before, c.table, ".", c.name);
      Assoc3(old(sql), ", ", ColumnText(c));
    }

    method AppendColumns(cs: Columns)
      requires appendRetFirst && !cs.Star?
      modifies this
      ensures sql == old(sql) + ColumnsText(cs) && appendCondFirst == old(appendCondFirst)
    {
      match cs
      case CountOf(name) =>
        appendRetFirst := false;
        Assoc4(sql, "COUNT(", name, ")");
        sql := sql + "COUNT(" + name + ")";
      case Listed(columns) =>
        AppendList(columns);
    }

    method AppendList(cs: seq<Column>)
      requires appendRetFirst
      modifies this
      ensures sql == old(sql) + ColumnListText(cs) && appendCondFirst == old(appendCondFirst)
    {
      ghost var pieces := ColumnPieces(cs);
      ghost var goal := sql + From(pieces, 0);
      ColumnPiecesText(cs);
      var i := 0;
      while i < |cs|
        invariant 0 <= i <= |cs| && appendRetFirst == (i == 0)
        invariant sql + From(pieces, i) == goal
        invariant appendCondFirst == old(appendCondFirst)
      {
        ghost var before := sql;
        AppendColumn(cs[i]);
        Shift(before, pieces[i], From(pieces, i + 1), goal);
        i := i + 1;
      }
      Empty(sql);
    }

    // `ReadMemRef::append_cond`; false stands for the thrown exception.
    method AppendCond(n: Named) returns (ok: bool)
      modifies this
      ensures ok == !CondsThrow([n], old(appendCondFirst))
      ensures ok ==> sql == old(sql) + CondText(n, old(appendCondFirst)) && !appendCondFirst
      ensures appendRetFirst == old(appendRetFirst)
    {
      ok := true;
      match n.cond
      case And =>
        AppendConnective(" AND ");
        AppendPred(n, false);
        Assoc3(old(sql), if old(appendCondFirst) then "" else " AND ", PredText(n));
      case Or =>
        AppendConnective(" OR ");
        AppendPred(n, false);
        Assoc3(old(sql), if old(appendCondFirst) then "" else " OR ", PredText(n));
      case Not =>
        AppendConnective(" AND ");
        AppendPred(n, true);
        Assoc3(old(sql), if old(appendCondFirst) then "" else " AND ", PredText(n));
      case Group =>
        if appendCondFirst { return false; }
        Assoc3(sql, " GROUP BY ", n.col);
        sql := sql + " GROUP BY " + n.col;
      case OrderAsc =>
        if appendCondFirst { return false; }
        Assoc3(sql, " ORDER BY ", n.col);
        sql := sql + " ORDER BY " + n.col;
      case OrderDesc =>
        if appendCondFirst { return false; }
        Assoc4(sql, " ORDER BY ", n.col, " DESC ");
        sql := sql + " ORDER BY " + n.col + " DESC ";
    }

    method AppendConnective(text: string)
      modifies this
      ensures sql == old(sql) + (if old(appendCondFirst) then "" else text)
      ensures !appendCondFirst && appendRetFirst == old(appendRetFirst)
    {
      if appendCondFirst {
        appendCondFirst := false;
        Empty(sql);
      } else {
        sql := sql + text;
      }
    }

    method AppendPred(n: Named, negated: bool)
      requires negated == n.cond.Not?
      modifies this`sql
      ensures sql == old(sql) + PredText(n)
    {
      Assoc4(sql, n.col, OpsText(n.op, negated), "?");
      sql := sql + n.col + OpsText(n.op, negated) + "?";
    }

    // `append_cond` over one condition object.
    method AppendConds(ns: seq<Named>) returns (ok: bool)
      modifies this
      ensures ok == !CondsThrow(ns, old(appendCondFirst))
      ensures ok ==> sql == old(sql) + CondsText(ns, old(appendCondFirst))
      ensures ok ==> appendCondFirst == (old(appendCondFirst) && ns == [])
      ensures appendRetFirst == old(appendRetFirst)
    {
      ghost var first, pieces := appendCondFirst, CondPieces(ns, appendCondFirst);
      ghost var goal := sql + From(pieces, 0);
      CondPiecesFrom(ns, first, 0);
      var i := 0;
      while i < |ns|
        invariant 0 <= i <= |ns| && appendCondFirst == (first && i == 0)
        invariant i > 0 ==> !CondsThrow(ns, first)
        invariant sql + From(pieces, i) == goal
        invariant appendRetFirst == old(appendRetFirst)
      {
        ghost var before := sql;
        ok := AppendCond(ns[i]);
        if !ok { return; }
        Shift(before, pieces[i], From(pieces, i + 1), goal);
        i := i + 1;
      }
      Empty(sql);
      ok := true;
    }

    method AppendObject(c: ReadCond) returns (ok: bool)
      requires WellFormed(c) && HasCond(c)
      modifies this
      ensures ok == !(old(appendCondFirst) && ObjectThrows(c))
      ensures ok ==> sql == old(sql) + ObjectText(c, old(appendCondFirst)) && !appendCondFirst
    {
      assert NamedConds(c) != [];
      ok := AppendConds(NamedConds(c));
    }

    // The condition objects of a JOIN or COPY, one after the other without resetting the flag.
    method AppendObjects(cs: seq<ReadCond>) returns (ok: bool)
      requires AllConditional(cs) && appendCondFirst
      modifies this
      ensures ok == (cs != [] ==> !ObjectThrows(cs[0]))
      ensures ok ==> sql == old(sql) + AllCondsFrom(cs, 0)
    {
      ghost var goal := sql + AllCondsFrom(cs, 0);
      var i := 0;
      while i < |cs|
        invariant 0 <= i <= |cs| && appendCondFirst == (i == 0)
        invariant i > 0 ==> !ObjectThrows(cs[0])
        invariant sql + AllCondsFrom(cs, i) == goal
      {
        ghost var before, rest := sql, AllCondsFrom(cs, i + 1);
        ok := AppendObject(cs[i]);
        if !ok { return; }
        Shift(before, ObjectText(cs[i], i == 0), rest, goal);
        i := i + 1;
      }
      Empty(sql);
      ok := true;
    }

    method AppendAllConds(cs: seq<ReadCond>) returns (ok: bool)
      requires AllConditional(cs) && appendCondFirst
      modifies this
      ensures ok == !CondsThrow(AllConds(cs), true)
      ensures ok ==> sql == old(sql) + CondsText(AllConds(cs), true)
    {
      AllCondsText(cs);
      ok := AppendObjects(cs);
    }

    // The conditions of one object, if it has any.
    method AppendWhere(c: ReadCond) returns (ok: bool)
      requires WellFormed(c) && appendCondFirst
      modifies this
      ensures ok == !CondsThrow(NamedConds(c), true)
      ensures ok ==> sql == old(sql) + WhereText(NamedConds(c))
    {
      if !HasCond(c) {
        Empty(sql);
        return true;
      }
      ghost var before := sql;
      sql := sql + " WHERE ";
      ok := AppendConds(NamedConds(c));
      Assoc3(before, " WHERE ", CondsText(NamedConds(c), true));
    }

    /** `make(const ReadCond*)` */
    method Make(c: ReadCond) returns (r: Result<string>)
      requires WellFormed(c) && appendRetFirst && appendCondFirst
      modifies this
      ensures r.Thrown? == QueryThrows(c)
      ensures r.Ok? ==> r.value == sql == old(sql) + QueryText(c)
    {
      sql := sql + "SELECT ";
      if ReturnsWholeTable(c) {
        sql := sql + "*";
      } else {
        var cols := ReadColumns(c);
        if cols.Thrown? { return Thrown; }
        AppendColumns(cols.value);
      }
      var name := ObjName(c);
      if name.Thrown? { return Thrown; }
      sql := sql + " FROM " + name.value;
      ghost var head := HeadText(QueryColumns(c).value, name.value);
      SelectShape(old(sql), ColumnsText(QueryColumns(c).value), name.value);
      var ok := AppendWhere(c);
      if !ok { return Thrown; }
      Assoc3(old(sql), head, WhereText(NamedConds(c)));
      r := Ok(sql);
    }

    method MakeMember(c: ReadCond, first: bool) returns (ok: bool)
      requires WellFormed(c)
      modifies this
      ensures ok == !QueryThrows(c)
      ensures ok ==> sql == old(sql) + MemberPiece(c, first)
    {
      if !first { sql := sql + " UNION "; }
      appendRetFirst, appendCondFirst := true, true;
      var one := Make(c);
      if one.Ok? { Assoc3(old(sql), " UNION ", QueryText(c)); }
      ok := one.Ok?;
    }

    /** `make(const std::list<ReadCond*>&)`: the flags are reset before every member. */
    method MakeUnion(cs: seq<ReadCond>) returns (r: Result<string>)
      requires AllWellFormed(cs)
      modifies this
      ensures r.Thrown? == UnionThrows(cs)
      ensures r.Ok? ==> r.value == sql == old(sql) + UnionText(cs)
    {
      if |cs| == 0 { return Thrown; }
      ghost var goal := sql + UnionFrom(cs, 0);
      var i := 0;
      while i < |cs|
        invariant 0 <= i <= |cs| && NoneThrows(cs, i)
        invariant sql + UnionFrom(cs, i) == goal
      {
        ghost var before := sql;
        var ok := MakeMember(cs[i], i == 0);
        if !ok { return Thrown; }
        Shift(before, MemberPiece(cs[i], i == 0), UnionFrom(cs, i + 1), goal);
        i := i + 1;
      }
      UnionDone(cs);
      Empty(sql);
      r := Ok(sql);
    }

    // One table of `left_join`.
    method AppendTable(j: JoinCond, first: bool)
      modifies this`sql
      ensures sql == old(sql) + TablePiece(j, first)
    {
      if first {
        sql := sql + " FROM " + j.table.name;
      } else {
        sql := sql + " LEFT JOIN " + j.table.name + " ON ";
      }
      AppendEquals(j.equals);
      TableShape(old(sql), j.table.name, BridgesText(j.equals));
    }

    method AppendTables(js: seq<JoinCond>)
      modifies this`sql
      ensures sql == old(sql) + TablesFrom(js, 0)
    {
      hide TablePiece;
      ghost var goal := sql + TablesFrom(js, 0);
      var count := 0;
      while count < |js|
        invariant 0 <= count <= |js| && sql + TablesFrom(js, count) == goal
      {
        ghost var before := sql;
        AppendTable(js[count], count == 0);
        Shift(before, TablePiece(js[count], count == 0), TablesFrom(js, count + 1), goal);
        count := count + 1;
      }
      Empty(sql);
    }

    // `left_join`
    method LeftJoin(js: seq<JoinCond>, cs: seq<ReadCond>) returns (ok: bool)
      requires js != [] && AllConditional(cs) && appendCondFirst
      modifies this
      ensures ok == !CondsThrow(AllConds(cs), true)
      ensures ok ==> sql == old(sql) + (TablesText(js) + WhereText(AllConds(cs)))
    {
      TablesTextIs(js);
      AppendTables(js);
      ghost var before := sql;
      if |cs| > 0 {
        sql := sql + " WHERE ";
        AllCondsNonEmpty(cs);
      }
      ok := AppendAllConds(cs);
      Assoc3(before, " WHERE ", CondsText(AllConds(cs), true));
      Empty(before);
      Assoc3(old(sql), TablesText(js), WhereText(AllConds(cs)));
    }

    method AppendEquals(bs: seq<Bridge>)
      modifies this`sql
      ensures sql == old(sql) + BridgesText(bs)
    {
      ghost var pieces := BridgePieces(bs);
      ghost var goal := sql + From(pieces, 0);
      BridgePiecesText(bs);
      var c := 0;
      while c < |bs|
        invariant 0 <= c <= |bs|
        invariant sql + From(pieces, c) == goal
      {
        ghost var before := sql;
        if c > 0 { sql := sql + " AND "; }
        sql := sql + BridgeText(bs[c]);
        Assoc3(before, " AND ", BridgeText(bs[c]));
        Shift(before, pieces[c], From(pieces, c + 1), goal);
        c := c + 1;
      }
      Empty(sql);
    }

    /** `make(const ReadCond*, const std::list<JoinReadCond*>&, const std::list<ReadCond*>&)` */
    method MakeJoin(ret: Ret, js: seq<JoinCond>, cs: seq<ReadCond>) returns (r: Result<string>)
      requires AllConditional(cs) && appendRetFirst && appendCondFirst
      modifies this
      ensures r.Thrown? == JoinThrows(ret, js, cs)
      ensures r.Ok? ==> r.value == sql == old(sql) + JoinText(ret, js, cs)
    {
      if |js| == 0 { return Thrown; }
      sql := sql + "SELECT ";
      var cols := RetColumns(ret);
      if cols.Thrown? { return Thrown; }
      AppendColumns(cols.value);
      var ok := LeftJoin(js, cs);
      if !ok { return Thrown; }
      JoinShape(old(sql), ColumnsText(cols.value), js[0].table.name, BridgesText(js[0].equals),
                JoinsText(js[1..]), WhereText(AllConds(cs)));
      r := Ok(sql);
    }

    /** `make(const std::list<JoinReadCond*>&, const ReadCond*, const std::list<ReadCond*>&)`: the
        column list is built once and printed twice. */
    method MakeCopy(froms: seq<JoinCond>, into: Ret, cs: seq<ReadCond>) returns (r: Result<string>)
      requires AllConditional(cs) && sql == "" && appendRetFirst && appendCondFirst
      modifies this
      ensures r.Thrown? == CopyThrows(froms, into, cs)
      ensures r.Ok? ==> r.value == sql == CopyText(froms, into, cs)
    {
      if |froms| != 1 { return Thrown; }
      var name := froms[0].table.name;
      var cols := RetColumns(into);
      if cols.Thrown? { return Thrown; }
      var text := "INSERT INTO " + into.table.name;
      AppendColumns(cols.value);
      assert sql == ColumnsText(cols.value);
      text := text + " (" + sql + ") SELECT " + sql;
      sql := text + " FROM " + name;
      CopyShape(into.table.name, ColumnsText(cols.value), name);
      ghost var p := Parts(cols.value, name, AllConds(cs));
      assert sql == IntoText(into.table.name, cols.value) + HeadText(cols.value, name);
      if |cs| == 0 {
        assert AllConds(cs) == [];
        assert sql == IntoText(into.table.name, cols.value) + SelectText(p);
        return Ok(sql);
      }
      AllCondsNonEmpty(cs);
      sql := sql + " WHERE ";
      var ok := AppendAllConds(cs);
      if !ok { return Thrown; }
      WhereShape(IntoText(into.table.name, cols.value), HeadText(cols.value, name), CondsText(AllConds(cs), true));
      r := Ok(sql);
    }

    /** `MakeDeleteSql::make` */
    method MakeDelete(c: ReadCond) returns (r: Result<string>)
      requires WellFormed(c) && appendCondFirst
      modifies this
      ensures r.Thrown? == DeleteThrows(c)
      ensures r.Ok? ==> r.value == sql == old(sql) + DeleteText(c)
    {
      var name := ObjName(c);
      if name.Thrown? { return Thrown; }
      sql := sql + "DELETE FROM " + name.value;
      var ok := AppendWhere(c);
      if !ok { return Thrown; }
      Assoc4(old(sql), "DELETE FROM ", name.value, WhereText(NamedConds(c)));
      r := Ok(sql);
    }
  }

  lemma SelectShape(s: string, cols: string, from: string)
    ensures s + "SELECT " + cols + " FROM " + from == s + ("SELECT " + cols + " FROM " + from)
  {
  }

  lemma JoinShape(s: string, cols: string, t: string, es: string, js: string, w: string)
    ensures s + "SELECT " + cols + ((" FROM " + t + es + js) + w)
         == s + ("SELECT " + cols + " FROM " + t + es + js + w)
  {
  }

  lemma CopyShape(into: string, cols: string, from: string)
    ensures "INSERT INTO " + into + " (" + cols + ") SELECT " + cols + " FROM " + from
         == "INSERT INTO " + into + " (" + cols + ") " + ("SELECT " + cols + " FROM " + from)
  {
    assert ") SELECT " == ") " + "SELECT ";
  }

  lemma WhereShape(a: string, b: string, c: string)
    ensures a + b + " WHERE " + c == a + (b + (" WHERE " + c))
  {
  }

  // A text put together entry by entry, where only the first entry may be printed as first.
  function Fold(text: (Named, bool) -> string, ns: seq<Named>, first: bool): string {
    if ns == [] then "" else text(ns[0], first) + Fold(text, ns[1..], false)
  }

  lemma {:induction false} FoldAppend(text: (Named, bool) -> string, a: seq<Named>, b: seq<Named>, first: bool)
    ensures Fold(text, a + b, first) == Fold(text, a, first) + Fold(text, b, first && a == [])
  {
    if a == [] {
      assert a + b == b;
      Empty(Fold(text, b, first));
    } else {
      assert (a + b)[1..] == a[1..] + b && (a + b)[0] == a[0];
      FoldAppend(text, a[1..], b, false);
      Assoc3(text(a[0], first), Fold(text, a[1..], false), Fold(text, b, false));
    }
  }

  lemma {:induction false} CondsTextIsFold(ns: seq<Named>, first: bool)
    ensures CondsText(ns, first) == Fold(CondText, ns, first)
  {
    if ns != [] { CondsTextIsFold(ns[1..], false); }
  }

  lemma {:induction false} CondsTextAppend(a: seq<Named>, b: seq<Named>, first: bool)
    ensures CondsText(a + b, first) == CondsText(a, first) + CondsText(b, first && a == [])
  {
    CondsTextIsFold(a + b, first);
    CondsTextIsFold(a, first);
    CondsTextIsFold(b, first && a == []);
    FoldAppend(CondText, a, b, first);
  }

  lemma {:induction false} AllCondsNonEmpty(cs: seq<ReadCond>)
    requires AllConditional(cs) && cs != []
    ensures AllConds(cs) != []
  {
    assert |NamedConds(cs[0])| > 0;
  }

  class MakeUpdateSql {
    var fields: string
    var appendFirst: bool
    const query: MakeQuerySql

    constructor ()
      ensures fields == "" && appendFirst && fresh(query)
      ensures query.sql == "" && query.appendRetFirst && query.appendCondFirst
    {
      fields, appendFirst := "", true;
      query := new MakeQuerySql();
    }

    // `ReadFieldMemRef::append`
    method AppendField(name: string)
      modifies this
      ensures fields == old(fields) + (if old(appendFirst) then name + " = ?" else ", " + (name + " = ?"))
      ensures !appendFirst
    {
      if !appendFirst {
        fields := fields + ", ";
      } else {
        appendFirst := false;
      }
      Assoc3(fields, name, " = ?");
      fields := fields + name + " = ?";
      Assoc3(old(fields), ", ", name + " = ?");
    }

    // `append_value`: the SET list; false stands for the thrown exception.
    method AppendValues(t: Table, seqs: seq<nat>) returns (ok: bool)
      requires appendFirst && forall i :: 0 <= i < |seqs| ==> seqs[i] < |t.members|
      modifies this
      ensures ok == (seqs != [] && AllScalar(t, seqs))
      ensures ok ==> fields == old(fields) + SetsText(SetNames(t, seqs))
    {
      if |seqs| == 0 { return false; }
      ghost var pieces := SetPieces(SetNames(t, seqs));
      ghost var goal := fields + From(pieces, 0);
      SetPiecesText(SetNames(t, seqs));
      var i := 0;
      while i < |seqs|
        invariant 0 <= i <= |seqs| && appendFirst == (i == 0)
        invariant fields + From(pieces, i) == goal
        invariant forall k :: 0 <= k < i ==> IsScalar(t.members[seqs[k]].ytype)
      {
        if !IsScalar(t.members[seqs[i]].ytype) { return false; }
        ghost var before := fields;
        AppendField(t.members[seqs[i]].name);
        Shift(before, pieces[i], From(pieces, i + 1), goal);
        i := i + 1;
      }
      Empty(fields);
      ok := true;
    }

    /** `MakeUpdateSql::make` */
    method Make(u: UpdateCond) returns (r: Result<string>)
      requires WellFormedUpdate(u) && fields == "" && appendFirst
      requires query.appendCondFirst
      modifies this, query
      ensures r.Thrown? == UpdateThrows(u)
      ensures r.Ok? ==> r.value == UpdateText(u)
    {
      var t := u.cond.ret.table;
      fields := fields + "UPDATE " + t.name + " SET ";
      Empty("UPDATE ");
      var ok := AppendValues(t, u.seqs);
      if !ok { return Thrown; }
      ghost var head := fields;
      if !HasCond(u.cond) {
        Empty(fields);
        return Ok(fields);
      }
      query.sql := fields + " WHERE ";
      ok := query.AppendConds(NamedConds(u.cond));
      if !ok { return Thrown; }
      Assoc3(head, " WHERE ", CondsText(NamedConds(u.cond), true));
      r := Ok(query.sql);
    }
  }
}
