/**
 Building an object: assignments and comparisons on the members of a struct and of the structs
 nested in it.  A nested struct reports to its parent through two callbacks.
 */
module YanObject {
  import opened YanTypes
  import QueryModel
  import ParamKey
  import StrOps

  // A member as the macros generate it: its value, whether it was set, and the pending condition.
  datatype Cell = Cell(name: string, ytype: YanType, value: Option<Value>, flag: bool, cond: Option<CondType>)

  // A comparison; `path` holds the member names from the root to the member compared.
  datatype Entry = Entry(path: seq<string>, ytype: YanType, cond: CondType, op: OpsType, field: nat, value: Value)

  // The name of a parameter: each struct on the way up puts its own name and a dot in front.
  function Dotted(path: seq<string>): string {
    if path == [] then "" else if |path| == 1 then path[0] else path[0] + "." + Dotted(path[1..])
  }

  // The `uint16_t` that holds operator and condition, as its two bytes.
  function CondBytes(e: Entry): string {
    [ParamKey.Byte(OpsCode(e.op)), ParamKey.Byte(CondCode(e.cond))]
  }

  // The seq of the member as its two bytes.
  function FieldBytes(e: Entry): string
    requires e.field < 0x1_0000
  {
    [ParamKey.Byte(e.field % 256), ParamKey.Byte(e.field / 256)]
  }

  /** What a comparison adds to the key of the root: the seq when it is on a member of the root, the
      dotted name when it is on a nested one. */
  function EntryKey(e: Entry): string
    requires e.field < 0x1_0000
  {
    (if |e.path| == 1 then FieldBytes(e) else Dotted(e.path)) + CondBytes(e)
  }

  predicate SmallEntries(es: seq<Entry>) {
    forall i :: 0 <= i < |es| ==> es[i].field < 0x1_0000
  }

  function EntriesKey(es: seq<Entry>): string
    requires SmallEntries(es)
  {
    if es == [] then "" else EntriesKey(es[..|es| - 1]) + EntryKey(es[|es| - 1])
  }

  class YanObject {
    const parent: YanObject?
    const at: nat               // of this struct among the members of the parent
    const name: string           // of this struct in the parent
    ghost const depth: nat
    var cells: seq<Cell>
    var seqset: set<nat>
    var conds: seq<Entry>
    var hashv: string
    // The members assigned, those fetched into, and those assigned before they had a value.
    ghost var written: set<nat>
    ghost var fetched: set<nat>
    ghost var touched: set<nat>

    ghost predicate Linked()
      decreases depth
    {
      parent != null ==> parent.depth + 1 == depth && parent.Linked()
    }

    constructor Root(cells: seq<Cell>)
      requires Fresh(cells)
      ensures parent == null && Linked() && this.cells == cells && Empty()
    {
      parent, at, name, depth := null, 0, "", 0;
      this.cells := cells;
      seqset, conds, hashv := {}, [], "";
      written, fetched, touched := {}, {}, {};
    }

    // A struct member: its callbacks lead to `parent`.
    constructor Nested(parent: YanObject, at: nat, name: string, cells: seq<Cell>)
      requires parent.Linked() && Fresh(cells)
      ensures this.parent == parent && this.at == at && this.name == name && Linked()
      ensures this.cells == cells && Empty()
    {
      this.parent, this.at, this.name, depth := parent, at, name, parent.depth + 1;
      this.cells := cells;
      seqset, conds, hashv := {}, [], "";
      written, fetched, touched := {}, {}, {};
    }

    ghost predicate Empty()
      reads this
    {
      seqset == written == fetched == touched == {} && conds == [] && hashv == "" && Flags()
    }

    // A member has a value when it was assigned or fetched.
    ghost predicate Flags()
      reads this`cells, this`written, this`fetched, this`touched
    {
      && (forall s :: 0 <= s < |cells| ==> (cells[s].flag <==> s in touched + fetched))
      && touched <= written <= touched + fetched
    }

    // The key says what the parameters are.
    ghost predicate KeyMatches()
      reads this`conds, this`hashv
    {
      SmallEntries(conds) && hashv == EntriesKey(conds)
    }

    // This object and all it reports to.
    ghost function Chain(): set<YanObject>
      requires Linked()
      decreases depth
    {
      if parent == null then {this} else {this} + parent.Chain()
    }

    ghost function Top(): YanObject
      requires Linked()
      decreases depth
    {
      if parent == null then this else parent.Top()
    }

    // The names from the root to a member of this struct.
    function Path(member: string): seq<string>
      requires Linked()
      decreases depth
    {
      if parent == null then [member] else parent.Path(name) + [member]
    }

    /******* Assignment *******/

    // `append(seq)`: the member is dirty, and so is this struct in its parent, and so on.
    method AppendSeq(s: nat, ghost tree: set<YanObject>)
      requires Closed(tree) && this in tree
      modifies Chain()`seqset
      ensures seqset == old(seqset) + {s}
      ensures forall c :: c in tree && c in Chain() && c.parent != null ==>
                c.parent.seqset == old(c.parent.seqset) + {c.at}
      decreases depth
    {
      seqset := seqset + {s};
      if parent != null {
        ChainDepth(parent, depth);
        parent.AppendSeq(at, tree);
      }
    }

    // `operator=`: false stands for the thrown exception.
    method Assign(s: nat, v: Value, ghost tree: set<YanObject>) returns (ok: bool)
      requires Closed(tree) && this in tree && s < |cells|
      modifies this`cells, this`written, this`touched, Chain()`seqset
      ensures old(Flags()) ==> Flags()
      ensures fetched == old(fetched) && written == if ok then old(written) + {s} else old(written)
      ensures ok == old(cells[s].cond.None? && !cells[s].ytype.AutoIncrement?)
      ensures cells == if ok then old(cells)[s := old(cells[s]).(value := Some(v), flag := true)] else old(cells)
      ensures touched == if ok && !old(cells[s]).flag then old(touched) + {s} else old(touched)
      ensures if ok && !old(cells[s]).flag then
                && seqset == old(seqset) + {s}
                && (forall c :: c in tree && c in Chain() && c.parent != null ==>
                      c.parent.seqset == old(c.parent.seqset) + {c.at})
              else forall c :: c in tree ==> c.seqset == old(c.seqset)
    {
      if cells[s].cond.Some? { return false; }
      if cells[s].ytype.AutoIncrement? { return false; }
      var first := !cells[s].flag;
      cells := cells[s := cells[s].(value := Some(v))];
      if first {
        AppendSeq(s, tree);
        cells := cells[s := cells[s].(flag := true)];
        touched := touched + {s};
      }
      written := written + {s};
      ok := true;
    }

    // `YanMember::set_value`, as fetching a result does: the flag is set, nothing is made dirty.
    method SetValue(s: nat, v: Value)
      requires s < |cells|
      modifies this`cells, this`fetched
      ensures cells == old(cells)[s := old(cells[s]).(value := Some(v), flag := true)]
      ensures fetched == old(fetched) + {s} && (old(Flags()) ==> Flags())
    {
      cells := cells[s := cells[s].(value := Some(v), flag := true)];
      fetched := fetched + {s};
    }

    /** A member that was fetched is never dirty: a later assignment changes its value only, and an
        update of the object leaves it out. */
    method FetchThenAssign(s: nat, fetched: Value, v: Value, ghost tree: set<YanObject>) returns (ok: bool)
      requires Closed(tree) && this in tree && s < |cells|
      modifies this`cells, this`written, this`fetched, this`touched, Chain()`seqset
      ensures forall c :: c in tree ==> c.seqset == old(c.seqset)
      ensures |cells| == old(|cells|) && (ok ==> cells[s].value == Some(v))
    {
      SetValue(s, fetched);
      ok := Assign(s, v, tree);
    }

    /******* Comparison *******/

    // `AND()`, `OR()` and `NOT()`
    method Mark(s: nat, c: CondType)
      requires s < |cells| && IsLogical(c)
      modifies this`cells
      ensures cells == old(cells)[s := old(cells[s]).(cond := Some(c))] && (old(Flags()) ==> Flags())
    {
      cells := cells[s := cells[s].(cond := Some(c))];
    }

    // `condcb_` and `append(shared_ptr)`: a nested parameter takes one prefix a level.
    method AppendNested(e: Entry)
      requires Linked() && e.field < 0x1_0000 && |e.path| > 1
      modifies Top()`conds, Top()`hashv
      ensures var full := if parent == null then e else e.(path := parent.Path(name) + e.path);
              Top().conds == old(Top().conds) + [full] && Top().hashv == old(Top().hashv) + EntryKey(full)
      decreases depth
    {
      if parent != null {
        parent.AppendNested(e.(path := [name] + e.path));
        if parent.parent != null {
          assert parent.parent.Path(parent.name) + ([name] + e.path) == parent.Path(name) + e.path;
        }
      } else {
        conds := conds + [e];
        hashv := hashv + (Dotted(e.path) + CondBytes(e));
      }
    }

    // `append(name, type, cond, seq, value)`
    method AppendParam(e: Entry)
      requires Linked() && e.field < 0x1_0000 && |e.path| == 1
      modifies Top()`conds, Top()`hashv
      ensures var full := e.(path := Path(e.path[0]));
              Top().conds == old(Top().conds) + [full] && Top().hashv == old(Top().hashv) + EntryKey(full)
    {
      if parent != null {
        parent.AppendNested(e.(path := [name] + e.path));
        assert e.path == [e.path[0]];
        if parent.parent == null {
          assert [name] + e.path == Path(e.path[0]);
        } else {
          assert parent.parent.Path(parent.name) + ([name] + e.path) == Path(e.path[0]);
        }
      } else {
        conds := conds + [e];
        hashv := hashv + (FieldBytes(e) + CondBytes(e));
        assert e.path == Path(e.path[0]);
      }
    }

    // `__SET_MEM_COND_TYPE__`, behind every comparison operator.
    method Compare(s: nat, op: OpsType, v: Value) returns (ok: bool)
      requires Linked() && s < |cells| && s < 0x1_0000
      modifies this`cells, Top()`conds, Top()`hashv
      ensures ok == old(cells[s]).cond.Some? && (old(Flags()) ==> Flags())
      ensures !ok ==> cells == old(cells) && Top().conds == old(Top().conds) && Top().hashv == old(Top().hashv)
      ensures ok ==> cells == old(cells)[s := old(cells[s]).(cond := None)]
      ensures ok ==>
        var e := Entry(Path(cells[s].name), cells[s].ytype, old(cells[s]).cond.value, op, s, v);
        Top().conds == old(Top().conds) + [e] && Top().hashv == old(Top().hashv) + EntryKey(e)
    {
      if cells[s].cond.None? { return false; }
      AppendParam(Entry([cells[s].name], cells[s].ytype, cells[s].cond.value, op, s, v));
      cells := cells[s := cells[s].(cond := None)];
      ok := true;
    }

    /** `GROUP()`, `ORDER_ASC()` and `ORDER_DESC()`: condition and parameter at once, with the default
        value of the type; a condition that was pending is forgotten. */
    method Arrange(s: nat, c: CondType)
      requires Linked() && s < |cells| && s < 0x1_0000 && !IsLogical(c)
      modifies this`cells, Top()`conds, Top()`hashv
      ensures old(Flags()) ==> Flags()
      ensures cells == old(cells)[s := old(cells[s]).(cond := None)]
      ensures var e := Entry(Path(cells[s].name), cells[s].ytype, c, Equal, s, DefaultOf(cells[s].ytype));
              Top().conds == old(Top().conds) + [e] && Top().hashv == old(Top().hashv) + EntryKey(e)
      ensures DefaultOf(cells[s].ytype) == if cells[s].ytype in {String, Text, Blob} then StrVal("") else IntVal(0)
    {
      cells := cells[s := cells[s].(cond := Some(c))];
      var ok := Compare(s, Equal, DefaultOf(cells[s].ytype));
      assert ok;
    }
  }

  // `TYPE{}`
  function DefaultOf(t: YanType): Value {
    if TextType(t) then StrVal("") else IntVal(0)
  }

  // A set of structs with all they report to.
  ghost predicate Closed(tree: set<YanObject>) {
    forall o :: o in tree ==> o.Linked() && (o.parent != null ==> o.parent in tree)
  }

  predicate Fresh(cells: seq<Cell>) {
    forall i :: 0 <= i < |cells| ==> !cells[i].flag && cells[i].cond.None?
  }

  // All that an object reports to is less deep, and there is one at each depth.
  lemma {:induction false} ChainDepth(o: YanObject, depth: nat)
    requires o.Linked() && o.depth < depth
    ensures forall c :: c in o.Chain() ==> c.depth < depth
    decreases o.depth
  {
    if o.parent != null { ChainDepth(o.parent, o.depth); }
  }

  /******* A tree of structs *******/

  // `d` is at or below member s of `o`.
  ghost predicate Beneath(d: YanObject, c: YanObject, o: YanObject, s: nat)
    requires d.Linked()
  {
    c in d.Chain() && c.parent == o && c.at == s
  }

  // A set of members for every struct of a tree.
  type Sets = map<YanObject, set<nat>>

  ghost function Dirty(tree: set<YanObject>): Sets
    reads tree`seqset
  {
    map o | o in tree :: o.seqset
  }

  ghost function Touched(tree: set<YanObject>): Sets
    reads tree`touched
  {
    map o | o in tree :: o.touched
  }

  // A member of some struct below member s of `o` was assigned.
  ghost predicate AssignedBeneath(tree: set<YanObject>, touched: Sets, o: YanObject, s: nat)
    requires Closed(tree) && touched.Keys == tree
  {
    exists c, d :: c in tree && d in tree && Beneath(d, c, o, s) && touched[d] != {}
  }

  /** The dirty set of every struct holds exactly the members that were assigned or have something
      assigned beneath them. */
  ghost predicate Exact(tree: set<YanObject>, dirty: Sets, touched: Sets)
    requires Closed(tree) && dirty.Keys == touched.Keys == tree
  {
    forall o, s: nat :: o in tree ==> (s in dirty[o] <==> s in touched[o] || AssignedBeneath(tree, touched, o, s))
  }

  ghost predicate DirtyExact(tree: set<YanObject>)
    requires Closed(tree)
    reads tree`seqset, tree`touched
  {
    Exact(tree, Dirty(tree), Touched(tree))
  }

  // An ancestor is the parent of something on the chain.
  lemma {:induction false} ChainChild(o: YanObject, a: YanObject) returns (c: YanObject)
    requires o.Linked() && a in o.Chain() && a != o
    ensures c in o.Chain() && c.parent == a
    decreases o.depth
  {
    if a == o.parent { c := o; } else { c := ChainChild(o.parent, a); }
  }

  lemma {:induction false} ChainInTree(tree: set<YanObject>, o: YanObject)
    requires Closed(tree) && o in tree
    ensures o.Chain() <= tree && o in o.Chain()
    decreases o.depth
  {
    if o.parent != null { ChainInTree(tree, o.parent); }
  }

  // A first assignment to member s of `o`: the sets before and after.
  ghost predicate Climbed(tree: set<YanObject>, o: YanObject, s: nat, was: Sets, now: Sets, had: Sets, has: Sets)
    requires Closed(tree) && o in tree && was.Keys == now.Keys == had.Keys == has.Keys == tree
  {
    && now[o] == was[o] + {s} && has[o] == had[o] + {s}
    && (forall c :: c in tree && c in o.Chain() && c.parent != null ==> now[c.parent] == was[c.parent] + {c.at})
    && (forall c :: c in tree && c != o ==> has[c] == had[c])
    && (forall c :: c in tree && c !in o.Chain() ==> now[c] == was[c])
  }

  lemma ClimbSound(tree: set<YanObject>, o: YanObject, s: nat, was: Sets, now: Sets, had: Sets, has: Sets, a: YanObject, t: nat)
    requires Closed(tree) && o in tree && was.Keys == now.Keys == had.Keys == has.Keys == tree
    requires Exact(tree, was, had) && Climbed(tree, o, s, was, now, had, has) && a in tree && t in now[a]
    ensures t in has[a] || AssignedBeneath(tree, has, a, t)
  {
    ChainInTree(tree, o);
    if t in was[a] {
      if t !in had[a] {
        var c, d :| c in tree && d in tree && Beneath(d, c, a, t) && had[d] != {};
        assert has[d] != {};
      }
    } else if a in o.Chain() && a != o {
      var c := ChainChild(o, a);
      assert Beneath(o, c, a, t) && has[o] != {};
    }
  }

  lemma ClimbComplete(tree: set<YanObject>, o: YanObject, s: nat, was: Sets, now: Sets, had: Sets, has: Sets, a: YanObject, t: nat)
    requires Closed(tree) && o in tree && was.Keys == now.Keys == had.Keys == has.Keys == tree
    requires Exact(tree, was, had) && Climbed(tree, o, s, was, now, had, has) && a in tree
    requires t in has[a] || AssignedBeneath(tree, has, a, t)
    ensures t in now[a]
  {
    ChainInTree(tree, o);
    if a in o.Chain() && a != o { var c := ChainChild(o, a); }
    assert was[a] <= now[a];
    if AssignedBeneath(tree, has, a, t) {
      var c, d :| c in tree && d in tree && Beneath(d, c, a, t) && has[d] != {};
      if had[d] != {} { assert AssignedBeneath(tree, had, a, t); }
    }
  }

  /** An assignment that climbs to the root keeps every dirty set exact. */
  lemma ClimbKeepsExact(tree: set<YanObject>, o: YanObject, s: nat, was: Sets, now: Sets, had: Sets, has: Sets)
    requires Closed(tree) && o in tree && was.Keys == now.Keys == had.Keys == has.Keys == tree
    requires Exact(tree, was, had) && Climbed(tree, o, s, was, now, had, has)
    ensures Exact(tree, now, has)
  {
    forall a, t: nat | a in tree && t in now[a] ensures t in has[a] || AssignedBeneath(tree, has, a, t) {
      ClimbSound(tree, o, s, was, now, had, has, a, t);
    }
    forall a, t: nat | a in tree && (t in has[a] || AssignedBeneath(tree, has, a, t)) ensures t in now[a] {
      ClimbComplete(tree, o, s, was, now, had, has, a, t);
    }
  }

  /******* Any sequence of operations *******/

  // One call on a member of some struct of the tree.
  datatype Call =
    | Assigning(o: YanObject, s: nat, v: Value)
    | Fetching(o: YanObject, s: nat, v: Value)
    | Marking(o: YanObject, s: nat, c: CondType)
    | Comparing(o: YanObject, s: nat, op: OpsType, v: Value)
    | Arranging(o: YanObject, s: nat, c: CondType)

  ghost predicate CallFits(tree: set<YanObject>, call: Call)
    reads tree`cells
  {
    call.o in tree && call.s < |call.o.cells| && call.s < 0x1_0000 && (call.Marking? ==> IsLogical(call.c))
    && (call.Arranging? ==> !IsLogical(call.c))
  }

  // All structs of the tree report to `root`, which collects the parameters.
  ghost predicate OneRoot(tree: set<YanObject>, root: YanObject)
    requires Closed(tree)
  {
    root in tree && forall o :: o in tree ==> o.Top() == root
  }

  ghost predicate TreeValid(tree: set<YanObject>, root: YanObject)
    reads tree
  {
    Closed(tree) && OneRoot(tree, root) && DirtyExact(tree) && root.KeyMatches() && forall o :: o in tree ==> o.Flags()
  }

  lemma {:induction false} EntriesKeySnoc(es: seq<Entry>, e: Entry)
    requires SmallEntries(es) && e.field < 0x1_0000
    ensures SmallEntries(es + [e]) && EntriesKey(es + [e]) == EntriesKey(es) + EntryKey(e)
  {
    assert (es + [e])[..|es|] == es;
  }

  method PerformAssign(o: YanObject, s: nat, v: Value, ghost tree: set<YanObject>, ghost root: YanObject) returns (ok: bool)
    requires TreeValid(tree, root) && CallFits(tree, Assigning(o, s, v))
    modifies tree`cells, tree`written, tree`touched, tree`seqset
    ensures TreeValid(tree, root)
    ensures forall p :: p in tree ==> |p.cells| == old(|p.cells|)
  {
    hide Exact, OneRoot, SmallEntries, EntriesKey;
    ghost var was, had, first := Dirty(tree), Touched(tree), !o.cells[s].flag;
    ChainInTree(tree, o);
    ok := o.Assign(s, v, tree);
    ghost var now, has := Dirty(tree), Touched(tree);
    if ok && first {
      assert now[o] == was[o] + {s} && has[o] == had[o] + {s};
      assert forall c :: c in tree && c !in o.Chain() ==> now[c] == was[c];
      ClimbKeepsExact(tree, o, s, was, now, had, has);
    } else {
      assert now == was && has == had;
    }
  }

  method PerformCompare(o: YanObject, s: nat, op: OpsType, v: Value, ghost tree: set<YanObject>, ghost root: YanObject) returns (ok: bool)
    requires TreeValid(tree, root) && CallFits(tree, Comparing(o, s, op, v))
    modifies tree`cells, root`conds, root`hashv
    ensures TreeValid(tree, root)
    ensures |root.conds| == old(|root.conds|) + (if ok then 1 else 0)
    ensures forall p :: p in tree ==> |p.cells| == old(|p.cells|)
  {
    ghost var conds := root.conds;
    assert o.Top() == root;
    ok := o.Compare(s, op, v);
    if ok { EntriesKeySnoc(conds, root.conds[|conds|]); }
  }

  method PerformArrange(o: YanObject, s: nat, c: CondType, ghost tree: set<YanObject>, ghost root: YanObject)
    requires TreeValid(tree, root) && CallFits(tree, Arranging(o, s, c))
    modifies tree`cells, root`conds, root`hashv
    ensures TreeValid(tree, root) && |root.conds| == old(|root.conds|) + 1
    ensures forall p :: p in tree ==> |p.cells| == old(|p.cells|)
  {
    ghost var conds := root.conds;
    assert o.Top() == root;
    o.Arrange(s, c);
    EntriesKeySnoc(conds, root.conds[|conds|]);
  }

  // A call that gives the root a parameter, provided it does not throw.
  predicate AddsParameter(call: Call) {
    call.Comparing? || call.Arranging?
  }

  /** Any one call keeps the tree valid; a completed comparison, a GROUP or an ORDER adds one parameter
      to the root, and nothing else adds any. */
  method Perform(call: Call, ghost tree: set<YanObject>, ghost root: YanObject) returns (ok: bool)
    requires TreeValid(tree, root) && CallFits(tree, call)
    modifies tree
    ensures TreeValid(tree, root)
    ensures |root.conds| == old(|root.conds|) + (if AddsParameter(call) && ok then 1 else 0)
    ensures call.Arranging? ==> ok
    ensures forall o :: o in tree ==> |o.cells| == old(|o.cells|)
  {
    match call
    case Assigning(o, s, v) => ok := PerformAssign(o, s, v, tree, root);
    case Comparing(o, s, op, v) => ok := PerformCompare(o, s, op, v, tree, root);
    case Fetching(o, s, v) =>
      o.SetValue(s, v);
      ok := true;
    case Marking(o, s, c) =>
      o.Mark(s, c);
      ok := true;
    case Arranging(o, s, c) =>
      PerformArrange(o, s, c, tree, root);
      ok := true;
  }

  // How many of some calls gave the root a parameter.
  function Added(calls: seq<Call>, oks: seq<bool>): nat
    requires |calls| == |oks|
  {
    if calls == [] then 0
    else Added(calls[..|calls| - 1], oks[..|calls| - 1])
         + (if AddsParameter(calls[|calls| - 1]) && oks[|calls| - 1] then 1 else 0)
  }

  /** After any sequence of calls on a tree that starts empty, the dirty sets are exact, the key is
      that of the parameters, and there is one parameter for each GROUP, each ORDER and each comparison
      that did not throw. */
  method PerformAll(calls: seq<Call>, ghost tree: set<YanObject>, ghost root: YanObject) returns (oks: seq<bool>)
    requires TreeValid(tree, root) && root.conds == [] && forall i :: 0 <= i < |calls| ==> CallFits(tree, calls[i])
    modifies tree
    ensures TreeValid(tree, root)
    ensures |oks| == |calls| && |root.conds| == Added(calls, oks)
  {
    hide TreeValid;
    oks := [];
    var i := 0;
    while i < |calls|
      invariant 0 <= i <= |calls| && |oks| == i
      invariant TreeValid(tree, root) && forall k :: i <= k < |calls| ==> CallFits(tree, calls[k])
      invariant |root.conds| == Added(calls[..i], oks)
    {
      var ok := Perform(calls[i], tree, root);
      assert calls[..i + 1][..i] == calls[..i] && (oks + [ok])[..i] == oks;
      oks := oks + [ok];
      i := i + 1;
    }
    assert calls[..|calls|] == calls;
  }

  /** A tree of empty structs is valid. */
  lemma EmptyTree(tree: set<YanObject>, root: YanObject)
    requires Closed(tree) && OneRoot(tree, root) && forall o :: o in tree ==> o.Empty()
    ensures TreeValid(tree, root)
  {
    assert EntriesKey([]) == "";
  }

  /******* Flat structs *******/

  // The comparison as a parameter of a condition object.
  function ParamOf(e: Entry): QueryModel.Param {
    QueryModel.Param(e.field, e.cond, e.op, e.ytype, e.value)
  }

  function ParamsOf(es: seq<Entry>): (ps: seq<QueryModel.Param>)
    ensures |ps| == |es|
    ensures forall i :: 0 <= i < |es| ==> ps[i] == ParamOf(es[i])
  {
    seq(|es|, i requires 0 <= i < |es| => ParamOf(es[i]))
  }

  predicate AllDirect(es: seq<Entry>) {
    forall i :: 0 <= i < |es| ==> |es[i].path| == 1
  }

  lemma {:induction false} ChunksSnoc(ps: seq<QueryModel.Param>, p: QueryModel.Param)
    requires ParamKey.SmallFields(ps) && p.field < 0x1_0000
    ensures ParamKey.SmallFields(ps + [p]) && ParamKey.Chunks(ps + [p]) == ParamKey.Chunks(ps) + ParamKey.Chunk(p)
  {
    if ps == [] {
      assert ps + [p] == [p] && [p][1..] == [];
      assert ParamKey.Chunks([p]) == ParamKey.Chunk(p) + ParamKey.Chunks([]);
    } else {
      assert (ps + [p])[1..] == ps[1..] + [p];
      ChunksSnoc(ps[1..], p);
    }
  }

  /** When every comparison was on the root itself, the key is the four-byte chunks of the parameters,
      in their order. */
  lemma {:induction false} FlatKey(es: seq<Entry>)
    requires SmallEntries(es) && AllDirect(es)
    ensures ParamKey.SmallFields(ParamsOf(es))
    ensures EntriesKey(es) == ParamKey.Chunks(ParamsOf(es)) && |EntriesKey(es)| == 4 * |es|
  {
    if es != [] {
      var front, e := es[..|es| - 1], es[|es| - 1];
      FlatKey(front);
      ChunksSnoc(ParamsOf(front), ParamOf(e));
      assert ParamsOf(es) == ParamsOf(front) + [ParamOf(e)];
      assert FieldBytes(e) + CondBytes(e) == ParamKey.Chunk(ParamOf(e));
    }
  }

  /******* Nested structs *******/

  predicate DotFree(path: seq<string>) {
    StrOps.AllFree(path, ".")
  }

  lemma {:induction false} DottedIsJoin(path: seq<string>)
    requires path != []
    ensures Dotted(path) == StrOps.Join(path, ".")
  {
    if |path| > 1 { DottedIsJoin(path[1..]); }
  }

  /** The dotted name of a nested member tells its path: members of different structs have different
      names, since a name holds no dot. */
  lemma DottedTells(p: seq<string>, q: seq<string>)
    requires p != [] && q != [] && DotFree(p) && DotFree(q) && Dotted(p) == Dotted(q)
    ensures p == q
  {
    DottedIsJoin(p);
    DottedIsJoin(q);
    StrOps.JoinThenSplitIff(".");
    assert StrOps.Split(StrOps.Join(p, "."), ".") == p && StrOps.Split(StrOps.Join(q, "."), ".") == q;
  }

  /** What a comparison on a nested member adds to the key tells the member, the operator and the
      condition. */
  lemma EntryKeyTells(e: Entry, f: Entry)
    requires e.field < 0x1_0000 && f.field < 0x1_0000 && |e.path| > 1 && |f.path| > 1
    requires DotFree(e.path) && DotFree(f.path) && EntryKey(e) == EntryKey(f)
    ensures e.path == f.path && e.op == f.op && e.cond == f.cond
  {
    assert |Dotted(e.path)| + 2 == |EntryKey(e)| == |EntryKey(f)| == |Dotted(f.path)| + 2;
    ParamKey.SplitChunk(Dotted(e.path), CondBytes(e), Dotted(f.path), CondBytes(f));
    DottedTells(e.path, f.path);
    assert CondBytes(e)[0] == CondBytes(f)[0] && CondBytes(e)[1] == CondBytes(f)[1];
    ParamKey.OpsCodeInjective(e.op, f.op);
    ParamKey.CondCodeInjective(e.cond, f.cond);
  }

  // How many structs lie above an object.
  ghost function Above(o: YanObject): nat
    requires o.Linked()
    decreases o.depth
  {
    if o.parent == null then 0 else 1 + Above(o.parent)
  }

  // The name of the i-th struct above an object, itself included; the root has none.
  ghost function NameAbove(o: YanObject, i: nat): string
    requires o.Linked() && i < Above(o)
    decreases o.depth
  {
    if i == 0 then o.name else NameAbove(o.parent, i - 1)
  }

  /** The path to a member: the names of the structs from the outermost on, and its own name last. */
  lemma {:induction false} PathIs(o: YanObject, member: string, i: nat)
    requires o.Linked() && i < Above(o)
    ensures |o.Path(member)| == Above(o) + 1 && o.Path(member)[Above(o)] == member
    ensures o.Path(member)[Above(o) - 1 - i] == NameAbove(o, i)
    decreases o.depth
  {
    if o.parent != null {
      if Above(o.parent) > 0 { PathIs(o.parent, o.name, if i > 0 then i - 1 else 0); }
    }
  }
}
