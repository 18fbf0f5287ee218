/** What a list of AND, OR and NOT conditions selects, and that the printed WHERE selects it. */
module WhereMeaning {
  import opened YanTypes
  import opened SqlGrammar
  import opened QueryModel
  import opened SqlText
  import opened SqlRoundTrip

  /** One condition as its author wrote it: NOT takes the complement of the comparison. */
  function WantedOn(n: Named, v: Option<Value>): Truth {
    var t := Asks(n.op, v, Some(n.value));
    if n.cond.Not? then Negate(t) else t
  }

  function Wanted(n: Named, row: Row): Truth {
    WantedOn(n, Field(row, n.col))
  }

  // `k` lies in the run that starts at `i`: no OR in between.
  predicate SameRun(ns: seq<Named>, i: nat, k: nat) {
    i <= k < |ns| && forall j :: i < j <= k ==> !ns[j].cond.Or?
  }

  predicate RunHolds(ns: seq<Named>, i: nat, row: Row) {
    forall k :: i <= k < |ns| && SameRun(ns, i, k) ==> Wanted(ns[k], row).True?
  }

  /** Some OR-separated run has all its conditions true.  The first connective does not matter. */
  predicate Selected(ns: seq<Named>, row: Row) {
    exists i :: 0 <= i < |ns| && (i == 0 || ns[i].cond.Or?) && RunHolds(ns, i, row)
  }

  // The values bound from number `k` on are those of the list.
  predicate BoundInOrder(ns: seq<Named>, k: nat, binds: seq<Option<Value>>) {
    forall i :: 0 <= i < |ns| ==> Bound(binds, k + i) == Some(ns[i].value)
  }

  lemma PredMeaning(n: Named, k: nat, row: Row, binds: seq<Option<Value>>)
    requires Bound(binds, k) == Some(n.value) && !n.op.EqualList?
    ensures EvalPred(PredOf(n, k), row, binds) == Wanted(n, row)
  {
    SymbolMeans(n.op, n.cond.Not?, Field(row, n.col), Some(n.value));
  }

  lemma RunHoldsStep(ns: seq<Named>, row: Row)
    requires |ns| > 1
    ensures RunHolds(ns, 0, row) ==
            (Wanted(ns[0], row).True? && (ns[1].cond.Or? || RunHolds(ns[1..], 0, row)))
  {
    var rest := ns[1..];
    assert SameRun(ns, 0, 0);
    if ns[1].cond.Or? {
      assert forall k :: 0 < k < |ns| ==> !SameRun(ns, 0, k);
    } else {
      forall k | 0 < k < |ns| ensures SameRun(ns, 0, k) == SameRun(rest, 0, k - 1) {
        SameRunShift(ns, 0, k);
      }
      if RunHolds(ns, 0, row) {
        forall k | 0 <= k < |rest| && SameRun(rest, 0, k) ensures Wanted(rest[k], row).True? {
          assert SameRun(ns, 0, k + 1);
        }
      }
    }
  }

  // Runs of the tail are runs of the list one place further on.
  lemma SameRunShift(ns: seq<Named>, i: nat, k: nat)
    requires |ns| > 1 && i < k < |ns| && (i == 0 ==> !ns[1].cond.Or?)
    ensures SameRun(ns, i, k) == SameRun(ns[1..], if i == 0 then 0 else i - 1, k - 1)
  {
    var rest := ns[1..];
    var i' := if i == 0 then 0 else i - 1;
    if SameRun(ns, i, k) {
      forall j | i' < j <= k - 1 ensures !rest[j].cond.Or? { assert rest[j] == ns[j + 1]; }
    }
    if SameRun(rest, i', k - 1) {
      forall j | i < j <= k ensures !ns[j].cond.Or? { if j > 1 || i > 0 { assert ns[j] == rest[j - 1]; } }
    }
  }

  lemma LaterRun(ns: seq<Named>, i: nat, row: Row)
    requires 0 < i < |ns|
    ensures RunHolds(ns, i, row) == RunHolds(ns[1..], i - 1, row)
  {
    var rest := ns[1..];
    forall k | i <= k < |ns| ensures SameRun(ns, i, k) == SameRun(rest, i - 1, k - 1) {
      if k > i { SameRunShift(ns, i, k); }
    }
    if RunHolds(ns, i, row) {
      forall k | i - 1 <= k < |rest| && SameRun(rest, i - 1, k) ensures Wanted(rest[k], row).True? {
        assert SameRun(ns, i, k + 1);
      }
    }
  }

  // Runs that do not start at the front.
  predicate LaterSelected(ns: seq<Named>, row: Row) {
    exists i :: 0 < i < |ns| && ns[i].cond.Or? && RunHolds(ns, i, row)
  }

  lemma LaterSelectedStep(ns: seq<Named>, row: Row)
    requires |ns| > 1
    ensures LaterSelected(ns, row) ==
            ((ns[1].cond.Or? && RunHolds(ns[1..], 0, row)) || LaterSelected(ns[1..], row))
  {
    var rest := ns[1..];
    if LaterSelected(ns, row) {
      var i :| 0 < i < |ns| && ns[i].cond.Or? && RunHolds(ns, i, row);
      LaterRun(ns, i, row);
      assert rest[i - 1] == ns[i];
    }
    if ns[1].cond.Or? && RunHolds(rest, 0, row) { LaterRun(ns, 1, row); }
    if LaterSelected(rest, row) {
      var i :| 0 < i < |rest| && rest[i].cond.Or? && RunHolds(rest, i, row);
      LaterRun(ns, i + 1, row);
    }
  }

  lemma {:induction false} NewRun(p: Pred, r: Search, row: Row, binds: seq<Option<Value>>)
    requires r != []
    ensures EvalTerm(([[p]] + r)[0], row, binds).True? == EvalPred(p, row, binds).True?
    ensures EvalSearch(([[p]] + r)[1..], row, binds).True?
            == (EvalTerm(r[0], row, binds).True? || EvalSearch(r[1..], row, binds).True?)
  {
    assert [p][1..] == [] && ([[p]] + r)[1..] == r;
    assert EvalTerm([], row, binds) == True;
  }

  lemma {:induction false} SameTerm(p: Pred, r: Search, row: Row, binds: seq<Option<Value>>)
    requires r != []
    ensures EvalTerm(([[p] + r[0]] + r[1..])[0], row, binds).True?
            == (EvalPred(p, row, binds).True? && EvalTerm(r[0], row, binds).True?)
    ensures ([[p] + r[0]] + r[1..])[1..] == r[1..]
  {
    assert ([p] + r[0])[1..] == r[0];
  }

  lemma BoundRest(ns: seq<Named>, k: nat, binds: seq<Option<Value>>)
    requires ns != [] && BoundInOrder(ns, k, binds)
    ensures Bound(binds, k) == Some(ns[0].value) && BoundInOrder(ns[1..], k + 1, binds)
  {
    assert Bound(binds, k + 0) == Some(ns[0].value);
    forall i | 0 <= i < |ns[1..]| ensures Bound(binds, k + 1 + i) == Some(ns[1..][i].value) {
      assert Bound(binds, k + (i + 1)) == Some(ns[i + 1].value);
    }
  }

  lemma {:induction false} RunsMeaning(ns: seq<Named>, k: nat, row: Row, binds: seq<Option<Value>>)
    requires ns != [] && !HasListOp(ns) && BoundInOrder(ns, k, binds)
    ensures EvalTerm(Runs(ns, k)[0], row, binds).True? == RunHolds(ns, 0, row)
    ensures EvalSearch(Runs(ns, k)[1..], row, binds).True? == LaterSelected(ns, row)
    decreases |ns|
  {
    BoundRest(ns, k, binds);
    PredMeaning(ns[0], k, row, binds);
    if |ns| == 1 {
      OneRun(ns, k, row, binds);
    } else {
      HasListOpSplit(ns);
      RunsMeaning(ns[1..], k + 1, row, binds);
      MoreRuns(ns, k, row, binds);
    }
  }

  lemma {:induction false} MoreRuns(ns: seq<Named>, k: nat, row: Row, binds: seq<Option<Value>>)
    requires |ns| > 1 && EvalPred(PredOf(ns[0], k), row, binds) == Wanted(ns[0], row)
    requires EvalTerm(Runs(ns[1..], k + 1)[0], row, binds).True? == RunHolds(ns[1..], 0, row)
    requires EvalSearch(Runs(ns[1..], k + 1)[1..], row, binds).True? == LaterSelected(ns[1..], row)
    ensures EvalTerm(Runs(ns, k)[0], row, binds).True? == RunHolds(ns, 0, row)
    ensures EvalSearch(Runs(ns, k)[1..], row, binds).True? == LaterSelected(ns, row)
  {
    RunHoldsStep(ns, row);
    LaterSelectedStep(ns, row);
    NewRun(PredOf(ns[0], k), Runs(ns[1..], k + 1), row, binds);
    SameTerm(PredOf(ns[0], k), Runs(ns[1..], k + 1), row, binds);
  }

  lemma {:induction false} OneRun(ns: seq<Named>, k: nat, row: Row, binds: seq<Option<Value>>)
    requires |ns| == 1 && EvalPred(PredOf(ns[0], k), row, binds) == Wanted(ns[0], row)
    ensures EvalTerm(Runs(ns, k)[0], row, binds).True? == RunHolds(ns, 0, row)
    ensures EvalSearch(Runs(ns, k)[1..], row, binds).True? == LaterSelected(ns, row) == false
  {
    assert Runs(ns, k)[0][1..] == [] && EvalTerm([], row, binds) == True;
    assert Runs(ns, k)[1..] == [];
    assert SameRun(ns, 0, 0);
  }

  /** The printed condition is true of a row exactly when the list of conditions selects it. */
  lemma {:induction false} SearchMeaning(ns: seq<Named>, k: nat, row: Row, binds: seq<Option<Value>>)
    requires ns != [] && !HasListOp(ns) && BoundInOrder(ns, k, binds)
    ensures EvalSearch(Runs(ns, k), row, binds).True? <==> Selected(ns, row)
  {
    RunsMeaning(ns, k, row, binds);
    if Selected(ns, row) {
      var i :| 0 <= i < |ns| && (i == 0 || ns[i].cond.Or?) && RunHolds(ns, i, row);
      assert i == 0 || LaterSelected(ns, row);
    }
    if LaterSelected(ns, row) {
      var i :| 0 < i < |ns| && ns[i].cond.Or? && RunHolds(ns, i, row);
    }
  }

  /******* Order of the placeholders *******/

  function Flatten(s: Search): seq<Pred> {
    if s == [] then [] else s[0] + Flatten(s[1..])
  }

  lemma {:induction false} FlattenFront(p: Pred, s: Search)
    requires s != []
    ensures Flatten([[p]] + s) == Flatten([[p] + s[0]] + s[1..]) == [p] + Flatten(s)
  {
    assert ([[p]] + s)[1..] == s;
    assert ([[p] + s[0]] + s[1..])[1..] == s[1..];
    assert ([p] + s[0]) + Flatten(s[1..]) == [p] + (s[0] + Flatten(s[1..]));
  }

  /** Read from left to right, the i-th predicate of the text is the i-th condition of the list and
      its `?` carries the next number. */
  lemma {:induction false} PlaceholderOrder(ns: seq<Named>, k: nat)
    requires ns != []
    ensures |Flatten(Runs(ns, k))| == |ns|
    ensures forall i :: 0 <= i < |ns| ==> Flatten(Runs(ns, k))[i] == PredOf(ns[i], k + i)
    decreases |ns|
  {
    var p := PredOf(ns[0], k);
    if |ns| == 1 {
      assert Flatten([[p]]) == [p] + Flatten([]);
    } else {
      PlaceholderOrder(ns[1..], k + 1);
      FlattenFront(p, Runs(ns[1..], k + 1));
      var rest := Flatten(Runs(ns[1..], k + 1));
      forall i | 0 <= i < |ns| ensures ([p] + rest)[i] == PredOf(ns[i], k + i) {
        if i > 0 { assert rest[i - 1] == PredOf(ns[1..][i - 1], k + 1 + (i - 1)); }
      }
    }
  }
}
