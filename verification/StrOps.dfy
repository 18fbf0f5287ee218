/** `split`: cutting a string at a delimiter, and when that undoes joining. */
module StrOps {
  import opened YanTypes

  // The delimiter occurs at place p.
  predicate At(s: string, d: string, p: nat) {
    p + |d| <= |s| && s[p..p + |d|] == d
  }

  // `std::string::find`: the first occurrence from p on; None is `npos`.
  function Find(s: string, d: string, p: nat): (r: Option<nat>)
    ensures r.Some? ==> p <= r.value && r.value + |d| <= |s|
    decreases |s| - p
  {
    if p > |s| then None else if At(s, d, p) then Some(p) else Find(s, d, p + 1)
  }

  lemma {:induction false} FindsFirst(s: string, d: string, p: nat)
    ensures var r := Find(s, d, p);
      && (r.Some? ==> At(s, d, r.value) && forall i :: p <= i < r.value ==> !At(s, d, i))
      && (r.None? ==> forall i :: p <= i <= |s| ==> !At(s, d, i))
    decreases |s| - p
  {
    if p <= |s| && !At(s, d, p) { FindsFirst(s, d, p + 1); }
  }

  function SplitFrom(s: string, d: string, p: nat): (ts: seq<string>)
    requires d != "" && p <= |s|
    ensures ts != []
    decreases |s| - p
  {
    var q := Find(s, d, p);
    if q.None? then [s[p..]] else [s[p..q.value]] + SplitFrom(s, d, q.value + |d|)
  }

  function Split(s: string, d: string): seq<string>
    requires d != ""
  {
    SplitFrom(s, d, 0)
  }

  function Join(ts: seq<string>, d: string): string
    requires ts != []
  {
    if |ts| == 1 then ts[0] else ts[0] + d + Join(ts[1..], d)
  }

  /******* Slices *******/

  lemma Slice(s: string, p: nat, q: nat, a: nat, b: nat)
    requires a <= b && p + b <= q <= |s|
    ensures s[p..q][a..b] == s[p + a..p + b]
  {
    forall i | 0 <= i < b - a ensures s[p..q][a..b][i] == s[p + a..p + b][i] {
      assert s[p..q][a + i] == s[p + a + i];
    }
  }

  lemma SliceTail(s: string, p: nat, a: nat, b: nat)
    requires a <= b && p + b <= |s|
    ensures s[p..][a..b] == s[p + a..p + b] && s[p..][b..] == s[p + b..]
  {
  }

  lemma Cut(s: string, d: string, p: nat, q: nat)
    requires p <= q && At(s, d, q)
    ensures s[p..] == s[p..q] + d + s[q + |d|..]
  {
  }

  lemma Parts(a: string, d: string, rest: string)
    ensures (a + d + rest)[..|a|] == a && (a + d + rest)[|a|..|a| + |d|] == d && (a + d + rest)[|a| + |d|..] == rest
  {
  }

  lemma {:induction false} JoinFront(t: string, ts: seq<string>, d: string)
    requires ts != []
    ensures Join([t] + ts, d) == t + d + Join(ts, d)
  {
    assert ([t] + ts)[1..] == ts;
  }

  lemma Shift(done: seq<string>, token: string, rest: seq<string>, goal: seq<string>)
    requires done + ([token] + rest) == goal
    ensures done + [token] + rest == goal
  {
  }

  /** The loop of `split`; it ends because the delimiter is not empty. */
  method SplitString(s: string, delimiter: string) returns (tokens: seq<string>)
    requires delimiter != ""
    ensures tokens == Split(s, delimiter)
  {
    var start := 0;
    tokens := [];
    var end := Find(s, delimiter, start);
    while end.Some?
      invariant start <= |s| && end == Find(s, delimiter, start)
      invariant tokens + SplitFrom(s, delimiter, start) == Split(s, delimiter)
      decreases |s| - start
    {
      var token := s[start..end.value];
      Shift(tokens, token, SplitFrom(s, delimiter, end.value + |delimiter|), Split(s, delimiter));
      start := end.value + |delimiter|;
      tokens := tokens + [token];
      end := Find(s, delimiter, start);
    }
    tokens := tokens + [s[start..]];
  }

  /** With an empty delimiter the loop would find it at once and stay where it is. */
  lemma {:induction false} EmptyDelimiterStays(s: string, start: nat)
    requires start <= |s|
    ensures Find(s, "", start) == Some(start) && start + |""| == start
  {
    assert s[start..start + 0] == "";
  }

  /******* Joining the tokens *******/

  // A token found before what is already joined.
  lemma {:induction false} JoinFound(s: string, d: string, p: nat, q: nat, rest: seq<string>)
    requires p <= q && At(s, d, q) && rest != [] && Join(rest, d) == s[q + |d|..]
    ensures Join([s[p..q]] + rest, d) == s[p..]
  {
    JoinFront(s[p..q], rest, d);
    Cut(s, d, p, q);
  }

  lemma {:induction false} SplitEnd(s: string, d: string, p: nat)
    requires d != "" && p <= |s| && Find(s, d, p).None?
    ensures SplitFrom(s, d, p) == [s[p..]] && Join([s[p..]], d) == s[p..]
  {
  }

  lemma {:induction false} JoinSplitFrom(s: string, d: string, p: nat, ts: seq<string>)
    requires d != "" && p <= |s| && ts == SplitFrom(s, d, p)
    ensures Join(ts, d) == s[p..]
    decreases |s| - p
  {
    var found := Find(s, d, p);
    FindsFirst(s, d, p);
    if found.None? {
      SplitEnd(s, d, p);
    } else {
      var rest := SplitFrom(s, d, found.value + |d|);
      JoinSplitFrom(s, d, found.value + |d|, rest);
      SplitFound(s, d, p, found.value);
      JoinFound(s, d, p, found.value, rest);
    }
  }

  predicate Free(t: string, d: string) {
    forall p: nat :: p <= |t| ==> !At(t, d, p)
  }

  predicate AllFree(ts: seq<string>, d: string) {
    forall i :: 0 <= i < |ts| ==> Free(ts[i], d)
  }

  lemma SliceFree(s: string, d: string, p: nat, q: nat)
    requires d != "" && p <= q <= |s| && forall i :: p <= i < q ==> !At(s, d, i)
    ensures Free(s[p..q], d)
  {
    forall i: nat | i <= q - p ensures !At(s[p..q], d, i) {
      if i + |d| <= q - p {
        Slice(s, p, q, i, i + |d|);
        assert !At(s, d, p + i);
      }
    }
  }

  lemma {:induction false} TokensFree(s: string, d: string, p: nat)
    requires d != "" && p <= |s|
    ensures AllFree(SplitFrom(s, d, p), d)
    decreases |s| - p
  {
    var q := Find(s, d, p);
    FindsFirst(s, d, p);
    if q.Some? {
      SliceFree(s, d, p, q.value);
      TokensFree(s, d, q.value + |d|);
    } else {
      SliceFree(s, d, p, |s|);
      assert s[p..|s|] == s[p..];
    }
  }

  /** Joining the tokens gives the string back, and no token contains the delimiter. */
  lemma {:induction false} SplitThenJoin(s: string, d: string)
    requires d != ""
    ensures Join(Split(s, d), d) == s && AllFree(Split(s, d), d)
  {
    JoinSplitFrom(s, d, 0, Split(s, d));
    TokensFree(s, d, 0);
    assert s[0..] == s;
  }

  /******* Splitting what was joined *******/

  // No proper part at the front of the delimiter is also at its end.
  predicate Borderless(d: string) {
    forall k :: 0 < k < |d| ==> d[..k] != d[|d| - k..]
  }

  ghost predicate Inverts(d: string)
    requires d != ""
  {
    forall ts: seq<string> :: ts != [] && AllFree(ts, d) ==> Split(Join(ts, d), d) == ts
  }

  // The first occurrence is unique.
  lemma {:induction false} FindIs(s: string, d: string, p: nat, q: nat)
    requires p <= q && At(s, d, q) && forall i :: p <= i < q ==> !At(s, d, i)
    ensures Find(s, d, p) == Some(q)
  {
    FindsFirst(s, d, p);
  }

  // In t + d + rest the delimiter cannot start inside t.
  lemma NotInside(t: string, d: string, rest: string, i: nat)
    requires d != "" && Borderless(d) && Free(t, d) && i < |t|
    ensures !At(t + d + rest, d, i)
  {
    var s := t + d + rest;
    Parts(t, d, rest);
    if i + |d| <= |t| {
      assert s[i..i + |d|] == t[i..i + |d|];
      assert !At(t, d, i);
    } else if At(s, d, i) {
      Overlap(s, d, i, |t|, i + |d| - |t|);
    }
  }

  // Two overlapping occurrences share a border.
  lemma Overlap(s: string, d: string, i: nat, j: nat, k: nat)
    requires At(s, d, i) && At(s, d, j) && i < j < i + |d| && k == i + |d| - j
    ensures 0 < k < |d| && d[..k] == d[|d| - k..]
  {
    assert d[..k] == s[j..j + |d|][..k] == s[j..j + k];
    assert d[|d| - k..] == s[i..i + |d|][|d| - k..] == s[j..j + k];
  }

  lemma {:induction false} JoinThenSplitFrom(s: string, ts: seq<string>, d: string, p: nat)
    requires d != "" && Borderless(d) && ts != [] && AllFree(ts, d) && p <= |s| && s[p..] == Join(ts, d)
    ensures SplitFrom(s, d, p) == ts
    decreases |ts|
  {
    if |ts| == 1 {
      forall i | p <= i <= |s| ensures !At(s, d, i) { ShiftAt(s, d, p, i); }
      FindsFirst(s, d, p);
      assert ts == [s[p..]];
    } else {
      var t, more := ts[0], ts[1..];
      assert ts == [t] + more;
      FirstFound(s, t, d, Join(more, d), p);
      JoinThenSplitFrom(s, more, d, p + |t| + |d|);
      SplitFound(s, d, p, p + |t|);
    }
  }

  lemma SplitFound(s: string, d: string, p: nat, q: nat)
    requires d != "" && p <= |s| && Find(s, d, p) == Some(q)
    ensures SplitFrom(s, d, p) == [s[p..q]] + SplitFrom(s, d, q + |d|)
  {
  }

  // The first delimiter is where the first token ends.
  lemma FirstFound(s: string, t: string, d: string, rest: string, p: nat)
    requires d != "" && Borderless(d) && Free(t, d) && p <= |s| && s[p..] == t + d + rest
    ensures |s| == p + |t| + |d| + |rest|
    ensures Find(s, d, p) == Some(p + |t|) && s[p..p + |t|] == t && s[p + |t| + |d|..] == rest
  {
    assert |s[p..]| == |s| - p;
    Parts(t, d, rest);
    SliceTail(s, p, 0, |t|);
    SliceTail(s, p, |t|, |t| + |d|);
    forall i | p <= i < p + |t| ensures !At(s, d, i) {
      NotInside(t, d, rest, i - p);
      ShiftAt(s, d, p, i);
    }
    FindIs(s, d, p, p + |t|);
  }

  lemma ShiftAt(s: string, d: string, p: nat, i: nat)
    requires p <= i <= |s|
    ensures At(s, d, i) == At(s[p..], d, i - p)
  {
    if i + |d| <= |s| { SliceTail(s, p, i - p, i - p + |d|); }
  }

  // A delimiter with a border: its front without the border, then nothing.
  lemma {:induction false} BorderBreaks(d: string, k: nat)
    requires 0 < k < |d| && d[..k] == d[|d| - k..]
    ensures AllFree([d[..|d| - k], ""], d)
    ensures Split(Join([d[..|d| - k], ""], d), d) != [d[..|d| - k], ""]
  {
    var u, s := d[..|d| - k], Join([d[..|d| - k], ""], d);
    assert Join([""], d) == "" && [u, ""][1..] == [""];
    assert s == u + d;
    assert s[0..|d|] == u + d[..k] == d;
    FindIs(s, d, 0, 0);
    assert Split(s, d)[0] == s[0..0];
  }

  /** Splitting undoes joining, on all non-empty lists of tokens without the delimiter, exactly when no
      proper front part of the delimiter is also its end part; every one-character delimiter is so. */
  lemma JoinThenSplitIff(d: string)
    requires d != ""
    ensures Inverts(d) <==> Borderless(d)
    ensures |d| == 1 ==> Inverts(d)
  {
    if Borderless(d) {
      forall ts: seq<string> | ts != [] && AllFree(ts, d) ensures Split(Join(ts, d), d) == ts {
        var s := Join(ts, d);
        assert s[0..] == s;
        JoinThenSplitFrom(s, ts, d, 0);
      }
    } else {
      var k :| 0 < k < |d| && d[..k] == d[|d| - k..];
      BorderBreaks(d, k);
    }
  }
}
