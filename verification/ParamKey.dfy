/** The byte keys under which prepared statements are cached, and when two commands share one. */
module ParamKey {
  import opened YanTypes
  import opened SqlLexer
  import opened SqlGrammar
  import opened QueryModel
  import opened SqlText
  import opened InsertSql

  /******* Keys *******/

  function Byte(n: nat): char
    requires n < 256
  {
    n as char
  }

  // The four bytes of a comparison: its member's seq, low byte first, operator and condition.
  function Chunk(p: Param): (s: string)
    requires p.field < 0x1_0000
    ensures |s| == 4
  {
    [Byte(p.field % 256), Byte(p.field / 256), Byte(OpsCode(p.op)), Byte(CondCode(p.cond))]
  }

  predicate SmallFields(ps: seq<Param>) {
    forall i :: 0 <= i < |ps| ==> ps[i].field < 0x1_0000
  }

  /** The key of a parameter list, in the order of the comparisons. */
  function Chunks(ps: seq<Param>): (s: string)
    requires SmallFields(ps)
    ensures |s| == 4 * |ps|
  {
    if ps == [] then "" else Chunk(ps[0]) + Chunks(ps[1..])
  }

  // The assigned seqs in decimal, with nothing between them.
  function DigitsOf(seqs: seq<nat>): string {
    if seqs == [] then "" else Digits(seqs[0]) + DigitsOf(seqs[1..])
  }

  // What the text depends on: everything of a parameter but its type and value.
  datatype Shape = Shape(field: nat, cond: CondType, op: OpsType)

  function Shapes(ps: seq<Param>): (ss: seq<Shape>)
    ensures |ss| == |ps|
  {
    if ps == [] then [] else [Shape(ps[0].field, ps[0].cond, ps[0].op)] + Shapes(ps[1..])
  }

  lemma CodesInjective(p: Param, q: Param)
    requires p.field < 0x1_0000 && q.field < 0x1_0000 && Chunk(p) == Chunk(q)
    ensures Shape(p.field, p.cond, p.op) == Shape(q.field, q.cond, q.op)
  {
    assert Chunk(p)[0] == Chunk(q)[0] && Chunk(p)[1] == Chunk(q)[1];
    assert Chunk(p)[2] == Chunk(q)[2] && Chunk(p)[3] == Chunk(q)[3];
    assert p.field == 256 * (p.field / 256) + p.field % 256;
    assert q.field == 256 * (q.field / 256) + q.field % 256;
    OpsCodeInjective(p.op, q.op);
    CondCodeInjective(p.cond, q.cond);
  }

  lemma OpsCodeInjective(o: OpsType, p: OpsType)
    ensures 1 <= OpsCode(o) <= 6 && (OpsCode(o) == OpsCode(p) ==> o == p)
  {
  }

  lemma CondCodeInjective(c: CondType, d: CondType)
    ensures 1 <= CondCode(c) <= 6 && (CondCode(c) == CondCode(d) ==> c == d)
  {
  }

  lemma SplitChunk(a: string, x: string, b: string, y: string)
    requires |a| == |b| && a + x == b + y
    ensures a == b && x == y
  {
    assert a == (a + x)[..|a|] && b == (b + y)[..|b|];
    assert x == (a + x)[|a|..] && y == (b + y)[|b|..];
  }

  /** Chunks are read back without separators: equal keys, equal lists of comparisons. */
  lemma {:induction false} ChunksDecode(ps: seq<Param>, qs: seq<Param>)
    requires SmallFields(ps) && SmallFields(qs) && Chunks(ps) == Chunks(qs)
    ensures Shapes(ps) == Shapes(qs)
  {
    assert |ps| == |qs|;
    if ps != [] {
      SplitChunk(Chunk(ps[0]), Chunks(ps[1..]), Chunk(qs[0]), Chunks(qs[1..]));
      CodesInjective(ps[0], qs[0]);
      ChunksDecode(ps[1..], qs[1..]);
    }
  }

  lemma {:induction false} ChunksOfShapes(ps: seq<Param>, qs: seq<Param>)
    requires SmallFields(ps) && SmallFields(qs) && Shapes(ps) == Shapes(qs)
    ensures Chunks(ps) == Chunks(qs)
  {
    assert |Shapes(ps)| == |Shapes(qs)|;
    if ps != [] {
      assert Shapes(ps)[0] == Shapes(qs)[0];
      assert Shapes(ps)[1..] == Shapes(ps[1..]) && Shapes(qs)[1..] == Shapes(qs[1..]);
      ChunksOfShapes(ps[1..], qs[1..]);
    }
  }

  // The enumerations in the order of their codes, which start at 1.
  const OPERATORS: seq<OpsType> := [Equal, EqualList, Large, LargeOrEqual, Less, LessOrEqual]
  const CONDITIONS: seq<CondType> := [And, Or, Not, Group, OrderAsc, OrderDesc]

  // A `uint16_t` of the member's seq, low byte first, then operator and condition.
  function ReadChunk(s: string): Option<Shape>
    requires |s| == 4
  {
    var op, cond := s[2] as nat, s[3] as nat;
    if 1 <= op <= 6 && 1 <= cond <= 6
    then Some(Shape(s[0] as nat + 256 * (s[1] as nat), CONDITIONS[cond - 1], OPERATORS[op - 1]))
    else None
  }

  function ReadChunks(s: string): Option<seq<Shape>>
    requires |s| % 4 == 0
  {
    if s == "" then Some([])
    else
      var first, rest := ReadChunk(s[..4]), ReadChunks(s[4..]);
      if first.Some? && rest.Some? then Some([first.value] + rest.value) else None
  }

  /** The bytes of a key say what they should: seq, operator and condition by their codes. */
  lemma {:induction false} ChunksReadBack(ps: seq<Param>)
    requires SmallFields(ps)
    ensures ReadChunks(Chunks(ps)) == Some(Shapes(ps))
  {
    if ps != [] {
      var s := Chunks(ps);
      assert s[..4] == Chunk(ps[0]) && s[4..] == Chunks(ps[1..]);
      ChunkReadBack(ps[0]);
      ChunksReadBack(ps[1..]);
    }
  }

  lemma ChunkReadBack(p: Param)
    requires p.field < 0x1_0000
    ensures ReadChunk(Chunk(p)) == Some(Shape(p.field, p.cond, p.op))
  {
    OpsCodeInjective(p.op, p.op);
    CondCodeInjective(p.cond, p.cond);
  }

  // The operator byte of the k-th chunk is none of the bytes of a name or a number.
  lemma {:induction false} OpByte(ps: seq<Param>, k: nat, rest: string)
    requires SmallFields(ps) && k < |ps|
    ensures (Chunks(ps) + rest)[4 * k + 2] <= 6 as char
  {
    if k == 0 {
      OpsCodeInjective(ps[0].op, ps[0].op);
      assert (Chunks(ps) + rest)[2] == Chunk(ps[0])[2];
    } else {
      OpByte(ps[1..], k - 1, rest);
      assert Chunks(ps) + rest == Chunk(ps[0]) + (Chunks(ps[1..]) + rest);
    }
  }

  predicate Plain(s: string) {
    forall i :: 0 <= i < |s| ==> s[i] > 6 as char
  }

  lemma {:induction false} DigitsPlain(seqs: seq<nat>)
    ensures Plain(DigitsOf(seqs))
  {
    if seqs != [] {
      DigitsAreDigits(seqs[0]);
      DigitsPlain(seqs[1..]);
    }
  }

  /** Comparisons and the digits after them cannot be confused, whatever the digits are. */
  lemma {:induction false} ChunksThenDigits(ps: seq<Param>, x: string, qs: seq<Param>, y: string)
    requires SmallFields(ps) && SmallFields(qs) && Plain(x) && Plain(y)
    requires Chunks(ps) + x == Chunks(qs) + y
    ensures Shapes(ps) == Shapes(qs) && x == y
  {
    SameCount(ps, x, qs, y);
    SameCount(qs, y, ps, x);
    SplitChunk(Chunks(ps), x, Chunks(qs), y);
    ChunksDecode(ps, qs);
  }

  lemma {:induction false} PlainByte(ps: seq<Param>, x: string, k: nat)
    requires SmallFields(ps) && Plain(x) && 4 * |ps| <= k < 4 * |ps| + |x|
    ensures (Chunks(ps) + x)[k] > 6 as char
  {
    assert (Chunks(ps) + x)[k] == x[k - 4 * |ps|];
  }

  lemma {:induction false} SameCount(ps: seq<Param>, x: string, qs: seq<Param>, y: string)
    requires SmallFields(ps) && SmallFields(qs) && Plain(x)
    requires Chunks(ps) + x == Chunks(qs) + y
    ensures |qs| <= |ps|
  {
    if |ps| < |qs| {
      assert |Chunks(ps) + x| == |Chunks(qs) + y|;
      PlainByte(ps, x, 4 * |ps| + 2);
      OpByte(qs, |ps|, y);
      assert false;
    }
  }

  /******* Digits of the assigned members *******/

  predicate Below(s: seq<nat>, n: nat) {
    forall i :: 0 <= i < |s| ==> s[i] < n
  }

  // Sets of members of a struct of `n` members are told apart by their digits.
  ghost predicate DigitsTell(n: nat) {
    forall a: seq<nat>, b: seq<nat> :: SameDigits(a, b, n) ==> a == b
  }

  predicate SameDigits(a: seq<nat>, b: seq<nat>, n: nat) {
    Ascending(a) && Ascending(b) && Below(a, n) && Below(b, n) && DigitsOf(a) == DigitsOf(b)
  }

  // The spellings of 0 to 11.
  lemma {:induction false} SmallDigits(n: nat)
    requires n < 12
    ensures n < 10 ==> Digits(n) == [DigitChar(n)]
    ensures n == 10 ==> Digits(n) == "10"
    ensures n == 11 ==> Digits(n) == "11"
  {
    assert Digits(1) == "1";
  }

  // After 1 comes neither a 0 nor a lone 1.
  lemma {:induction false} AfterOne(s: seq<nat>)
    requires Ascending(s) && Below(s, 12) && |s| > 0 && s[0] > 1
    ensures DigitsOf(s)[0] != '0'
    ensures DigitsOf(s)[0] == '1' ==> |DigitsOf(s)| > 1
  {
    SmallDigits(s[0]);
  }

  lemma {:induction false} Front(s: seq<nat>)
    requires s != []
    ensures |DigitsOf(s)| >= |Digits(s[0])| && DigitsOf(s)[0] == Digits(s[0])[0]
    ensures |Digits(s[0])| > 1 ==> DigitsOf(s)[1] == Digits(s[0])[1]
  {
  }

  lemma {:induction false} FirstDiffers(a: seq<nat>, b: seq<nat>)
    requires Ascending(a) && Ascending(b) && Below(a, 12) && Below(b, 12)
    requires a != [] && b != [] && a[0] < b[0]
    ensures DigitsOf(a) != DigitsOf(b)
  {
    SmallDigits(a[0]);
    SmallDigits(b[0]);
    Front(a);
    Front(b);
    if a[0] == 1 && b[0] >= 10 { OneThenMore(a, b); }
  }

  lemma {:induction false} OneThenMore(a: seq<nat>, b: seq<nat>)
    requires Ascending(a) && Ascending(b) && Below(a, 12) && Below(b, 12)
    requires a != [] && b != [] && a[0] == 1 && 10 <= b[0]
    ensures DigitsOf(a) != DigitsOf(b)
  {
    SmallDigits(1);
    SmallDigits(b[0]);
    Front(b);
    assert DigitsOf(a) == "1" + DigitsOf(a[1..]);
    if |a| > 1 {
      AfterOne(a[1..]);
      assert DigitsOf(a)[1] == DigitsOf(a[1..])[0];
      if b[0] == 11 { NothingAfterEleven(b); }
    }
  }

  lemma {:induction false} NothingAfterEleven(b: seq<nat>)
    requires Ascending(b) && Below(b, 12) && b != [] && b[0] == 11
    ensures DigitsOf(b) == "11"
  {
    SmallDigits(11);
    Room(b, 12);
    assert b[1..] == [] && DigitsOf([]) == "";
  }

  lemma {:induction false} Room(s: seq<nat>, n: nat)
    requires Ascending(s) && Below(s, n) && s != []
    ensures |s| <= n - s[0]
  {
    if |s| > 1 { Room(s[1..], n); }
  }

  lemma {:induction false} DigitsTellTwelve(a: seq<nat>, b: seq<nat>)
    requires Ascending(a) && Ascending(b) && Below(a, 12) && Below(b, 12)
    requires DigitsOf(a) == DigitsOf(b)
    ensures a == b
  {
    if a != [] && b != [] {
      if a[0] < b[0] { FirstDiffers(a, b); }
      if b[0] < a[0] { FirstDiffers(b, a); }
      SplitChunk(Digits(a[0]), DigitsOf(a[1..]), Digits(b[0]), DigitsOf(b[1..]));
      DigitsTellTwelve(a[1..], b[1..]);
      assert a == [a[0]] + a[1..] && b == [b[0]] + b[1..];
    }
  }

  /** The digits tell the assigned members apart exactly in structs of at most twelve members:
      with a thirteenth, {1, 2} and {12} have the same digits. */
  lemma DigitsTellIff(n: nat)
    ensures DigitsTell(n) <==> n <= 12
  {
    if n <= 12 {
      forall a: seq<nat>, b: seq<nat> | SameDigits(a, b, n) ensures a == b { DigitsTellTwelve(a, b); }
    } else {
      OneTwo();
      assert SameDigits([1, 2], [12], n);
      assert [1, 2][0] != [12][0];
    }
  }

  lemma OneTwo()
    ensures DigitsOf([1, 2]) == DigitsOf([12])
  {
    assert Digits(12) == Digits(1) + [DigitChar(2)];
    assert Digits(1) == "1" && Digits(2) == "2";
    assert [1, 2][1..] == [2] && [2][1..] == [] && [12][1..] == [];
    assert DigitsOf([2]) == "2" && DigitsOf([12]) == "12";
  }
}
