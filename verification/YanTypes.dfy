/** The enumerations, lookup tables and values shared by the whole model. */
module YanTypes {

  datatype Option<+T> = None | Some(value: T)

  datatype List<+T> = Nil | Cons(head: T, tail: List<T>)

  /** Every failure of the library is a thrown `runtime_error`; the message is not modelled. */
  datatype Result<+T> = Ok(value: T) | Thrown

  // `CondType`; the codes are 1..6 (0 is UNKNOWN and never reaches a parameter).
  datatype CondType = And | Or | Not | Group | OrderAsc | OrderDesc

  // `YanOpsType`; the codes are 1..6.
  datatype OpsType = Equal | EqualList | Large | LargeOrEqual | Less | LessOrEqual

  datatype YanType =
    | Int8 | Int16 | Int32 | Int64 | Float | Double | Bool | String
    | AutoIncrement | Date | Timestamp | Text | Blob
    | Struct | List

  /** Integers stand for every numeric type, strings for STRING, TEXT and BLOB. */
  datatype Value = IntVal(n: int) | StrVal(s: string)

  // The C++ types behind them.
  datatype CppType = Int8T | Int16T | Int32T | Int64T | FloatT | DoubleT | BoolT | StringT | StructT | ListT

  function CppTypeOf(t: YanType): CppType {
    match t
    case Int8 => Int8T
    case Int16 => Int16T
    case Int32 => Int32T
    case Int64 => Int64T
    case Float => FloatT
    case Double => DoubleT
    case Bool => BoolT
    case String => StringT
    case AutoIncrement => Int64T
    case Date => Int64T
    case Timestamp => Int64T
    case Text => StringT
    case Blob => StringT
    case Struct => StructT
    case List => ListT
  }

  // The types whose values are strings.
  predicate TextType(t: YanType) { t.String? || t.Text? || t.Blob? }

  lemma TextTypeIff(t: YanType)
    ensures TextType(t) <==> CppTypeOf(t).StringT?
  {
  }

  function CondCode(c: CondType): nat {
    match c
    case And => 1
    case Or => 2
    case Not => 3
    case Group => 4
    case OrderAsc => 5
    case OrderDesc => 6
  }

  function OpsCode(o: OpsType): nat {
    match o
    case Equal => 1
    case EqualList => 2
    case Large => 3
    case LargeOrEqual => 4
    case Less => 5
    case LessOrEqual => 6
  }

  // The characters of an operator; `get_yan_ops_str` pads them with one space on each side.
  function OpsSymbol(o: OpsType, negated: bool): string {
    match o
    case Equal => if negated then "!=" else "=="
    case EqualList => ""
    case Large => if negated then "<=" else ">"
    case LargeOrEqual => if negated then "<" else ">="
    case Less => if negated then ">=" else "<"
    case LessOrEqual => if negated then ">" else "<="
  }

  /** `get_yan_ops_str`; EQUAL_LIST has a single space and no operator. */
  function OpsText(o: OpsType, negated: bool): string {
    if o.EqualList? then " " else " " + OpsSymbol(o, negated) + " "
  }

  predicate IsScalar(t: YanType) { !t.Struct? && !t.List? }

  predicate IsLogical(c: CondType) { c.And? || c.Or? || c.Not? }

  /******* Comparison of SQL values *******/

  // Three-valued truth: a comparison with NULL is Unknown.
  datatype Truth = True | False | Unknown

  predicate StringLess(a: string, b: string) {
    if |b| == 0 then false
    else if |a| == 0 then true
    else a[0] < b[0] || (a[0] == b[0] && StringLess(a[1..], b[1..]))
  }

  // Numbers sort before text.
  predicate ValueLess(a: Value, b: Value) {
    match (a, b)
    case (IntVal(m), IntVal(n)) => m < n
    case (IntVal(_), StrVal(_)) => true
    case (StrVal(_), IntVal(_)) => false
    case (StrVal(s), StrVal(t)) => StringLess(s, t)
  }

  function ToTruth(b: bool): Truth { if b then True else False }

  /** The meaning of an SQL comparison operator, given by its text. */
  function SqlCompare(symbol: string, a: Option<Value>, b: Option<Value>): Truth {
    if a.None? || b.None? then Unknown
    else
      var x, y := a.value, b.value;
      if symbol == "==" then ToTruth(x == y)
      else if symbol == "!=" then ToTruth(x != y)
      else if symbol == ">" then ToTruth(ValueLess(y, x))
      else if symbol == ">=" then ToTruth(ValueLess(y, x) || x == y)
      else if symbol == "<" then ToTruth(ValueLess(x, y))
      else if symbol == "<=" then ToTruth(ValueLess(x, y) || x == y)
      else Unknown
  }

  lemma {:induction false} StringTrichotomy(a: string, b: string)
    ensures a == b || StringLess(a, b) || StringLess(b, a)
    ensures StringLess(a, b) ==> a != b && !StringLess(b, a)
  {
    if |a| > 0 && |b| > 0 {
      StringTrichotomy(a[1..], b[1..]);
      assert a == [a[0]] + a[1..] && b == [b[0]] + b[1..];
    }
  }

  lemma ValueTrichotomy(a: Value, b: Value)
    ensures a == b || ValueLess(a, b) || ValueLess(b, a)
    ensures ValueLess(a, b) ==> a != b && !ValueLess(b, a)
  {
    if a.StrVal? && b.StrVal? {
      StringTrichotomy(a.s, b.s);
    }
  }

  function Negate(t: Truth): Truth {
    match t
    case True => False
    case False => True
    case Unknown => Unknown
  }

  /******* What the operators ask *******/

  /** The comparison an operator stands for, whatever its spelling.  EQUAL_LIST asks nothing here: its
      list is not read by the SQL side. */
  predicate Compares(o: OpsType, x: Value, y: Value) {
    match o
    case Equal => x == y
    case EqualList => false
    case Large => ValueLess(y, x)
    case LargeOrEqual => !ValueLess(x, y)
    case Less => ValueLess(x, y)
    case LessOrEqual => !ValueLess(y, x)
  }

  // The same in three-valued logic: a comparison with NULL is Unknown.
  function Asks(o: OpsType, a: Option<Value>, b: Option<Value>): Truth {
    if a.None? || b.None? then Unknown else ToTruth(Compares(o, a.value, b.value))
  }

  /** Both columns of the operator table mean what they should: the first the comparison, the second, for
      NOT, its complement. */
  lemma SymbolMeans(o: OpsType, negated: bool, a: Option<Value>, b: Option<Value>)
    requires !o.EqualList?
    ensures SqlCompare(OpsSymbol(o, negated), a, b) == if negated then Negate(Asks(o, a, b)) else Asks(o, a, b)
  {
    if a.Some? && b.Some? {
      ValueTrichotomy(a.value, b.value);
      ValueTrichotomy(b.value, a.value);
    }
  }

  /** The second column of the operator table complements the first, in SQL's three-valued logic. */
  lemma NegatedOperatorComplements(o: OpsType, a: Option<Value>, b: Option<Value>)
    requires !o.EqualList?
    ensures SqlCompare(OpsSymbol(o, true), a, b) == Negate(SqlCompare(OpsSymbol(o, false), a, b))
  {
    SymbolMeans(o, true, a, b);
    SymbolMeans(o, false, a, b);
  }

  // The first place where two strings part.
  predicate PartsAt(a: string, b: string, k: nat) {
    k <= |a| && k < |b| && a[..k] == b[..k] && (k == |a| || a[k] < b[k])
  }

  lemma {:induction false} StringLessIff(a: string, b: string)
    ensures StringLess(a, b) <==> exists k: nat :: PartsAt(a, b, k)
  {
    if |a| == 0 || |b| == 0 || a[0] < b[0] {
      assert |b| > 0 ==> PartsAt(a, b, 0);
    } else {
      StringLessIff(a[1..], b[1..]);
      if a[0] == b[0] { PartsShift(a, b); }
    }
  }

  lemma PartsShift(a: string, b: string)
    requires |a| > 0 && |b| > 0 && a[0] == b[0]
    ensures (exists k: nat :: PartsAt(a, b, k)) <==> exists k: nat :: PartsAt(a[1..], b[1..], k)
  {
    forall k: nat ensures PartsAt(a[1..], b[1..], k) <==> PartsAt(a, b, k + 1) {
      if k < |a| && k < |b| {
        assert a[..k + 1] == [a[0]] + a[1..][..k] && b[..k + 1] == [b[0]] + b[1..][..k];
        assert a[..k + 1][1..] == a[1..][..k] && b[..k + 1][1..] == b[1..][..k];
      }
    }
    if exists k: nat :: PartsAt(a, b, k) {
      var k: nat :| PartsAt(a, b, k);
      assert PartsAt(a, b, (k - 1) + 1) && PartsAt(a[1..], b[1..], k - 1);
    }
  }

  /** The order of values: numbers by size, strings as in a dictionary, and numbers before strings. */
  lemma ValueLessIff(a: Value, b: Value)
    ensures ValueLess(a, b) <==>
      (a.IntVal? && b.IntVal? && a.n < b.n) || (a.IntVal? && b.StrVal?)
      || (a.StrVal? && b.StrVal? && exists k: nat :: PartsAt(a.s, b.s, k))
  {
    if a.StrVal? && b.StrVal? { StringLessIff(a.s, b.s); }
  }
}
