/** Values shared by every other module: JSON scalars as Python sees them, targeting
    rules, and Python's `==` on each of them. */
module Base {

  datatype Option<+T> = None | Some(value: T)

  /** The three environments, in declaration order. */
  datatype Env = Development | Staging | Production

  const ENVS: seq<Env> := [Development, Staging, Production]

  datatype FlagType = Boolean | Text | Number

  /** The canonical text of a UUID. */
  type Uuid = string

  /** A flag value: one of the scalars bool, int, float and str. */
  datatype Value = Bool(b: bool) | Int(i: int) | Float(r: real) | Str(s: string)

  /** One targeting rule as the stored dict holds it; `None` is an absent key. */
  datatype Rule = Rule(attribute: Option<string>, operator: Option<string>,
                       values: seq<Value>, value: Option<Value>)

  /** What one JSON column or one entry of an audit dict can hold. */
  datatype Datum = Null | Scalar(v: Value) | RuleList(rs: seq<Rule>)

  // ----- Python equality -----

  /** bool is a subclass of int, and int and float compare by numeric value. */
  function Num(v: Value): real
    requires !v.Str?
  {
    match v
    case Bool(b) => if b then 1.0 else 0.0
    case Int(i) => i as real
    case Float(r) => r
  }

  predicate PyEq(x: Value, y: Value) {
    if x.Str? || y.Str? then x == y else Num(x) == Num(y)
  }

  predicate PyEqSeq(xs: seq<Value>, ys: seq<Value>) {
    |xs| == |ys| && forall i :: 0 <= i < |xs| ==> PyEq(xs[i], ys[i])
  }

  predicate PyEqOpt(x: Option<Value>, y: Option<Value>) {
    if x.Some? && y.Some? then PyEq(x.value, y.value) else x == y
  }

  predicate PyEqRule(x: Rule, y: Rule) {
    && x.attribute == y.attribute && x.operator == y.operator
    && PyEqSeq(x.values, y.values) && PyEqOpt(x.value, y.value)
  }

  predicate PyEqDatum(x: Datum, y: Datum) {
    match (x, y)
    case (Scalar(a), Scalar(b)) => PyEq(a, b)
    case (RuleList(a), RuleList(b)) => |a| == |b| && forall i :: 0 <= i < |a| ==> PyEqRule(a[i], b[i])
    case (_, _) => x == y
  }

  lemma PyEqIsEquivalence(x: Datum, y: Datum, z: Datum)
    ensures PyEqDatum(x, x)
    ensures PyEqDatum(x, y) ==> PyEqDatum(y, x)
    ensures PyEqDatum(x, y) && PyEqDatum(y, z) ==> PyEqDatum(x, z)
  {
  }

  // ----- Declared types -----

  /** isinstance checks; a bool is never a number here although Python's bool is an int. */
  predicate HasType(v: Value, t: FlagType) {
    match t
    case Boolean => v.Bool?
    case Number => v.Int? || v.Float?
    case Text => v.Str?
  }

  /** Within one declared type only numbers have two spellings of an equal value. */
  lemma TypedEquality(x: Value, y: Value, t: FlagType)
    requires HasType(x, t) && HasType(y, t)
    ensures PyEq(x, y) <==> x == y || (t == Number && Num(x) == Num(y))
  {
  }

  function TypeName(t: FlagType): string {
    match t
    case Boolean => "boolean"
    case Text => "string"
    case Number => "number"
  }

  function TypeOfName(s: string): (t: FlagType)
    ensures forall u :: s == TypeName(u) ==> t == u
  {
    if s == "boolean" then Boolean else if s == "string" then Text else Number
  }
}
