/** What one targeting rule accepts, operator by operator, and what Python's `==` cannot tell apart, in
    terms of the attribute, the operands and their texts alone. */
module Targeting {
  import opened Base
  import opened Keys
  import opened Engine

  // ----- Python equality by normal form -----

  /** A value with its spelling forgotten: every bool and number as the real it equals. */
  function Plain(v: Value): Value {
    match v
    case Str(_) => v
    case Bool(b) => Float(if b then 1.0 else 0.0)
    case Int(i) => Float(i as real)
    case Float(_) => v
  }

  function PlainAll(vs: seq<Value>): seq<Value> {
    seq(|vs|, i requires 0 <= i < |vs| => Plain(vs[i]))
  }

  function PlainRule(r: Rule): Rule {
    Rule(r.attribute, r.operator, PlainAll(r.values), if r.value.Some? then Some(Plain(r.value.value)) else None)
  }

  function PlainDatum(d: Datum): Datum {
    match d
    case Null => Null
    case Scalar(v) => Scalar(Plain(v))
    case RuleList(rs) => RuleList(seq(|rs|, i requires 0 <= i < |rs| => PlainRule(rs[i])))
  }

  lemma PyEqIffPlain(x: Value, y: Value)
    ensures PyEq(x, y) <==> Plain(x) == Plain(y)
  {
  }

  lemma PyEqSeqIffPlain(xs: seq<Value>, ys: seq<Value>)
    ensures PyEqSeq(xs, ys) <==> PlainAll(xs) == PlainAll(ys)
  {
    hide Plain, PyEq;
    if PyEqSeq(xs, ys) {
      forall i | 0 <= i < |xs| ensures Plain(xs[i]) == Plain(ys[i]) {
        PyEqIffPlain(xs[i], ys[i]);
      }
    }
    if PlainAll(xs) == PlainAll(ys) {
      assert |PlainAll(xs)| == |xs| && |PlainAll(ys)| == |ys|;
      forall i | 0 <= i < |xs| ensures PyEq(xs[i], ys[i]) {
        assert PlainAll(xs)[i] == PlainAll(ys)[i];
        PyEqIffPlain(xs[i], ys[i]);
      }
    }
  }

  lemma PyEqRuleIffPlain(x: Rule, y: Rule)
    ensures PyEqRule(x, y) <==> PlainRule(x) == PlainRule(y)
  {
    hide Plain, PyEq, PyEqSeq, PlainAll;
    PyEqSeqIffPlain(x.values, y.values);
    if x.value.Some? && y.value.Some? {
      PyEqIffPlain(x.value.value, y.value.value);
    }
  }

  /** Two attribute values are equal in Python if and only if they have one normal form: same kind, same
      length, same names, texts equal to the letter, bools and numbers equal as reals. */
  lemma PyEqDatumIffPlain(x: Datum, y: Datum)
    ensures PyEqDatum(x, y) <==> PlainDatum(x) == PlainDatum(y)
  {
    hide Plain, PyEq, PyEqRule, PlainRule;
    match (x, y)
    case (Scalar(a), Scalar(b)) => PyEqIffPlain(a, b);
    case (RuleList(a), RuleList(b)) =>
      var pa, pb := PlainDatum(x).rs, PlainDatum(y).rs;
      assert |pa| == |a| && |pb| == |b|;
      if PyEqDatum(x, y) {
        forall i | 0 <= i < |a| ensures pa[i] == pb[i] {
          PyEqRuleIffPlain(a[i], b[i]);
        }
      }
      if pa == pb {
        forall i | 0 <= i < |a| ensures PyEqRule(a[i], b[i]) {
          assert pa[i] == pb[i];
          PyEqRuleIffPlain(a[i], b[i]);
        }
      }
    case (_, _) =>
  }

  /** A value with one spelling only. */
  predicate OneSpelling(v: Value) {
    v.Str? || v.Bool?
  }

  predicate RuleOfOneSpelling(r: Rule) {
    && (forall i :: 0 <= i < |r.values| ==> OneSpelling(r.values[i]))
    && (r.value.Some? ==> OneSpelling(r.value.value))
  }

  predicate RulesOfOneSpelling(rs: seq<Rule>) {
    forall i :: 0 <= i < |rs| ==> RuleOfOneSpelling(rs[i])
  }

  lemma PyEqExact(x: Value, y: Value)
    requires OneSpelling(x) && OneSpelling(y)
    ensures PyEq(x, y) <==> x == y
  {
  }

  lemma PyEqRuleExact(x: Rule, y: Rule)
    requires RuleOfOneSpelling(x) && RuleOfOneSpelling(y)
    ensures PyEqRule(x, y) <==> x == y
  {
    hide OneSpelling, PyEq;
    if PyEqRule(x, y) {
      forall i | 0 <= i < |x.values| ensures x.values[i] == y.values[i] {
        PyEqExact(x.values[i], y.values[i]);
      }
      if x.value.Some? {
        PyEqExact(x.value.value, y.value.value);
      }
    }
    if x == y {
      forall i | 0 <= i < |x.values| ensures PyEq(x.values[i], y.values[i]) {
        PyEqExact(x.values[i], y.values[i]);
      }
      if x.value.Some? {
        PyEqExact(x.value.value, y.value.value);
      }
    }
  }

  /** Rule lists that hold texts and bools only are equal in Python if and only if they are identical. */
  lemma PyEqRulesExact(xs: seq<Rule>, ys: seq<Rule>)
    requires RulesOfOneSpelling(xs) && RulesOfOneSpelling(ys)
    ensures PyEqDatum(RuleList(xs), RuleList(ys)) <==> xs == ys
  {
    hide RuleOfOneSpelling, PyEqRule;
    if |xs| == |ys| {
      forall i | 0 <= i < |xs| ensures PyEqRule(xs[i], ys[i]) <==> xs[i] == ys[i] {
        PyEqRuleExact(xs[i], ys[i]);
      }
    }
  }

  // ----- Texts of operands -----

  /** The number a string of decimal digits stands for. */
  function Numeral(s: string): int {
    if s == "" then 0 else 10 * Numeral(s[..|s| - 1]) + (s[|s| - 1] as int - '0' as int)
  }

  predicate Digits(s: string) {
    s != "" && (forall i :: 0 <= i < |s| ==> '0' <= s[i] <= '9') && (|s| > 1 ==> s[0] != '0')
  }

  /** `Decimal` writes a number in digits, without leading zeros, and that numeral stands for it. */
  lemma {:induction false} DecimalReadsBack(n: nat)
    ensures Digits(Decimal(n)) && Numeral(Decimal(n)) == n
  {
    var s := Decimal(n);
    if n < 10 {
      assert s[..0] == "";
    } else {
      DecimalReadsBack(n / 10);
      assert s[..|s| - 1] == Decimal(n / 10);
      assert forall i :: 0 <= i < |s| - 1 ==> s[i] == Decimal(n / 10)[i];
      if |Decimal(n / 10)| == 1 {
        assert Decimal(n / 10)[..0] == "";
      }
    }
  }

  /** The text of an operand: itself, True or False, or a signed numeral. */
  lemma OperandText(p: Platform, v: Value)
    ensures v.Str? ==> PyStr(p, v) == v.s
    ensures v.Bool? ==> PyStr(p, v) == if v.b then "True" else "False"
    ensures v.Int? && v.i >= 0 ==> Digits(PyStr(p, v)) && Numeral(PyStr(p, v)) == v.i
    ensures v.Int? && v.i < 0 ==>
      var t := PyStr(p, v);
      |t| > 1 && t[0] == '-' && Digits(t[1..]) && Numeral(t[1..]) == -v.i
  {
    if v.Int? {
      DecimalReadsBack(if v.i < 0 then -v.i else v.i);
    }
  }

  // ----- What one rule accepts -----

  /** What the rule reads: the request's user id, or the context's entry. */
  predicate Reads(rule: Rule, userId: string, ctx: Context, a: Attr) {
    && rule.attribute.Some? && !a.NoneAttr?
    && if rule.attribute.value == "user_id" then a == ScalarAttr(Str(userId))
       else rule.attribute.value in ctx && ctx[rule.attribute.value] == a
  }

  /** A live flag with this one rule. */
  predicate Only(s: Snapshot, rule: Rule) {
    !s.archived && s.enabled && s.rules == [rule]
  }

  ghost predicate Targeted(p: Platform, s: Snapshot, userId: string, ctx: Context) {
    Evaluate(p, s, userId, ctx).reason == TargetingMatch
  }

  lemma OneRule(p: Platform, s: Snapshot, rule: Rule, userId: string, ctx: Context)
    requires Only(s, rule)
    ensures Targeted(p, s, userId, ctx) <==> Matches(p, rule, userId, ctx)
    ensures Targeted(p, s, userId, ctx) ==> Evaluate(p, s, userId, ctx).value == rule.value
  {
    assert Scan(p, [rule], userId, ctx) == if Matches(p, rule, userId, ctx) then Some(rule) else None;
  }

  /** `in` accepts exactly the values that some operand equals in Python, and `not_in` exactly the others. */
  lemma Membership(p: Platform, s: Snapshot, rule: Rule, userId: string, ctx: Context, a: Attr)
    requires Only(s, rule) && Reads(rule, userId, ctx, a)
    ensures rule.operator == Some("in") ==>
      (Targeted(p, s, userId, ctx) <==>
        exists i :: 0 <= i < |rule.values| && a.ScalarAttr? && Plain(a.v) == Plain(rule.values[i]))
    ensures rule.operator == Some("not_in") ==>
      (Targeted(p, s, userId, ctx) <==>
        forall i :: 0 <= i < |rule.values| ==> !(a.ScalarAttr? && Plain(a.v) == Plain(rule.values[i])))
  {
    hide Plain, PyEq;
    OneRule(p, s, rule, userId, ctx);
    forall i | 0 <= i < |rule.values|
      ensures AttrEq(a, rule.values[i]) <==> a.ScalarAttr? && Plain(a.v) == Plain(rule.values[i])
    {
      if a.ScalarAttr? { PyEqIffPlain(a.v, rule.values[i]); }
    }
    assert Actual(rule, userId, ctx) == a;
    assert AttrIn(a, rule.values) <==> exists i :: 0 <= i < |rule.values| && AttrEq(a, rule.values[i]);
  }

  /** `eq` and `neq` look at the first operand only: without one neither accepts anything, and with one
      they accept complementary values. */
  lemma FirstOperand(p: Platform, s: Snapshot, rule: Rule, userId: string, ctx: Context, a: Attr)
    requires Only(s, rule) && Reads(rule, userId, ctx, a)
    ensures rule.operator == Some("eq") ==>
      (Targeted(p, s, userId, ctx) <==>
        rule.values != [] && a.ScalarAttr? && Plain(a.v) == Plain(rule.values[0]))
    ensures rule.operator == Some("neq") ==>
      (Targeted(p, s, userId, ctx) <==>
        rule.values != [] && !(a.ScalarAttr? && Plain(a.v) == Plain(rule.values[0])))
  {
    hide Plain, PyEq;
    OneRule(p, s, rule, userId, ctx);
    if rule.values != [] && a.ScalarAttr? {
      PyEqIffPlain(a.v, rule.values[0]);
    }
  }

  ghost predicate Splits(t: string, x: string, w: string, y: string) {
    t == x + w + y
  }

  ghost predicate HasInside(t: string, w: string) { exists x, y :: Splits(t, x, w, y) }
  ghost predicate HasInFront(t: string, w: string) { exists y :: Splits(t, "", w, y) }
  ghost predicate HasAtEnd(t: string, w: string) { exists x :: Splits(t, x, w, "") }

  lemma OccursIffSplits(w: string, t: string)
    ensures Occurs(w, t) <==> HasInside(t, w)
  {
    if Occurs(w, t) {
      var i :| 0 <= i <= |t| && OccursAt(w, t, i);
      assert t == t[..i] + w + t[i + |w|..];
      assert Splits(t, t[..i], w, t[i + |w|..]);
    }
    if x, y :| Splits(t, x, w, y) {
      assert t[|x|..|x| + |w|] == w;
      assert OccursAt(w, t, |x|);
    }
  }

  lemma PrefixIffSplits(w: string, t: string)
    ensures w <= t <==> HasInFront(t, w)
  {
    if w <= t {
      assert t == "" + w + t[|w|..];
      assert Splits(t, "", w, t[|w|..]);
    }
    if y :| Splits(t, "", w, y) {
      assert t == w + y;
    }
  }

  lemma SuffixIffSplits(w: string, t: string)
    ensures EndsWith(t, w) <==> HasAtEnd(t, w)
  {
    if EndsWith(t, w) {
      assert t == t[..|t| - |w|] + w + "";
      assert Splits(t, t[..|t| - |w|], w, "");
    }
    if x :| Splits(t, x, w, "") {
      assert t == x + w;
    }
  }

  /** `contains`, `starts_with` and `ends_with` accept exactly the texts that some operand's text can be cut
      out of, out of the front, or out of the end; nothing that is not a text. */
  lemma Substrings(p: Platform, s: Snapshot, rule: Rule, userId: string, ctx: Context, a: Attr)
    requires Only(s, rule) && Reads(rule, userId, ctx, a)
    ensures rule.operator == Some("contains") ==>
      (Targeted(p, s, userId, ctx) <==>
        (a.ScalarAttr? && a.v.Str? &&
         exists i :: 0 <= i < |rule.values| && HasInside(a.v.s, PyStr(p, rule.values[i]))))
    ensures rule.operator == Some("starts_with") ==>
      (Targeted(p, s, userId, ctx) <==>
        (a.ScalarAttr? && a.v.Str? &&
         exists i :: 0 <= i < |rule.values| && HasInFront(a.v.s, PyStr(p, rule.values[i]))))
    ensures rule.operator == Some("ends_with") ==>
      (Targeted(p, s, userId, ctx) <==>
        (a.ScalarAttr? && a.v.Str? &&
         exists i :: 0 <= i < |rule.values| && HasAtEnd(a.v.s, PyStr(p, rule.values[i]))))
  {
    OneRule(p, s, rule, userId, ctx);
    hide Occurs, EndsWith, HasInside, HasInFront, HasAtEnd, PyStr, Evaluate;
    if a.ScalarAttr? && a.v.Str? {
      var t := a.v.s;
      forall i | 0 <= i < |rule.values|
        ensures Occurs(PyStr(p, rule.values[i]), t) <==> HasInside(t, PyStr(p, rule.values[i]))
        ensures PyStr(p, rule.values[i]) <= t <==> HasInFront(t, PyStr(p, rule.values[i]))
        ensures EndsWith(t, PyStr(p, rule.values[i])) <==> HasAtEnd(t, PyStr(p, rule.values[i]))
      {
        OccursIffSplits(PyStr(p, rule.values[i]), t);
        PrefixIffSplits(PyStr(p, rule.values[i]), t);
        SuffixIffSplits(PyStr(p, rule.values[i]), t);
      }
    }
  }

  /** A rule whose attribute the request does not carry, or with any other operator, accepts nobody. */
  lemma NothingElse(p: Platform, s: Snapshot, rule: Rule, userId: string, ctx: Context)
    requires Only(s, rule)
    requires (forall a :: !Reads(rule, userId, ctx, a))
          || rule.operator !in {Some("in"), Some("not_in"), Some("eq"), Some("neq"),
                                Some("contains"), Some("starts_with"), Some("ends_with")}
    ensures !Targeted(p, s, userId, ctx)
  {
    OneRule(p, s, rule, userId, ctx);
    if forall a :: !Reads(rule, userId, ctx, a) {
      assert !Reads(rule, userId, ctx, Actual(rule, userId, ctx));
    }
  }

  /** A rule on `user_id` takes no notice of the context, and a rule on anything else none of the user id. */
  lemma UserIdOrContext(p: Platform, s: Snapshot, rule: Rule, u1: string, u2: string, c1: Context, c2: Context)
    requires Only(s, rule)
    ensures rule.attribute == Some("user_id") ==> (Targeted(p, s, u1, c1) <==> Targeted(p, s, u1, c2))
    ensures rule.attribute != Some("user_id") ==> (Targeted(p, s, u1, c1) <==> Targeted(p, s, u2, c1))
  {
    OneRule(p, s, rule, u1, c1);
    OneRule(p, s, rule, u1, c2);
    OneRule(p, s, rule, u2, c1);
  }

  // ----- Rules that Python calls equal -----

  predicate ByEquality(r: Rule) {
    r.operator in {Some("in"), Some("not_in"), Some("eq"), Some("neq")}
  }

  lemma AttrEqAlike(a: Attr, x: Value, y: Value)
    requires PyEq(x, y)
    ensures AttrEq(a, x) <==> AttrEq(a, y)
  {
  }

  lemma EqualRulesMatchAlike(p: Platform, x: Rule, y: Rule, userId: string, ctx: Context)
    requires PyEqRule(x, y) && ByEquality(x)
    ensures Matches(p, x, userId, ctx) <==> Matches(p, y, userId, ctx)
  {
    hide AttrEq, PyEq;
    var a := Actual(x, userId, ctx);
    forall i | 0 <= i < |x.values| ensures AttrEq(a, x.values[i]) <==> AttrEq(a, y.values[i]) {
      AttrEqAlike(a, x.values[i], y.values[i]);
    }
  }

  lemma {:induction false} EqualListsScanAlike(p: Platform, xs: seq<Rule>, ys: seq<Rule>, userId: string, ctx: Context)
    requires PyEqDatum(RuleList(xs), RuleList(ys)) && forall i :: 0 <= i < |xs| ==> ByEquality(xs[i])
    ensures
      var hx, hy := Scan(p, xs, userId, ctx), Scan(p, ys, userId, ctx);
      (hx.Some? <==> hy.Some?) && (hx.Some? ==> PyEqRule(hx.value, hy.value))
  {
    hide Matches, PyEqRule, ByEquality;
    if xs != [] {
      EqualRulesMatchAlike(p, xs[0], ys[0], userId, ctx);
      EqualListsScanAlike(p, xs[1..], ys[1..], userId, ctx);
    }
  }

  /** Rule lists that Python calls equal target the same users, as long as their operators compare whole
      values: in every context the two give one reason and values Python calls equal. */
  lemma EqualListsTargetAlike(p: Platform, s: Snapshot, ys: seq<Rule>, userId: string, ctx: Context)
    requires PyEqDatum(RuleList(s.rules), RuleList(ys)) && forall i :: 0 <= i < |s.rules| ==> ByEquality(s.rules[i])
    ensures
      var e, f := Evaluate(p, s, userId, ctx), Evaluate(p, s.(rules := ys), userId, ctx);
      e.reason == f.reason && PyEqOpt(e.value, f.value)
  {
    EqualListsScanAlike(p, s.rules, ys, userId, ctx);
  }

  function Prefixed(v: Value): Rule {
    Rule(Some("build"), Some("starts_with"), [v], Some(Bool(true)))
  }

  /** With the operators on texts they need not: the operands 1 and true are equal, and their texts are not. */
  lemma EqualTextRulesCanDiffer(p: Platform, s: Snapshot)
    requires !s.archived && s.enabled
    ensures
      var ctx: Context := map["build" := ScalarAttr(Str("1.2"))];
      && PyEqDatum(RuleList([Prefixed(Int(1))]), RuleList([Prefixed(Bool(true))]))
      && Targeted(p, s.(rules := [Prefixed(Int(1))]), "u", ctx)
      && !Targeted(p, s.(rules := [Prefixed(Bool(true))]), "u", ctx)
  {
    var ctx: Context := map["build" := ScalarAttr(Str("1.2"))];
    var x, y := Prefixed(Int(1)), Prefixed(Bool(true));
    OneRule(p, s.(rules := [x]), x, "u", ctx);
    OneRule(p, s.(rules := [y]), y, "u", ctx);
    assert PyStr(p, x.values[0]) == "1" && PyStr(p, y.values[0]) == "True";
    assert "1" <= "1.2" && !("True" <= "1.2");
  }
}
