/** The evaluation engine: targeting rules, precedence, and rollout by hash bucket. */
module Engine {
  import opened Base
  import opened Keys

  const BUCKET_SPACE: nat := 100

  type Digest = d: seq<nat> | |d| == 32 && forall i :: 0 <= i < 32 ==> d[i] < 256
    witness seq(32, _ => 0)

  /** What the platform supplies: SHA-256 of a string, and Python's text of a float. */
  datatype Platform = Platform(sha256: string -> Digest, floatText: real -> string)

  /** A context entry. Lists and objects equal no scalar and are no string, so one tag covers them. */
  datatype Attr = NoneAttr | ScalarAttr(v: Value) | NestedAttr

  type Context = map<string, Attr>

  datatype Reason = ArchivedReason | DisabledReason | TargetingMatch | OutsideRollout | InRollout

  datatype Snapshot = Snapshot(key: string, ftype: FlagType, defaultValue: Value, enabled: bool,
                               value: Value, rollout: int, rules: seq<Rule>, archived: bool)

  datatype Evaluation = Evaluation(key: string, value: Option<Value>, reason: Reason)

  // ----- Buckets -----

  type Bytes4 = (int, int, int, int)

  function BigEndian(b: Bytes4): int {
    ((b.0 * 256 + b.1) * 256 + b.2) * 256 + b.3
  }

  /** The first four bytes of a digest. */
  function Prefix(d: Digest): Bytes4 {
    (d[0], d[1], d[2], d[3])
  }

  function BucketFor(p: Platform, flagKey: string, userId: string): (b: nat)
    ensures b < BUCKET_SPACE
  {
    BigEndian(Prefix(p.sha256(HashInput(flagKey, userId)))) % BUCKET_SPACE
  }

  // ----- Rules -----

  function IntText(i: int): string {
    if i < 0 then "-" + Decimal(-i) else Decimal(i)
  }

  /** Python's `str(v)`. */
  function PyStr(p: Platform, v: Value): string {
    match v
    case Bool(b) => if b then "True" else "False"
    case Int(i) => IntText(i)
    case Float(r) => p.floatText(r)
    case Str(s) => s
  }

  predicate OccursAt(needle: string, hay: string, i: int) {
    0 <= i <= |hay| - |needle| && hay[i..i + |needle|] == needle
  }

  predicate Occurs(needle: string, hay: string) {
    exists i :: 0 <= i <= |hay| && OccursAt(needle, hay, i)
  }

  predicate EndsWith(hay: string, tail: string) {
    |tail| <= |hay| && hay[|hay| - |tail|..] == tail
  }

  predicate AttrEq(a: Attr, v: Value) {
    a.ScalarAttr? && PyEq(a.v, v)
  }

  predicate AttrIn(a: Attr, vs: seq<Value>) {
    exists i :: 0 <= i < |vs| && AttrEq(a, vs[i])
  }

  function Actual(rule: Rule, userId: string, ctx: Context): Attr {
    if rule.attribute == Some("user_id") then ScalarAttr(Str(userId))
    else if rule.attribute.Some? && rule.attribute.value in ctx then ctx[rule.attribute.value]
    else NoneAttr
  }

  const OPERATORS: set<string> := {"in", "not_in", "eq", "neq", "contains", "starts_with", "ends_with"}

  /** What `TargetingRule` accepts: an attribute, one of the operators, and a value. */
  predicate ValidRule(r: Rule) {
    r.attribute.Some? && r.operator.Some? && r.operator.value in OPERATORS && r.value.Some?
  }

  predicate ValidRules(rs: seq<Rule>) {
    forall i :: 0 <= i < |rs| ==> ValidRule(rs[i])
  }

  predicate Matches(p: Platform, rule: Rule, userId: string, ctx: Context) {
    var a := Actual(rule, userId, ctx);
    if a.NoneAttr? || rule.operator.None? then false
    else
      var op, vs := rule.operator.value, rule.values;
      if op == "in" then AttrIn(a, vs)
      else if op == "not_in" then !AttrIn(a, vs)
      else if op == "eq" then |vs| > 0 && AttrEq(a, vs[0])
      else if op == "neq" then |vs| > 0 && !AttrEq(a, vs[0])
      else if a.NestedAttr? || !a.v.Str? then false
      else if op == "contains" then exists i :: 0 <= i < |vs| && Occurs(PyStr(p, vs[i]), a.v.s)
      else if op == "starts_with" then exists i :: 0 <= i < |vs| && PyStr(p, vs[i]) <= a.v.s
      else if op == "ends_with" then exists i :: 0 <= i < |vs| && EndsWith(a.v.s, PyStr(p, vs[i]))
      else false
  }

  /** The scan over the rules: the first one that matches. */
  function Scan(p: Platform, rules: seq<Rule>, userId: string, ctx: Context): Option<Rule> {
    if rules == [] then None
    else if Matches(p, rules[0], userId, ctx) then Some(rules[0])
    else Scan(p, rules[1..], userId, ctx)
  }

  function Evaluate(p: Platform, s: Snapshot, userId: string, ctx: Context): Evaluation {
    if s.archived then Evaluation(s.key, Some(s.defaultValue), ArchivedReason)
    else if !s.enabled then Evaluation(s.key, Some(s.defaultValue), DisabledReason)
    else
      var hit := Scan(p, s.rules, userId, ctx);
      if hit.Some? then Evaluation(s.key, hit.value.value, TargetingMatch)
      else if BucketFor(p, s.key, userId) >= s.rollout then
        Evaluation(s.key, Some(s.defaultValue), OutsideRollout)
      else Evaluation(s.key, Some(s.value), InRollout)
  }

  function EvaluateAll(p: Platform, ss: seq<Snapshot>, userId: string, ctx: Context): (es: seq<Evaluation>)
    ensures |es| == |ss|
    ensures forall i :: 0 <= i < |ss| ==> es[i] == Evaluate(p, ss[i], userId, ctx)
  {
    seq(|ss|, i requires 0 <= i < |ss| => Evaluate(p, ss[i], userId, ctx))
  }

  // ----- First match -----

  ghost predicate FirstMatchAt(p: Platform, rules: seq<Rule>, userId: string, ctx: Context, i: int) {
    && 0 <= i < |rules| && Matches(p, rules[i], userId, ctx)
    && forall j :: 0 <= j < i ==> !Matches(p, rules[j], userId, ctx)
  }

  ghost predicate NoMatch(p: Platform, rules: seq<Rule>, userId: string, ctx: Context) {
    forall i :: 0 <= i < |rules| ==> !Matches(p, rules[i], userId, ctx)
  }

  /** The scan finds nothing exactly when no rule matches, and otherwise it finds the rule at
      the least matching index, never a later one. */
  lemma {:induction false} ScanIsFirstMatch(p: Platform, rules: seq<Rule>, userId: string, ctx: Context)
    ensures Scan(p, rules, userId, ctx).None? <==> NoMatch(p, rules, userId, ctx)
    ensures forall i :: FirstMatchAt(p, rules, userId, ctx, i) ==> Scan(p, rules, userId, ctx) == Some(rules[i])
    ensures NoMatch(p, rules, userId, ctx) || exists i :: FirstMatchAt(p, rules, userId, ctx, i)
  {
    if rules != [] {
      if Matches(p, rules[0], userId, ctx) {
        assert FirstMatchAt(p, rules, userId, ctx, 0);
      } else {
        var rest := rules[1..];
        ScanIsFirstMatch(p, rest, userId, ctx);
        assert forall i :: 0 < i < |rules| ==> rules[i] == rest[i - 1];
        forall i | FirstMatchAt(p, rules, userId, ctx, i) ensures FirstMatchAt(p, rest, userId, ctx, i - 1) {
          assert forall j :: 0 <= j < i - 1 ==> rest[j] == rules[j + 1];
        }
        if i :| FirstMatchAt(p, rest, userId, ctx, i) {
          assert FirstMatchAt(p, rules, userId, ctx, i + 1);
        }
      }
    }
  }

  /** The whole precedence order as one case distinction on observable conditions. */
  lemma Precedence(p: Platform, s: Snapshot, userId: string, ctx: Context)
    ensures
      var r := Evaluate(p, s, userId, ctx);
      var noRule := NoMatch(p, s.rules, userId, ctx);
      var within := BucketFor(p, s.key, userId) < s.rollout;
      && r.key == s.key
      && (r.reason == ArchivedReason <==> s.archived)
      && (r.reason == DisabledReason <==> !s.archived && !s.enabled)
      && (r.reason == TargetingMatch <==> !s.archived && s.enabled && !noRule)
      && (r.reason == OutsideRollout <==> !s.archived && s.enabled && noRule && !within)
      && (r.reason == InRollout <==> !s.archived && s.enabled && noRule && within)
      && (r.reason in {ArchivedReason, DisabledReason, OutsideRollout} ==> r.value == Some(s.defaultValue))
      && (r.reason == InRollout ==> r.value == Some(s.value))
      && (r.reason == TargetingMatch ==>
            exists i :: FirstMatchAt(p, s.rules, userId, ctx, i) && r.value == s.rules[i].value)
  {
    ScanIsFirstMatch(p, s.rules, userId, ctx);
  }

  // ----- Malformed rules are inert -----

  /** An unknown operator, or an attribute the request does not carry. */
  predicate Inert(rule: Rule, userId: string, ctx: Context) {
    || rule.operator.None? || rule.operator.value !in OPERATORS
    || Actual(rule, userId, ctx).NoneAttr?
  }

  /** The rules with every inert one deleted. */
  function Live(rules: seq<Rule>, userId: string, ctx: Context): seq<Rule> {
    if rules == [] then []
    else (if Inert(rules[0], userId, ctx) then [] else [rules[0]]) + Live(rules[1..], userId, ctx)
  }

  lemma {:induction false} ScanIgnoresInert(p: Platform, rules: seq<Rule>, userId: string, ctx: Context)
    ensures Scan(p, rules, userId, ctx) == Scan(p, Live(rules, userId, ctx), userId, ctx)
  {
    if rules != [] {
      ScanIgnoresInert(p, rules[1..], userId, ctx);
      var live := Live(rules[1..], userId, ctx);
      if Inert(rules[0], userId, ctx) {
        assert [] + live == live;
      } else {
        assert ([rules[0]] + live)[1..] == live;
      }
    }
  }

  /** Inserting or deleting inert rules, any number at any positions, changes no evaluation. */
  lemma MalformedRulesAreInert(p: Platform, s: Snapshot, rules: seq<Rule>, userId: string, ctx: Context)
    requires Live(rules, userId, ctx) == Live(s.rules, userId, ctx)
    ensures Evaluate(p, s.(rules := rules), userId, ctx) == Evaluate(p, s, userId, ctx)
  {
    ScanIgnoresInert(p, rules, userId, ctx);
    ScanIgnoresInert(p, s.rules, userId, ctx);
  }

  lemma {:induction false} LiveConcat(a: seq<Rule>, b: seq<Rule>, userId: string, ctx: Context)
    ensures Live(a + b, userId, ctx) == Live(a, userId, ctx) + Live(b, userId, ctx)
  {
    hide Inert;
    if a == [] {
      assert a + b == b;
    } else {
      assert (a + b)[0] == a[0] && (a + b)[1..] == a[1..] + b;
      LiveConcat(a[1..], b, userId, ctx);
    }
  }

  /** Inserting one rule with an unknown operator, or with an attribute that is neither `user_id` nor given a
      value by the context, changes no evaluation, at any position. */
  lemma InsertInert(p: Platform, s: Snapshot, at: nat, rule: Rule, userId: string, ctx: Context)
    requires at <= |s.rules|
    requires
      || rule.operator !in {Some("in"), Some("not_in"), Some("eq"), Some("neq"),
                            Some("contains"), Some("starts_with"), Some("ends_with")}
      || (rule.attribute != Some("user_id")
          && (rule.attribute.Some? && rule.attribute.value in ctx ==> ctx[rule.attribute.value] == NoneAttr))
    ensures Evaluate(p, s.(rules := s.rules[..at] + [rule] + s.rules[at..]), userId, ctx)
         == Evaluate(p, s, userId, ctx)
  {
    assert rule.operator.Some? && rule.operator.value in OPERATORS ==>
      rule.operator in {Some("in"), Some("not_in"), Some("eq"), Some("neq"),
                        Some("contains"), Some("starts_with"), Some("ends_with")};
    assert Inert(rule, userId, ctx);
    var a, b := s.rules[..at], s.rules[at..];
    LiveConcat(a + [rule], b, userId, ctx);
    LiveConcat(a, [rule], userId, ctx);
    LiveConcat(a, b, userId, ctx);
    assert Live([rule], userId, ctx) == [] by { assert [rule][1..] == []; }
    assert a + b == s.rules;
    MalformedRulesAreInert(p, s, a + [rule] + b, userId, ctx);
  }

  /** The module's own remark says falling through the rules "can only serve default_value".
      That holds exactly when the user is outside the rollout or both values agree. */
  lemma FallThroughServesDefault(p: Platform, s: Snapshot, userId: string, ctx: Context)
    requires !s.archived && s.enabled
    requires NoMatch(p, s.rules, userId, ctx)
    ensures Evaluate(p, s, userId, ctx).value == Some(s.defaultValue) <==>
            BucketFor(p, s.key, userId) >= s.rollout || s.value == s.defaultValue
  {
    ScanIsFirstMatch(p, s.rules, userId, ctx);
  }

  /** A flag that is on for everyone but pins one plan to false, by a rule the service accepts. */
  function PinnedOff(): Snapshot {
    var pin := Rule(Some("plan"), Some("eq"), [Str("free")], Some(Bool(false)));
    Snapshot("k", Boolean, Bool(false), true, Bool(true), 100, [pin], false)
  }

  /** The remark's other half, "never leak a feature on", fails too: a request that leaves the pinned
      attribute out of its context falls through the rule and is served true. */
  lemma MissingAttributeTurnsFlagOn(p: Platform)
    ensures ValidRules(PinnedOff().rules)
    ensures Evaluate(p, PinnedOff(), "u", map["plan" := ScalarAttr(Str("free"))]).value == Some(Bool(false))
    ensures Evaluate(p, PinnedOff(), "u", map[]).value == Some(Bool(true))
  {
    var s := PinnedOff();
    var pin := s.rules[0];
    var ctx: Context := map["plan" := ScalarAttr(Str("free"))];
    assert AttrEq(Actual(pin, "u", ctx), pin.values[0]);
    assert Scan(p, s.rules, "u", ctx) == Some(pin);
    assert !Matches(p, pin, "u", map[]);
    assert Scan(p, s.rules, "u", map[]) == Scan(p, [], "u", map[]);
  }

  // ----- Rollout -----

  ghost predicate Included(p: Platform, s: Snapshot, userId: string, ctx: Context) {
    Evaluate(p, s, userId, ctx).reason == InRollout
  }

  /** Changing only the percentage from `lo` up to `hi` adds exactly the users that no rule
      claims and whose bucket lies in [lo, hi), and removes nobody. */
  lemma WideningIsAdditive(p: Platform, s: Snapshot, lo: int, hi: int, userId: string, ctx: Context)
    requires lo <= hi
    ensures Included(p, s.(rollout := lo), userId, ctx) ==> Included(p, s.(rollout := hi), userId, ctx)
    ensures Included(p, s.(rollout := hi), userId, ctx) && !Included(p, s.(rollout := lo), userId, ctx) <==>
            && !s.archived && s.enabled && lo <= BucketFor(p, s.key, userId) < hi
            && NoMatch(p, s.rules, userId, ctx)
  {
    Precedence(p, s.(rollout := lo), userId, ctx);
    Precedence(p, s.(rollout := hi), userId, ctx);
  }

  /** 0 reaches nobody; 100 reaches everyone an enabled flag leaves to the rollout. */
  lemma RolloutEndpoints(p: Platform, s: Snapshot, userId: string, ctx: Context)
    ensures !Included(p, s.(rollout := 0), userId, ctx)
    ensures Evaluate(p, s.(rollout := 100), userId, ctx).reason != OutsideRollout
  {
  }

  // ----- Types -----

  /** Every result has the declared type unless a rule supplied it; a rule's value is passed
      through unchecked, so then the type is right exactly when that rule's is. */
  lemma ResultType(p: Platform, s: Snapshot, userId: string, ctx: Context)
    requires HasType(s.defaultValue, s.ftype) && HasType(s.value, s.ftype)
    ensures
      var r := Evaluate(p, s, userId, ctx);
      (r.value.Some? && HasType(r.value.value, s.ftype)) <==>
        (r.reason == TargetingMatch ==>
           exists i :: FirstMatchAt(p, s.rules, userId, ctx, i) &&
             s.rules[i].value.Some? && HasType(s.rules[i].value.value, s.ftype))
  {
    Precedence(p, s, userId, ctx);
    ScanIsFirstMatch(p, s.rules, userId, ctx);
  }
}
