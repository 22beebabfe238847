/** Reading a participant's catalog response (`crawler/lib.rs`). The parser is
    total: what it cannot read it keeps as a marker. */
module Parser {
  import opened Text
  import opened CatalogCore

  /** A JSON value. A number is kept as the text the crawler renders it to. */
  datatype Json =
    | Null
    | Bool(value: bool)
    | Number(text: string)
    | Str(content: string)
    | Arr(items: seq<Json>)
    | Obj(fields: map<string, Json>)

  function Get(v: Json, key: string): (r: Option<Json>) {
    if v.Obj? && key in v.fields then Some(v.fields[key]) else None
  }

  function GetString(v: Json, key: string): (r: Option<string>) {
    match Get(v, key)
    case Some(Str(s)) => Some(s)
    case _ => None
  }

  /** The items of an array-valued key; nothing when it is missing or not an array. */
  function GetItems(v: Json, key: string): (items: seq<Json>)
    ensures forall item :: item in items ==> item < v
  {
    match Get(v, key)
    case Some(Arr(items)) => items
    case _ => []
  }

  // ----- ODRL keys and scalars -----

  /** A value that stands for one or many entries, with `@list` and `@set`
      wrappers taken off. */
  function OneOrMany(v: Json): (entries: seq<Json>) {
    match v
    case Arr(items) => items
    case Obj(fields) =>
      if |fields| == 1 && "@list" in fields then OneOrMany(fields["@list"])
      else if |fields| == 1 && "@set" in fields then OneOrMany(fields["@set"])
      else [v]
    case _ => [v]
  }

  function Spellings(name: string): (keys: seq<string>) {
    [name, "odrl:" + name, ODRL_NS + name]
  }

  function PresentAt(v: Json, keys: seq<string>): (values: seq<Json>) {
    if keys == [] then []
    else
      (match Get(v, keys[0])
       case Some(value) => [value]
       case None => [])
      + PresentAt(v, keys[1..])
  }

  /** Every value `name` has in `v`, one per spelling present. */
  function AliasedAll(v: Json, name: string): (values: seq<Json>) {
    PresentAt(v, Spellings(name))
  }

  /** What the three spellings of `n` hold, in order. */
  function Held(f: map<string, Json>, n: string): (values: seq<Json>) {
    HeldAt(f, n) + HeldAt(f, "odrl:" + n) + HeldAt(f, ODRL_NS + n)
  }

  function HeldAt(f: map<string, Json>, key: string): (values: seq<Json>) {
    if key in f then [f[key]] else []
  }

  lemma AliasedIsHeld(f: map<string, Json>, n: string)
    ensures AliasedAll(Obj(f), n) == Held(f, n)
  {
    var keys := Spellings(n);
    assert keys[1..][0] == "odrl:" + n && keys[1..][1..][0] == ODRL_NS + n;
    assert PresentAt(Obj(f), keys[1..][1..][1..]) == [];
    assert PresentAt(Obj(f), keys[1..][1..]) == HeldAt(f, ODRL_NS + n);
    assert PresentAt(Obj(f), keys[1..]) == HeldAt(f, "odrl:" + n) + HeldAt(f, ODRL_NS + n);
  }

  function FlatOneOrMany(vs: seq<Json>): (entries: seq<Json>) {
    if vs == [] then [] else OneOrMany(vs[0]) + FlatOneOrMany(vs[1..])
  }

  lemma {:induction false} FlatAppend(xs: seq<Json>, ys: seq<Json>)
    ensures FlatOneOrMany(xs + ys) == FlatOneOrMany(xs) + FlatOneOrMany(ys)
  {
    if xs == [] {
      assert xs + ys == ys;
    } else {
      assert (xs + ys)[1..] == xs[1..] + ys;
      FlatAppend(xs[1..], ys);
    }
  }

  /** The entries of `name` under all its spellings, in spelling order. */
  function OneOrManyAliased(v: Json, name: string): (entries: seq<Json>) {
    FlatOneOrMany(AliasedAll(v, name))
  }

  predicate Has(v: Json, name: string) {
    AliasedAll(v, name) != []
  }

  /** The single string a JSON-LD value stands for, if there is one. */
  function JsonLdScalar(v: Json): (r: Option<string>) {
    match v
    case Str(s) => Some(s)
    case Number(text) => Some(text)
    case Bool(b) => Some(if b then "true" else "false")
    case Obj(fields) =>
      if "@value" in fields then
        var inner := fields["@value"];
        if inner.Str? || inner.Number? || inner.Bool? then JsonLdScalar(inner) else None
      else if fields.Keys <= {"@id", "@type"} then GetString(v, "@id")
      else None
    case Arr(items) => if |items| == 1 then JsonLdScalar(items[0]) else None
    case Null => None
  }

  datatype Field = Absent | Value(text: string) | Unreadable

  /** One scalar field; the same field under two spellings has no single reading. */
  function GetField(v: Json, name: string): (f: Field) {
    var values := AliasedAll(v, name);
    if |values| == 0 then Absent
    else if |values| > 1 then Unreadable
    else
      match JsonLdScalar(values[0])
      case Some(text) => Value(text)
      case None => Unreadable
  }

  // ----- Constraints -----

  const ATOMIC_KEYS := ["leftOperand", "operator", "rightOperand"]

  predicate HasAtomicKey(v: Json) {
    exists key | key in ATOMIC_KEYS :: Has(v, key)
  }

  function PresentCombinators(v: Json, candidates: seq<Combinator>): (present: seq<Combinator>) {
    if candidates == [] then []
    else (if Has(v, CombinatorName(candidates[0])) then [candidates[0]] else []) + PresentCombinators(v, candidates[1..])
  }

  /** The complete atomic triple of `v`, if it has one. */
  function Triple(v: Json): (c: Option<Constraint>)
    ensures c.Some? ==> c.value.Atomic?
  {
    match (GetField(v, "leftOperand"), GetField(v, "operator"), GetField(v, "rightOperand"))
    case (Value(left), Value(operator), Value(right)) => Some(Atomic(left, operator, right))
    case _ => None
  }

  /** `render` gives the raw text of a value, as kept in markers. */
  function ParseConstraint(render: Json -> string, v: Json, depth: nat): (c: Constraint)
    decreases if depth > MAX_CONSTRAINT_DEPTH then 0 else MAX_CONSTRAINT_DEPTH + 1 - depth
  {
    var groups := PresentCombinators(v, COMBINATORS);
    if depth > MAX_CONSTRAINT_DEPTH then Unmappable(render(v))
    else if |groups| > 1 || (HasAtomicKey(v) && groups != []) then Unmappable(render(v))
    else if Triple(v).Some? then Triple(v).value
    else if groups != [] then
      if depth >= MAX_CONSTRAINT_DEPTH then Unmappable(render(v))
      else
        var entries := OneOrManyAliased(v, CombinatorName(groups[0]));
        Logical(groups[0], seq(|entries|, i requires 0 <= i < |entries| => ParseConstraint(render, entries[i], depth + 1)))
    else Unmappable(render(v))
  }

  function ParseConstraints(render: Json -> string, entries: seq<Json>): (cs: seq<Constraint>) {
    seq(|entries|, i requires 0 <= i < |entries| => ParseConstraint(render, entries[i], 0))
  }

  // ----- Rules and policies -----

  function UnmappableRule(render: Json -> string, raw: Json): (rule: Rule) {
    Rule(UNMAPPABLE_ACTION, [Unmappable(render(raw))])
  }

  const RULE_LEVEL_KEYS := ["assignee", "target", "duty"]

  function JoinRaw(render: Json -> string, raws: seq<Json>): (text: string) {
    if raws == [] then "" else if |raws| == 1 then render(raws[0]) else render(raws[0]) + ", " + JoinRaw(render, raws[1..])
  }

  /** One marker per rule-level key the model has no place for. */
  function RuleLevelMarkers(render: Json -> string, v: Json, keys: seq<string>): (markers: seq<Constraint>) {
    if keys == [] then []
    else
      (if Has(v, keys[0]) then [Unmappable(keys[0] + ": " + JoinRaw(render, AliasedAll(v, keys[0])))] else [])
      + RuleLevelMarkers(render, v, keys[1..])
  }

  function RuleOf(render: Json -> string, v: Json): (rule: Rule) {
    if !v.Obj? then UnmappableRule(render, v)
    else
      var constraints := ParseConstraints(render, OneOrManyAliased(v, "constraint")) + RuleLevelMarkers(render, v, RULE_LEVEL_KEYS);
      match GetField(v, "action")
      case Value(action) => Rule(NormalizeAction(action), constraints)
      case _ => Rule(UNMAPPABLE_ACTION, [Unmappable(render(v))] + constraints)
  }

  /** `parse_rule`. */
  method ParseRule(render: Json -> string, v: Json) returns (rule: Rule)
    ensures rule == RuleOf(render, v)
  {
    hide ParseConstraint, AliasedAll, OneOrManyAliased, Unmappable, GetField, RuleLevelMarkers, NormalizeAction;
    if !v.Obj? {
      return UnmappableRule(render, v);
    }
    var constraints: seq<Constraint> := [];
    var field := GetField(v, "action");
    var action := UNMAPPABLE_ACTION;
    if field.Value? {
      action := NormalizeAction(field.text);
    } else {
      constraints := [Unmappable(render(v))];
    }
    ghost var first, parsed := constraints, ParseConstraints(render, OneOrManyAliased(v, "constraint"));
    constraints := constraints + ParseConstraints(render, OneOrManyAliased(v, "constraint"));
    constraints := AddRuleLevelMarkers(render, v, constraints);
    assert constraints == first + (parsed + RuleLevelMarkers(render, v, RULE_LEVEL_KEYS));
    rule := Rule(action, constraints);
  }

  method AddRuleLevelMarkers(render: Json -> string, v: Json, before: seq<Constraint>) returns (constraints: seq<Constraint>)
    ensures constraints == before + RuleLevelMarkers(render, v, RULE_LEVEL_KEYS)
  {
    hide AliasedAll, JoinRaw, Unmappable;
    constraints := before;
    assert RULE_LEVEL_KEYS[0..] == RULE_LEVEL_KEYS;
    for i := 0 to |RULE_LEVEL_KEYS|
      invariant before + RuleLevelMarkers(render, v, RULE_LEVEL_KEYS) == constraints + RuleLevelMarkers(render, v, RULE_LEVEL_KEYS[i..])
    {
      var key := RULE_LEVEL_KEYS[i];
      var raws := AliasedAll(v, key);
      ghost var rest := RuleLevelMarkers(render, v, RULE_LEVEL_KEYS[i + 1..]);
      assert RULE_LEVEL_KEYS[i..][1..] == RULE_LEVEL_KEYS[i + 1..] && RULE_LEVEL_KEYS[i..][0] == key;
      if raws != [] {
        ghost var marker := Unmappable(key + ": " + JoinRaw(render, raws));
        assert RuleLevelMarkers(render, v, RULE_LEVEL_KEYS[i..]) == [marker] + rest;
        assert constraints + ([marker] + rest) == (constraints + [marker]) + rest;
        constraints := constraints + [Unmappable(key + ": " + JoinRaw(render, raws))];
      } else {
        assert RuleLevelMarkers(render, v, RULE_LEVEL_KEYS[i..]) == [] + rest == rest;
      }
    }
    assert constraints + [] == constraints;
  }

  function RulesOf(render: Json -> string, v: Json, key: string): (rules: seq<Rule>) {
    var entries := OneOrManyAliased(v, key);
    seq(|entries|, i requires 0 <= i < |entries| => RuleOf(render, entries[i]))
  }

  const RULE_KEYS := ["permission", "prohibition", "obligation"]

  predicate HasRuleKey(v: Json) {
    exists key | key in RULE_KEYS :: Has(v, key)
  }

  function KindOf(v: Json): (kind: PolicyKind) {
    match GetString(v, "@type")
    case Some(name) => if name == "Offer" then Offer else if name == "Agreement" then Agreement else Set
    case None => Set
  }

  function FieldValue(f: Field): (r: Option<string>) {
    match f
    case Value(text) => Some(text)
    case _ => None
  }

  /** The value of an unreadable field as it is kept: the one value, or all of them. */
  function RawField(v: Json, name: string): (raw: Json) {
    var raws := AliasedAll(v, name);
    if |raws| == 1 then raws[0] else Arr(raws)
  }

  /** The markers a policy gets for what it says outside its rules. */
  function PolicyMarkers(render: Json -> string, v: Json): (markers: seq<Rule>) {
    (if HasRuleKey(v) then [] else [UnmappableRule(render, v)])
    + (if GetField(v, "assignee").Unreadable? then [UnmappableRule(render, RawField(v, "assignee"))] else [])
  }

  function PolicyOf(render: Json -> string, v: Json): (policy: Policy) {
    Policy(GetString(v, "@id"), KindOf(v), FieldValue(GetField(v, "assigner")), FieldValue(GetField(v, "assignee")),
           RulesOf(render, v, "permission"), RulesOf(render, v, "prohibition"),
           RulesOf(render, v, "obligation") + PolicyMarkers(render, v))
  }

  /** `parse_rules`. */
  method ParseRules(render: Json -> string, v: Json, key: string) returns (rules: seq<Rule>)
    ensures rules == RulesOf(render, v, key)
  {
    hide RuleOf, OneOrManyAliased;
    var entries := OneOrManyAliased(v, key);
    rules := [];
    for i := 0 to |entries|
      invariant |rules| == i && forall j :: 0 <= j < i ==> rules[j] == RuleOf(render, entries[j])
    {
      var rule := ParseRule(render, entries[i]);
      rules := rules + [rule];
    }
  }

  /** `parse_policy`. */
  method ParsePolicy(render: Json -> string, v: Json) returns (policy: Policy)
    ensures policy == PolicyOf(render, v)
  {
    hide RulesOf, HasRuleKey, UnmappableRule, RawField, GetField, GetString, KindOf;
    var assigner := FieldValue(GetField(v, "assigner"));
    var obligations := ParseRules(render, v, "obligation");
    if !HasRuleKey(v) {
      obligations := obligations + [UnmappableRule(render, v)];
    }
    var field := GetField(v, "assignee");
    var assignee := None;
    match field {
      case Value(text) => assignee := Some(text);
      case Absent =>
      case Unreadable => obligations := obligations + [UnmappableRule(render, RawField(v, "assignee"))];
    }
    var permissions := ParseRules(render, v, "permission");
    var prohibitions := ParseRules(render, v, "prohibition");
    assert obligations == RulesOf(render, v, "obligation") + PolicyMarkers(render, v);
    policy := Policy(GetString(v, "@id"), KindOf(v), assigner, assignee, permissions, prohibitions, obligations);
  }

  /** An entry that is not a node cannot be evaluated, so it is kept as a marker. */
  function PolicyEntryOf(render: Json -> string, entry: Json): (policy: Policy) {
    if entry.Obj? then PolicyOf(render, entry)
    else Policy(None, Set, None, None, [], [], [UnmappableRule(render, entry)])
  }

  function PoliciesOf(render: Json -> string, dataset: Json): (policies: seq<Policy>) {
    var entries := OneOrManyAliased(dataset, "hasPolicy");
    seq(|entries|, i requires 0 <= i < |entries| => PolicyEntryOf(render, entries[i]))
  }

  // ----- What parsing keeps -----

  predicate IsMarker(c: Constraint) {
    c.Atomic? && c.operator == UNMAPPABLE_OPERATOR
  }

  /** An entry with one reading: a complete triple and no group key, or one
      group key and no key of a triple. */
  predicate OneReading(v: Json) {
    var groups := PresentCombinators(v, COMBINATORS);
    if groups == [] then Triple(v).Some? else |groups| == 1 && !HasAtomicKey(v)
  }

  /** `c`, at `depth`, says what the entry `v` says: its triple, or its group
      with one child per child entry; or it marks an entry that has no single
      reading or whose group would go below the bound. */
  predicate Mirrors(v: Json, c: Constraint, depth: nat)
    decreases c
  {
    var groups := PresentCombinators(v, COMBINATORS);
    if !OneReading(v) || depth > MAX_CONSTRAINT_DEPTH || (groups != [] && depth == MAX_CONSTRAINT_DEPTH) then IsMarker(c)
    else if groups == [] then Some(c) == Triple(v)
    else
      var entries := OneOrManyAliased(v, CombinatorName(groups[0]));
      && c.Logical? && c.combinator == groups[0] && |c.children| == |entries|
      && forall i :: 0 <= i < |entries| ==> Mirrors(entries[i], c.children[i], depth + 1)
  }

  lemma TripleNeedsItsKeys(v: Json)
    ensures Triple(v).Some? ==> HasAtomicKey(v)
  {
    assert "operator" == ATOMIC_KEYS[1];
    assert "operator" in ATOMIC_KEYS;
  }

  /** Every entry becomes one constraint that mirrors it, nested no deeper than
      the store accepts. */
  lemma {:induction false} ConstraintMirrorsEntry(render: Json -> string, v: Json, depth: nat)
    ensures Mirrors(v, ParseConstraint(render, v, depth), depth)
    ensures depth <= MAX_CONSTRAINT_DEPTH ==> Fits(ParseConstraint(render, v, depth), depth)
    decreases if depth > MAX_CONSTRAINT_DEPTH then 0 else MAX_CONSTRAINT_DEPTH + 1 - depth
  {
    hide OneOrManyAliased, Triple, HasAtomicKey, PresentCombinators;
    TripleNeedsItsKeys(v);
    var groups := PresentCombinators(v, COMBINATORS);
    if depth < MAX_CONSTRAINT_DEPTH && groups != [] && OneReading(v) {
      var entries := OneOrManyAliased(v, CombinatorName(groups[0]));
      var c := ParseConstraint(render, v, depth);
      forall i | 0 <= i < |entries|
        ensures Mirrors(entries[i], c.children[i], depth + 1) && Fits(c.children[i], depth + 1)
      {
        ConstraintMirrorsEntry(render, entries[i], depth + 1);
      }
    }
  }

  // ----- Where markers come from -----

  predicate HasMarker(c: Constraint) {
    match c
    case Atomic(_, operator, _) => operator == UNMAPPABLE_OPERATOR
    case Logical(_, children) => exists child :: child in children && HasMarker(child)
  }

  predicate RuleHasMarker(rule: Rule) {
    exists c :: c in rule.constraints && HasMarker(c)
  }

  predicate RulesHaveMarker(rules: seq<Rule>) {
    exists rule :: rule in rules && RuleHasMarker(rule)
  }

  predicate PolicyHasMarker(policy: Policy) {
    RulesHaveMarker(policy.permissions) || RulesHaveMarker(policy.prohibitions) || RulesHaveMarker(policy.obligations)
  }

  /** The entry, or one nested in its groups, cannot be read, is nested too
      deep, or spells the marker itself. */
  predicate EntryMarked(v: Json, depth: nat)
    decreases if depth > MAX_CONSTRAINT_DEPTH then 0 else MAX_CONSTRAINT_DEPTH + 1 - depth
  {
    var groups := PresentCombinators(v, COMBINATORS);
    if !OneReading(v) || depth > MAX_CONSTRAINT_DEPTH then true
    else if groups == [] then Triple(v).value.operator == UNMAPPABLE_OPERATOR
    else
      || depth == MAX_CONSTRAINT_DEPTH
      || exists entry :: entry in OneOrManyAliased(v, CombinatorName(groups[0])) && EntryMarked(entry, depth + 1)
  }

  predicate RuleMarked(v: Json) {
    || !v.Obj?
    || !GetField(v, "action").Value?
    || (exists entry :: entry in OneOrManyAliased(v, "constraint") && EntryMarked(entry, 0))
    || exists key :: key in RULE_LEVEL_KEYS && Has(v, key)
  }

  predicate RulesMarked(v: Json, key: string) {
    exists entry :: entry in OneOrManyAliased(v, key) && RuleMarked(entry)
  }

  predicate PolicyMarked(v: Json) {
    || !v.Obj?
    || !HasRuleKey(v)
    || GetField(v, "assignee").Unreadable?
    || RulesMarked(v, "permission") || RulesMarked(v, "prohibition") || RulesMarked(v, "obligation")
  }

  lemma {:induction false} ConstraintMarkers(render: Json -> string, v: Json, depth: nat)
    ensures HasMarker(ParseConstraint(render, v, depth)) <==> EntryMarked(v, depth)
    decreases if depth > MAX_CONSTRAINT_DEPTH then 0 else MAX_CONSTRAINT_DEPTH + 1 - depth
  {
    hide OneOrManyAliased, Triple, HasAtomicKey, PresentCombinators;
    TripleNeedsItsKeys(v);
    var groups := PresentCombinators(v, COMBINATORS);
    if depth < MAX_CONSTRAINT_DEPTH && groups != [] && OneReading(v) {
      var entries := OneOrManyAliased(v, CombinatorName(groups[0]));
      var c := ParseConstraint(render, v, depth);
      forall i | 0 <= i < |entries| ensures HasMarker(c.children[i]) <==> EntryMarked(entries[i], depth + 1) {
        ConstraintMarkers(render, entries[i], depth + 1);
      }
      if EntryMarked(v, depth) {
        var entry :| entry in entries && EntryMarked(entry, depth + 1);
        var i :| 0 <= i < |entries| && entries[i] == entry;
        assert c.children[i] in c.children && HasMarker(c);
      }
      if HasMarker(c) {
        var child :| child in c.children && HasMarker(child);
        var i :| 0 <= i < |entries| && c.children[i] == child;
        assert entries[i] in entries && EntryMarked(entries[i], depth + 1);
      }
    }
  }

  lemma {:induction false} LevelMarkers(render: Json -> string, v: Json, keys: seq<string>)
    ensures forall c :: c in RuleLevelMarkers(render, v, keys) ==> IsMarker(c)
    ensures RuleLevelMarkers(render, v, keys) != [] <==> exists key :: key in keys && Has(v, key)
  {
    hide JoinRaw, AliasedAll;
    if keys != [] {
      LevelMarkers(render, v, keys[1..]);
      assert keys[0] in keys;
      assert forall key :: key in keys <==> key == keys[0] || key in keys[1..];
    }
  }

  lemma RuleMarkers(render: Json -> string, v: Json)
    ensures RuleHasMarker(RuleOf(render, v)) <==> RuleMarked(v)
  {
    hide EntryMarked, OneOrManyAliased, ParseConstraint, GetField, Has, RuleLevelMarkers, NormalizeAction;
    var rule := RuleOf(render, v);
    if v.Obj? && GetField(v, "action").Value? {
      var entries := OneOrManyAliased(v, "constraint");
      var parsed, markers := ParseConstraints(render, entries), RuleLevelMarkers(render, v, RULE_LEVEL_KEYS);
      assert rule.constraints == parsed + markers;
      forall i | 0 <= i < |entries| ensures HasMarker(parsed[i]) <==> EntryMarked(entries[i], 0) {
        ConstraintMarkers(render, entries[i], 0);
      }
      LevelMarkers(render, v, RULE_LEVEL_KEYS);
      if entry :| entry in entries && EntryMarked(entry, 0) {
        var i :| 0 <= i < |entries| && entries[i] == entry;
        assert parsed[i] in rule.constraints;
      }
      if exists key :: key in RULE_LEVEL_KEYS && Has(v, key) {
        assert markers[0] in markers && markers[0] in rule.constraints && HasMarker(markers[0]);
      }
    } else {
      assert rule.constraints[0] in rule.constraints && HasMarker(rule.constraints[0]);
    }
  }

  lemma RulesMarkers(render: Json -> string, v: Json, key: string)
    ensures RulesHaveMarker(RulesOf(render, v, key)) <==> RulesMarked(v, key)
  {
    hide RuleOf, RuleMarked, RuleHasMarker, OneOrManyAliased;
    var entries := OneOrManyAliased(v, key);
    var rules := RulesOf(render, v, key);
    forall i | 0 <= i < |entries| ensures RuleHasMarker(rules[i]) <==> RuleMarked(entries[i]) {
      RuleMarkers(render, entries[i]);
    }
    if entry :| entry in entries && RuleMarked(entry) {
      var i :| 0 <= i < |entries| && entries[i] == entry;
      assert rules[i] in rules;
    }
  }

  lemma MarkerRule(render: Json -> string, raw: Json)
    ensures RuleHasMarker(UnmappableRule(render, raw))
  {
    assert UnmappableRule(render, raw).constraints[0] in UnmappableRule(render, raw).constraints;
  }

  /** Parsing never loosens a policy: whatever of it cannot be read, at any
      depth, leaves a marker, and nothing else does. */
  lemma PolicyMarkersAreExact(render: Json -> string, v: Json)
    ensures PolicyHasMarker(PolicyEntryOf(render, v)) <==> PolicyMarked(v)
  {
    hide RulesOf, RulesMarked, RuleHasMarker, UnmappableRule, HasRuleKey, GetField, GetString, KindOf;
    RulesMarkers(render, v, "permission");
    RulesMarkers(render, v, "prohibition");
    RulesMarkers(render, v, "obligation");
    forall raw {
      MarkerRule(render, raw);
    }
    var policy := PolicyEntryOf(render, v);
    var markers := PolicyMarkers(render, v);
    if v.Obj? {
      var read := RulesOf(render, v, "obligation");
      assert policy.obligations == read + markers;
      assert forall rule :: rule in policy.obligations <==> rule in read || rule in markers;
      assert markers != [] ==> markers[0] in markers && RuleHasMarker(markers[0]);
    } else {
      assert policy.obligations[0] in policy.obligations;
    }
  }

  /** One rule per rule entry, in order, in the list its key names; the policy's
      own markers come last. */
  lemma EveryRuleEntryIsKept(render: Json -> string, v: Json)
    ensures var p := PolicyOf(render, v);
            && |p.permissions| == |OneOrManyAliased(v, "permission")|
            && |p.prohibitions| == |OneOrManyAliased(v, "prohibition")|
            && |p.obligations| == |OneOrManyAliased(v, "obligation")| + |PolicyMarkers(render, v)|
            && (forall i :: 0 <= i < |p.permissions| ==> p.permissions[i] == RuleOf(render, OneOrManyAliased(v, "permission")[i]))
            && (forall i :: 0 <= i < |p.prohibitions| ==> p.prohibitions[i] == RuleOf(render, OneOrManyAliased(v, "prohibition")[i]))
            && (forall i :: 0 <= i < |OneOrManyAliased(v, "obligation")| ==>
                  p.obligations[i] == RuleOf(render, OneOrManyAliased(v, "obligation")[i]))
    ensures PolicyFits(PolicyEntryOf(render, v))
    ensures var p := PolicyOf(render, v);
            && (forall text :: p.id == Some(text) <==> Get(v, "@id") == Some(Str(text)))
            && (forall text :: p.assigner == Some(text) <==> GetField(v, "assigner") == Value(text))
            && (forall text :: p.assignee == Some(text) <==> GetField(v, "assignee") == Value(text))
            && (p.kind == Offer <==> Get(v, "@type") == Some(Str("Offer")))
            && (p.kind == Agreement <==> Get(v, "@type") == Some(Str("Agreement")))
  {
    KindIs(v);
    hide OneOrManyAliased, GetField, KindOf, HasRuleKey, RuleOf, RuleFits, UnmappableRule;
    forall raw ensures RuleFits(UnmappableRule(render, raw)) {
      MarkerRuleFits(render, raw);
    }
    forall entry ensures RuleFits(RuleOf(render, entry)) {
      ParsedRuleFits(render, entry);
    }
  }

  lemma KindIs(v: Json)
    ensures KindOf(v) == Offer <==> Get(v, "@type") == Some(Str("Offer"))
    ensures KindOf(v) == Agreement <==> Get(v, "@type") == Some(Str("Agreement"))
  {
    assert |"Offer"| == 5 && |"Agreement"| == 9;
  }

  /** A rule keeps its action, its constraint entries in order and then what it
      says besides; an action that cannot be read leaves a marker first. */
  lemma RuleEntriesAreKept(render: Json -> string, v: Json)
    requires v.Obj?
    ensures var rule, entries := RuleOf(render, v), OneOrManyAliased(v, "constraint");
            var first := if GetField(v, "action").Value? then 0 else 1;
            && rule.action == (match GetField(v, "action") case Value(text) => NormalizeAction(text) case _ => UNMAPPABLE_ACTION)
            && |rule.constraints| >= first + |entries|
            && (forall i :: 0 <= i < |entries| ==> rule.constraints[first + i] == ParseConstraint(render, entries[i], 0))
            && (forall i :: 0 <= i < |rule.constraints| && !(first <= i < first + |entries|) ==> IsMarker(rule.constraints[i]))
  {
    LevelMarkers(render, v, RULE_LEVEL_KEYS);
    hide OneOrManyAliased, GetField, ParseConstraint, RuleLevelMarkers, NormalizeAction, RULE_LEVEL_KEYS;
    var rule, entries := RuleOf(render, v), OneOrManyAliased(v, "constraint");
    var parsed, markers := ParseConstraints(render, entries), RuleLevelMarkers(render, v, RULE_LEVEL_KEYS);
    if GetField(v, "action").Value? {
      assert rule.constraints == parsed + markers;
    } else {
      assert rule.constraints == [Unmappable(render(v))] + (parsed + markers);
    }
    assert forall i :: 0 <= i < |markers| ==> markers[i] in markers;
  }

  lemma MarkerRuleFits(render: Json -> string, raw: Json)
    ensures RuleFits(UnmappableRule(render, raw))
  {
  }

  lemma ParsedRuleFits(render: Json -> string, v: Json)
    ensures RuleFits(RuleOf(render, v))
  {
    hide OneOrManyAliased, ParseConstraint, GetField, RuleLevelMarkers, NormalizeAction, Mirrors;
    var entries := OneOrManyAliased(v, "constraint");
    forall i | 0 <= i < |entries| ensures Fits(ParseConstraint(render, entries[i], 0), 0) {
      ConstraintMirrorsEntry(render, entries[i], 0);
    }
    LevelMarkers(render, v, RULE_LEVEL_KEYS);
    assert forall c :: IsMarker(c) ==> Fits(c, 0);
  }

  // ----- What the keys say -----

  /** The values of `name`, under its three spellings. */
  ghost predicate SpelledAs(v: Json, name: string, x: Json) {
    v.Obj? && exists key :: key in {name, "odrl:" + name, "http://www.w3.org/ns/odrl/2/" + name} && key in v.fields && v.fields[key] == x
  }

  lemma HasMeansSpelled(v: Json, name: string)
    ensures Has(v, name) <==> exists x :: SpelledAs(v, name, x)
    ensures forall x :: x in AliasedAll(v, name) <==> SpelledAs(v, name, x)
  {
    ValuesAreSpelled(v, name);
    hide AliasedAll, SpelledAs;
    if Has(v, name) {
      assert AliasedAll(v, name)[0] in AliasedAll(v, name);
    }
  }

  lemma ValuesAreSpelled(v: Json, name: string)
    ensures forall x :: x in AliasedAll(v, name) <==> SpelledAs(v, name, x)
  {
    if v.Obj? {
      AliasedIsHeld(v.fields, name);
    } else {
      NothingPresent(v, Spellings(name));
    }
  }

  lemma {:induction false} NothingPresent(v: Json, keys: seq<string>)
    requires !v.Obj?
    ensures PresentAt(v, keys) == []
  {
    if keys != [] {
      NothingPresent(v, keys[1..]);
    }
  }

  /** The one text a JSON value stands for: a string, a number as written, a
      boolean by its name, a value object's value, a bare node's id, or that of
      the one item of an array. */
  ghost predicate StandsFor(x: Json, text: string)
    decreases x
  {
    match x
    case Str(s) => s == text
    case Number(n) => n == text
    case Bool(b) => (b && text == "true") || (!b && text == "false")
    case Obj(fields) =>
      if "@value" in fields then
        match fields["@value"]
        case Str(s) => s == text
        case Number(n) => n == text
        case Bool(b) => (b && text == "true") || (!b && text == "false")
        case _ => false
      else (forall key :: key in fields ==> key == "@id" || key == "@type") && "@id" in fields && fields["@id"] == Str(text)
    case Arr(items) => |items| == 1 && StandsFor(items[0], text)
    case Null => false
  }

  lemma {:induction false} ScalarStandsFor(x: Json, text: string)
    ensures JsonLdScalar(x) == Some(text) <==> StandsFor(x, text)
    decreases x
  {
    match x {
      case Arr(items) =>
        if |items| == 1 {
          ScalarStandsFor(items[0], text);
        }
      case Obj(fields) =>
        assert fields.Keys <= {"@id", "@type"} <==> forall key :: key in fields ==> key == "@id" || key == "@type";
      case _ =>
    }
  }

  /** A field has the text its one value stands for. Without a value it is
      absent; with values under two spellings, or one that stands for no text,
      it cannot be read. */
  lemma FieldsAreRead(v: Json, name: string)
    ensures GetField(v, name).Absent? <==> forall x :: !SpelledAs(v, name, x)
    ensures forall text :: GetField(v, name) == Value(text) <==>
                           |AliasedAll(v, name)| == 1 && StandsFor(AliasedAll(v, name)[0], text)
  {
    HasMeansSpelled(v, name);
    hide AliasedAll, JsonLdScalar, SpelledAs, StandsFor;
    forall x, text {
      ScalarStandsFor(x, text);
    }
  }

  /** A leaf of the parsed tree is the entry's three fields, each in its place. */
  lemma LeavesAreTriples(render: Json -> string, v: Json, depth: nat)
    requires OneReading(v) && depth <= MAX_CONSTRAINT_DEPTH && PresentCombinators(v, COMBINATORS) == []
    ensures var c := ParseConstraint(render, v, depth);
            && c.Atomic?
            && GetField(v, "leftOperand") == Value(c.leftOperand)
            && GetField(v, "operator") == Value(c.operator)
            && GetField(v, "rightOperand") == Value(c.rightOperand)
  {
    hide GetField, HasAtomicKey, PresentCombinators;
  }

  lemma PresentAre(v: Json, combinator: Combinator)
    ensures combinator in PresentCombinators(v, COMBINATORS) <==> Has(v, CombinatorName(combinator))
  {
    hide Has, CombinatorName;
    PresentAmong(v, COMBINATORS, combinator);
  }

  lemma {:induction false} PresentAmong(v: Json, candidates: seq<Combinator>, combinator: Combinator)
    ensures combinator in PresentCombinators(v, candidates) <==> combinator in candidates && Has(v, CombinatorName(combinator))
  {
    hide Has, CombinatorName;
    if candidates != [] {
      PresentAmong(v, candidates[1..], combinator);
    }
  }

  /** A group is the one its key names. */
  lemma GroupsAreNamed(render: Json -> string, v: Json, depth: nat)
    requires ParseConstraint(render, v, depth).Logical?
    ensures match ParseConstraint(render, v, depth).combinator
            case And => Has(v, "and")
            case Or => Has(v, "or")
            case Xone => Has(v, "xone")
            case AndSequence => Has(v, "andSequence")
  {
    hide PresentCombinators, Has, HasAtomicKey, OneOrManyAliased, Triple;
    var groups := PresentCombinators(v, COMBINATORS);
    assert ParseConstraint(render, v, depth).combinator == groups[0] && groups[0] in groups;
    PresentAre(v, groups[0]);
  }

  /** What a rule says that the model has no place for is always marked. */
  lemma RuleLevelKeysAreMarked(render: Json -> string, v: Json)
    requires Has(v, "assignee") || Has(v, "target") || Has(v, "duty")
    ensures RuleHasMarker(RuleOf(render, v))
  {
    assert RULE_LEVEL_KEYS[0] == "assignee" && RULE_LEVEL_KEYS[1] == "target" && RULE_LEVEL_KEYS[2] == "duty";
    RuleMarkers(render, v);
    hide Has, GetField, EntryMarked, OneOrManyAliased, RULE_LEVEL_KEYS, RuleOf, RuleHasMarker;
  }
}
