/** Serving a policy again as JSON (`management.rs`), and reading that back. */
module Printer {
  import opened Text
  import opened CatalogCore
  import opened Vocabulary
  import opened Parser

  const MAX_SERVED_GROUP_DEPTH := 56
  const TOO_DEEP := "logical group nested beyond the served depth limit"

  /** The combinators the client knows: `andSequence` is served as `and`. */
  function ServedCombinator(c: Combinator): (r: Combinator) {
    if c == AndSequence then And else c
  }

  function TripleFields(left: string, operator: string, right: string): (fields: map<string, Json>) {
    map["leftOperand" := Str(left), "operator" := Str(operator), "rightOperand" := Str(right)]
  }

  /** `groupDepth`: how many groups enclose `c`. */
  function ConstraintJson(c: Constraint, groupDepth: nat): (v: Json)
    decreases c
  {
    match c
    case Atomic(left, operator, right) =>
      Obj(TripleFields(left, operator, right))
    case Logical(combinator, children) =>
      if groupDepth >= MAX_SERVED_GROUP_DEPTH then
        var marker := Unmappable(TOO_DEEP);
        Obj(TripleFields(marker.leftOperand, marker.operator, marker.rightOperand))
      else
        Obj(map[CombinatorName(ServedCombinator(combinator)) :=
                  Arr(seq(|children|, i requires 0 <= i < |children| => ConstraintJson(children[i], groupDepth + 1)))])
  }

  function ConstraintsJson(cs: seq<Constraint>): (items: seq<Json>) {
    seq(|cs|, i requires 0 <= i < |cs| => ConstraintJson(cs[i], 0))
  }

  function RuleJson(rule: Rule): (v: Json) {
    if rule.constraints == [] then Obj(map["action" := Str(rule.action)])
    else Obj(map["action" := Str(rule.action), "constraint" := Arr(ConstraintsJson(rule.constraints))])
  }

  function RulesJson(rules: seq<Rule>): (items: seq<Json>) {
    seq(|rules|, i requires 0 <= i < |rules| => RuleJson(rules[i]))
  }

  function WithOption(fields: map<string, Json>, key: string, value: Option<string>): (r: map<string, Json>) {
    match value
    case Some(text) => fields[key := Str(text)]
    case None => fields
  }

  function WithRules(fields: map<string, Json>, key: string, rules: seq<Rule>): (r: map<string, Json>) {
    if rules == [] then fields else fields[key := Arr(RulesJson(rules))]
  }

  function PolicyFields(p: Policy): (fields: map<string, Json>) {
    var head := WithOption(WithOption(WithOption(map["@type" := Str(KindName(p.kind))], "@id", p.id), "odrl:assigner", p.assigner),
                           "odrl:assignee", p.assignee);
    WithRules(WithRules(WithRules(head, "permission", p.permissions), "prohibition", p.prohibitions), "obligation", p.obligations)
  }

  function PolicyJson(p: Policy): (v: Json) {
    Obj(PolicyFields(p))
  }

  /** `policy_to_json`: fields that say nothing are left out. */
  method PolicyToJson(p: Policy) returns (v: Json)
    ensures v == PolicyJson(p)
  {
    hide RulesJson, KindName;
    var fields := map["@type" := Str(KindName(p.kind))];
    if p.id.Some? {
      fields := fields["@id" := Str(p.id.value)];
    }
    if p.assigner.Some? {
      fields := fields["odrl:assigner" := Str(p.assigner.value)];
    }
    if p.assignee.Some? {
      fields := fields["odrl:assignee" := Str(p.assignee.value)];
    }
    if p.permissions != [] {
      fields := fields["permission" := Arr(RulesJson(p.permissions))];
    }
    if p.prohibitions != [] {
      fields := fields["prohibition" := Arr(RulesJson(p.prohibitions))];
    }
    if p.obligations != [] {
      fields := fields["obligation" := Arr(RulesJson(p.obligations))];
    }
    v := Obj(fields);
  }

  // ----- What reading back gives -----

  /** `c` as a reader of the served form gets it. */
  function Served(c: Constraint, groupDepth: nat): (r: Constraint)
    decreases c
  {
    match c
    case Atomic(_, _, _) => c
    case Logical(combinator, children) =>
      if groupDepth >= MAX_SERVED_GROUP_DEPTH then Unmappable(TOO_DEEP)
      else
        Logical(ServedCombinator(combinator),
                seq(|children|, i requires 0 <= i < |children| => Served(children[i], groupDepth + 1)))
  }

  function ServedRule(rule: Rule): (r: Rule) {
    Rule(NormalizeAction(rule.action), seq(|rule.constraints|, i requires 0 <= i < |rule.constraints| => Served(rule.constraints[i], 0)))
  }

  function ServedRules(rules: seq<Rule>): (r: seq<Rule>) {
    seq(|rules|, i requires 0 <= i < |rules| => ServedRule(rules[i]))
  }

  predicate HasNoRule(p: Policy) {
    p.permissions == [] && p.prohibitions == [] && p.obligations == []
  }

  /** A policy without rules comes back with one marker obligation. */
  function ServedPolicy(render: Json -> string, p: Policy): (r: Policy) {
    Policy(p.id, p.kind, p.assigner, p.assignee, ServedRules(p.permissions), ServedRules(p.prohibitions),
           ServedRules(p.obligations) + if HasNoRule(p) then [UnmappableRule(render, PolicyJson(p))] else [])
  }

  // ----- Keys -----

  /** No field is spelled as a full IRI. */
  predicate NoIriKeys(fields: map<string, Json>) {
    forall key :: key in fields ==> key == "" || key[0] != 'h'
  }

  lemma AliasedWithoutIri(fields: map<string, Json>, name: string)
    requires NoIriKeys(fields)
    ensures AliasedAll(Obj(fields), name) == HeldAt(fields, name) + HeldAt(fields, "odrl:" + name)
  {
    AliasedIsHeld(fields, name);
    assert (ODRL_NS + name)[0] == 'h';
    assert HeldAt(fields, ODRL_NS + name) == [];
  }

  /** Neither as an IRI nor with a prefix. */
  predicate BareKeys(fields: map<string, Json>) {
    forall key :: key in fields ==> key != "" && key[0] != 'h' && (|key| > 4 ==> key[4] != ':')
  }

  lemma AliasedBare(fields: map<string, Json>, name: string)
    requires BareKeys(fields)
    ensures AliasedAll(Obj(fields), name) == HeldAt(fields, name)
  {
    AliasedWithoutIri(fields, name);
    assert ("odrl:" + name)[4] == ':';
    assert "odrl:" + name !in fields;
  }

  lemma OneKey(key: string, items: seq<Json>, name: string)
    requires BareKeys(map[key := Arr(items)])
    ensures Has(Obj(map[key := Arr(items)]), name) <==> name == key
    ensures OneOrManyAliased(Obj(map[key := Arr(items)]), key) == items
  {
    hide AliasedAll;
    AliasedBare(map[key := Arr(items)], name);
    AliasedBare(map[key := Arr(items)], key);
    FlatOne(Arr(items));
  }

  lemma FlatOne(v: Json)
    ensures FlatOneOrMany([v]) == OneOrMany(v)
    ensures FlatOneOrMany([]) == []
  {
    assert [v][1..] == [];
    assert FlatOneOrMany([v]) == OneOrMany(v) + FlatOneOrMany([]);
  }

  // ----- Constraints -----

  lemma CombinatorKeysAreNotAtomic(c: Combinator, left: string, operator: string, right: string)
    ensures CombinatorName(c) !in TripleFields(left, operator, right)
    ensures CombinatorName(c) !in ATOMIC_KEYS
  {
    var key := CombinatorName(c);
    assert |"leftOperand"| == 11 && |"operator"| == 8 && |"rightOperand"| == 12;
    assert |key| == 11 ==> key[0] == 'a' && "leftOperand"[0] == 'l';
  }

  lemma CombinatorKeysDiffer(a: Combinator, b: Combinator)
    ensures CombinatorName(a) == CombinatorName(b) <==> a == b
  {
    var ka, kb := CombinatorName(a), CombinatorName(b);
    assert |"xone"| == 4 && |"or"| == 2 && |"and"| == 3 && |"andSequence"| == 11;
  }

  lemma TripleFieldsRead(left: string, operator: string, right: string)
    ensures var fields := TripleFields(left, operator, right);
            && BareKeys(fields) && fields["leftOperand"] == Str(left) && fields["operator"] == Str(operator) && fields["rightOperand"] == Str(right)
  {
    assert |"leftOperand"| == 11 && |"operator"| == 8 && |"rightOperand"| == 12;
  }

  lemma FieldRead(fields: map<string, Json>, name: string, text: string)
    requires BareKeys(fields) && name in fields && fields[name] == Str(text)
    ensures GetField(Obj(fields), name) == Value(text)
  {
    hide AliasedAll, BareKeys;
    AliasedBare(fields, name);
  }

  lemma TripleRead(render: Json -> string, left: string, operator: string, right: string, depth: nat)
    requires depth <= MAX_CONSTRAINT_DEPTH
    ensures ParseConstraint(render, Obj(TripleFields(left, operator, right)), depth) == Atomic(left, operator, right)
  {
    var fields := TripleFields(left, operator, right);
    var v := Obj(fields);
    TripleFieldsRead(left, operator, right);
    assert Triple(v) == Some(Atomic(left, operator, right)) by {
      hide BareKeys, TripleFields, GetField;
      assert "leftOperand" in fields && "operator" in fields && "rightOperand" in fields by {
        TripleFieldKeys(left, operator, right);
      }
      FieldRead(fields, "leftOperand", left);
      FieldRead(fields, "operator", operator);
      FieldRead(fields, "rightOperand", right);
    }
    hide BareKeys, TripleFields, Triple, AliasedAll, CombinatorName, HasAtomicKey, PresentCombinators;
    forall c: Combinator ensures !Has(v, CombinatorName(c)) {
      CombinatorKeysAreNotAtomic(c, left, operator, right);
      AliasedBare(fields, CombinatorName(c));
    }
    NoCombinators(v, COMBINATORS);
  }

  lemma TripleFieldKeys(left: string, operator: string, right: string)
    ensures TripleFields(left, operator, right).Keys == {"leftOperand", "operator", "rightOperand"}
  {
  }

  lemma {:induction false} NoCombinators(v: Json, candidates: seq<Combinator>)
    requires forall c: Combinator :: !Has(v, CombinatorName(c))
    ensures PresentCombinators(v, candidates) == []
  {
    hide Has, CombinatorName;
    if candidates != [] {
      NoCombinators(v, candidates[1..]);
    }
  }

  lemma {:induction false} OneCombinator(v: Json, candidates: seq<Combinator>, combinator: Combinator)
    requires forall c: Combinator :: Has(v, CombinatorName(c)) <==> c == combinator
    requires forall i, j :: 0 <= i < j < |candidates| ==> candidates[i] != candidates[j]
    ensures PresentCombinators(v, candidates) == if combinator in candidates then [combinator] else []
  {
    hide Has, CombinatorName;
    if candidates != [] {
      OneCombinator(v, candidates[1..], combinator);
      assert combinator in candidates <==> combinator == candidates[0] || combinator in candidates[1..];
      assert combinator == candidates[0] ==> combinator !in candidates[1..];
    }
  }

  lemma GroupKeyIsBare(combinator: Combinator, items: seq<Json>)
    ensures BareKeys(map[CombinatorName(combinator) := Arr(items)])
  {
  }

  lemma GroupRead(combinator: Combinator, items: seq<Json>)
    ensures var v := Obj(map[CombinatorName(combinator) := Arr(items)]);
            && PresentCombinators(v, COMBINATORS) == [combinator]
            && !HasAtomicKey(v) && Triple(v) == None
            && OneOrManyAliased(v, CombinatorName(combinator)) == items
  {
    var key := CombinatorName(combinator);
    var v := Obj(map[key := Arr(items)]);
    hide Has, BareKeys, OneOrManyAliased, CombinatorName, PresentCombinators, Triple;
    GroupKeyIsBare(combinator, items);
    forall name {
      OneKey(key, items, name);
    }
    forall c: Combinator ensures Has(v, CombinatorName(c)) <==> c == combinator {
      CombinatorKeysDiffer(c, combinator);
    }
    CombinatorsAreAll(combinator);
    OneCombinator(v, COMBINATORS, combinator);
    CombinatorKeysAreNotAtomic(combinator, "", "", "");
    TripleNeedsItsKeys(v);
  }

  lemma CombinatorsAreAll(c: Combinator)
    ensures c in COMBINATORS
  {
    assert COMBINATORS[0] == Xone && COMBINATORS[1] == Or && COMBINATORS[2] == And && COMBINATORS[3] == AndSequence;
  }

  lemma {:induction false} ConstraintReadBack(render: Json -> string, c: Constraint, groupDepth: nat)
    requires groupDepth <= MAX_SERVED_GROUP_DEPTH
    ensures ParseConstraint(render, ConstraintJson(c, groupDepth), groupDepth) == Served(c, groupDepth)
    decreases c
  {
    hide Triple, PresentCombinators, HasAtomicKey, OneOrManyAliased, TripleFields, CombinatorName;
    if c.Logical? && groupDepth < MAX_SERVED_GROUP_DEPTH {
      var items := ConstraintJson(c, groupDepth).fields[CombinatorName(ServedCombinator(c.combinator))].items;
      GroupRead(ServedCombinator(c.combinator), items);
      forall i | 0 <= i < |c.children|
        ensures ParseConstraint(render, items[i], groupDepth + 1) == Served(c.children[i], groupDepth + 1)
      {
        ConstraintReadBack(render, c.children[i], groupDepth + 1);
      }
    } else {
      var atomic := if c.Atomic? then c else Unmappable(TOO_DEEP);
      TripleRead(render, atomic.leftOperand, atomic.operator, atomic.rightOperand, groupDepth);
    }
  }

  // ----- Rules -----

  lemma RuleFieldsRead(rule: Rule)
    ensures RuleJson(rule).Obj?
    ensures "action" in RuleJson(rule).fields && RuleJson(rule).fields["action"] == Str(rule.action)
    ensures forall key :: key in RuleJson(rule).fields ==> key == "action" || key == "constraint"
    ensures "constraint" in RuleJson(rule).fields <==> rule.constraints != []
    ensures rule.constraints != [] ==> RuleJson(rule).fields["constraint"] == Arr(ConstraintsJson(rule.constraints))
  {
    hide ConstraintsJson;
    assert |"action"| == 6 && |"constraint"| == 10;
  }

  lemma ActionRead(rule: Rule)
    ensures RuleJson(rule).Obj? && BareKeys(RuleJson(rule).fields)
    ensures GetField(RuleJson(rule), "action") == Value(rule.action)
  {
    RuleFieldsRead(rule);
    hide RuleJson, GetField;
    assert "action"[4] == 'o' && "constraint"[4] == 't' && "action"[0] == 'a' && "constraint"[0] == 'c';
    assert BareKeys(RuleJson(rule).fields);
    FieldRead(RuleJson(rule).fields, "action", rule.action);
  }

  lemma RuleLevelKeysAbsent(rule: Rule, i: nat)
    requires i < |RULE_LEVEL_KEYS|
    ensures !Has(RuleJson(rule), RULE_LEVEL_KEYS[i])
  {
    var key := RULE_LEVEL_KEYS[i];
    ActionRead(rule);
    RuleFieldsRead(rule);
    assert |"action"| == 6 && |"constraint"| == 10 && |"assignee"| == 8 && |"target"| == 6 && |"duty"| == 4;
    assert "action"[0] == 'a' && "target"[0] == 't';
    assert key != "action" && key != "constraint";
    hide AliasedAll, RuleJson, BareKeys;
    AliasedBare(RuleJson(rule).fields, key);
  }

  lemma {:induction false} NoRuleLevelMarkers(render: Json -> string, v: Json, keys: seq<string>)
    requires forall key :: key in keys ==> !Has(v, key)
    ensures RuleLevelMarkers(render, v, keys) == []
  {
    hide Has;
    if keys != [] {
      assert keys[0] in keys;
      NoRuleLevelMarkers(render, v, keys[1..]);
    }
  }

  lemma ConstraintEntriesRead(rule: Rule)
    ensures OneOrManyAliased(RuleJson(rule), "constraint") == ConstraintsJson(rule.constraints)
  {
    ActionRead(rule);
    RuleFieldsRead(rule);
    hide AliasedAll, BareKeys, ConstraintJson, RuleJson;
    AliasedBare(RuleJson(rule).fields, "constraint");
    FlatOne(Arr(ConstraintsJson(rule.constraints)));
  }

  lemma RuleReadBack(render: Json -> string, rule: Rule)
    ensures RuleOf(render, RuleJson(rule)) == ServedRule(rule)
  {
    hide OneOrManyAliased, GetField, BareKeys, RuleJson, ParseConstraint, Served, ConstraintJson, NormalizeAction, RuleLevelMarkers;
    ActionRead(rule);
    RuleFieldsRead(rule);
    ConstraintEntriesRead(rule);
    forall key | key in RULE_LEVEL_KEYS ensures !Has(RuleJson(rule), key) {
      var i :| 0 <= i < |RULE_LEVEL_KEYS| && RULE_LEVEL_KEYS[i] == key;
      RuleLevelKeysAbsent(rule, i);
    }
    NoRuleLevelMarkers(render, RuleJson(rule), RULE_LEVEL_KEYS);
    var items := ConstraintsJson(rule.constraints);
    forall i | 0 <= i < |items| ensures ParseConstraint(render, items[i], 0) == Served(rule.constraints[i], 0) {
      ConstraintReadBack(render, rule.constraints[i], 0);
    }
    assert ParseConstraints(render, items) + [] == ServedRule(rule).constraints;
  }

  // ----- Policies -----

  /** The field `key` of the served policy. */
  function PolicyField(p: Policy, key: string): (v: Option<Json>) {
    if key == "obligation" && p.obligations != [] then Some(Arr(RulesJson(p.obligations)))
    else if key == "prohibition" && p.prohibitions != [] then Some(Arr(RulesJson(p.prohibitions)))
    else if key == "permission" && p.permissions != [] then Some(Arr(RulesJson(p.permissions)))
    else if key == "odrl:assignee" && p.assignee.Some? then Some(Str(p.assignee.value))
    else if key == "odrl:assigner" && p.assigner.Some? then Some(Str(p.assigner.value))
    else if key == "@id" && p.id.Some? then Some(Str(p.id.value))
    else if key == "@type" then Some(Str(KindName(p.kind)))
    else None
  }

  lemma PolicyFieldRead(p: Policy, key: string)
    ensures Get(PolicyJson(p), key) == PolicyField(p, key)
  {
    hide RulesJson, KindName;
  }

  lemma PolicyKeysAreNotIris(p: Policy)
    ensures NoIriKeys(PolicyFields(p))
  {
    hide PolicyFields, RulesJson, KindName;
    forall key | key in PolicyFields(p) ensures key == "" || key[0] != 'h' {
      PolicyFieldRead(p, key);
    }
  }

  lemma PolicyAliased(p: Policy, name: string)
    ensures AliasedAll(PolicyJson(p), name) ==
            (match PolicyField(p, name) case Some(v) => [v] case None => [])
            + match PolicyField(p, "odrl:" + name) case Some(v) => [v] case None => []
  {
    hide PolicyFields, PolicyField, AliasedAll, NoIriKeys;
    PolicyKeysAreNotIris(p);
    AliasedWithoutIri(PolicyFields(p), name);
    PolicyFieldRead(p, name);
    PolicyFieldRead(p, "odrl:" + name);
  }

  lemma PrefixedRuleKeysAbsent(p: Policy)
    ensures PolicyField(p, "odrl:" + "permission") == None
    ensures PolicyField(p, "odrl:" + "prohibition") == None
    ensures PolicyField(p, "odrl:" + "obligation") == None
    ensures PolicyField(p, "assigner") == None && PolicyField(p, "assignee") == None
  {
    var a, b, c := "odrl:" + "permission", "odrl:" + "prohibition", "odrl:" + "obligation";
    assert a[5] == 'p' && b[5] == 'p' && c[5] == 'o' && a[0] == b[0] == c[0] == 'o' && a[1] == b[1] == c[1] == 'd';
    assert |a| == 15 && |b| == 16 && |c| == 15;
    assert |"assigner"| == 8 && |"assignee"| == 8 && |"obligation"| == 10 && |"prohibition"| == 11 && |"permission"| == 10;
    assert |"odrl:assignee"| == 13 && |"odrl:assigner"| == 13 && |"@id"| == 3 && |"@type"| == 5;
  }

  lemma RuleKeysRead(p: Policy)
    ensures PolicyField(p, "permission") == if p.permissions == [] then None else Some(Arr(RulesJson(p.permissions)))
    ensures PolicyField(p, "prohibition") == if p.prohibitions == [] then None else Some(Arr(RulesJson(p.prohibitions)))
    ensures PolicyField(p, "obligation") == if p.obligations == [] then None else Some(Arr(RulesJson(p.obligations)))
  {
    hide RulesJson, KindName;
    assert |"obligation"| == 10 && |"prohibition"| == 11 && |"permission"| == 10 && "obligation"[0] == 'o' && "permission"[0] == 'p';
    assert |"odrl:assignee"| == 13 && |"odrl:assigner"| == 13 && |"@id"| == 3 && |"@type"| == 5;
  }

  lemma PartiesRead(p: Policy)
    ensures PolicyField(p, "odrl:" + "assigner") == match p.assigner case Some(a) => Some(Str(a)) case None => None
    ensures PolicyField(p, "odrl:" + "assignee") == match p.assignee case Some(a) => Some(Str(a)) case None => None
    ensures PolicyField(p, "@id") == match p.id case Some(id) => Some(Str(id)) case None => None
    ensures PolicyField(p, "@type") == Some(Str(KindName(p.kind)))
  {
    hide RulesJson, KindName;
    var a, b := "odrl:" + "assigner", "odrl:" + "assignee";
    assert a == "odrl:assigner" && b == "odrl:assignee" && a[12] == 'r' && b[12] == 'e' && |a| == 13 && |b| == 13;
    assert |"obligation"| == 10 && |"prohibition"| == 11 && |"permission"| == 10 && |"@id"| == 3 && |"@type"| == 5;
  }

  lemma RuleListRead(render: Json -> string, p: Policy, key: string, rules: seq<Rule>)
    requires PolicyField(p, key) == if rules == [] then None else Some(Arr(RulesJson(rules)))
    requires PolicyField(p, "odrl:" + key) == None
    ensures RulesOf(render, PolicyJson(p), key) == ServedRules(rules)
    ensures Has(PolicyJson(p), key) <==> rules != []
  {
    hide PolicyField, PolicyFields, RuleJson, RuleOf, ServedRule, AliasedAll;
    PolicyAliased(p, key);
    FlatOne(Arr(RulesJson(rules)));
    assert OneOrManyAliased(PolicyJson(p), key) == RulesJson(rules);
    forall i | 0 <= i < |rules| ensures RuleOf(render, RulesJson(rules)[i]) == ServedRule(rules[i]) {
      RuleReadBack(render, rules[i]);
    }
    assert RulesOf(render, PolicyJson(p), key) == ServedRules(rules);
  }

  lemma PartyRead(p: Policy, name: string, value: Option<string>)
    requires PolicyField(p, name) == None
    requires PolicyField(p, "odrl:" + name) == match value case Some(a) => Some(Str(a)) case None => None
    ensures GetField(PolicyJson(p), name) == match value case Some(a) => Value(a) case None => Absent
  {
    hide PolicyField, PolicyFields, AliasedAll;
    PolicyAliased(p, name);
  }

  lemma KindRead(p: Policy)
    ensures GetString(PolicyJson(p), "@id") == p.id && KindOf(PolicyJson(p)) == p.kind
  {
    PartiesRead(p);
    PolicyFieldRead(p, "@id");
    PolicyFieldRead(p, "@type");
    hide PolicyField, PolicyFields;
    assert |"Set"| == 3 && |"Offer"| == 5 && |"Agreement"| == 9;
  }

  /** Serving a policy and reading the result back gives the policy, with its
      actions in their one spelling, `andSequence` read as `and`, and groups
      below the served depth replaced by the marker; a policy without rules
      comes back with one marker obligation. */
  lemma PolicyReadBack(render: Json -> string, p: Policy)
    ensures PolicyEntryOf(render, PolicyJson(p)) == ServedPolicy(render, p)
  {
    PrefixedRuleKeysAbsent(p);
    RuleKeysRead(p);
    PartiesRead(p);
    KindRead(p);
    hide PolicyField, PolicyFields, RulesOf, ServedRules, GetField, GetString, KindOf, Has, RawField, UnmappableRule;
    assert "odrl:" + "permission" == "odrl:permission";
    RuleListRead(render, p, "permission", p.permissions);
    RuleListRead(render, p, "prohibition", p.prohibitions);
    RuleListRead(render, p, "obligation", p.obligations);
    PartyRead(p, "assigner", p.assigner);
    PartyRead(p, "assignee", p.assignee);
    assert RULE_KEYS[0] == "permission" && RULE_KEYS[1] == "prohibition" && RULE_KEYS[2] == "obligation";
    assert HasRuleKey(PolicyJson(p)) <==> !HasNoRule(p);
  }

  // ----- When nothing changes -----

  predicate ServedAsIs(c: Constraint, groupDepth: nat) {
    c.Logical? ==>
      && c.combinator != AndSequence && groupDepth < MAX_SERVED_GROUP_DEPTH
      && forall child :: child in c.children ==> ServedAsIs(child, groupDepth + 1)
  }

  lemma {:induction false} UnchangedExactly(c: Constraint, groupDepth: nat)
    ensures Served(c, groupDepth) == c <==> ServedAsIs(c, groupDepth)
    decreases c
  {
    if c.Logical? {
      forall i | 0 <= i < |c.children| ensures Served(c.children[i], groupDepth + 1) == c.children[i] <==> ServedAsIs(c.children[i], groupDepth + 1) {
        UnchangedExactly(c.children[i], groupDepth + 1);
      }
      if Served(c, groupDepth) == c {
        forall child | child in c.children ensures ServedAsIs(child, groupDepth + 1) {
          var i :| 0 <= i < |c.children| && c.children[i] == child;
          assert Served(c, groupDepth).children[i] == c.children[i];
        }
      }
      if ServedAsIs(c, groupDepth) {
        forall i | 0 <= i < |c.children| ensures Served(c.children[i], groupDepth + 1) == c.children[i] {
          assert c.children[i] in c.children;
        }
        assert Served(c, groupDepth).children == c.children;
      }
    }
  }

  // ----- Nesting of what is served -----

  /** `v` nests arrays and objects at most `levels` deep. */
  predicate NestsAtMost(v: Json, levels: nat) {
    match v
    case Arr(items) => levels > 0 && forall item :: item in items ==> NestsAtMost(item, levels - 1)
    case Obj(fields) => levels > 0 && forall key :: key in fields ==> NestsAtMost(fields[key], levels - 1)
    case _ => true
  }

  lemma {:induction false} ConstraintNesting(c: Constraint, groupDepth: nat)
    requires groupDepth <= MAX_SERVED_GROUP_DEPTH
    ensures NestsAtMost(ConstraintJson(c, groupDepth), 2 * (MAX_SERVED_GROUP_DEPTH - groupDepth) + 1)
    decreases c
  {
    hide TripleFields;
    if c.Logical? && groupDepth < MAX_SERVED_GROUP_DEPTH {
      var levels := 2 * (MAX_SERVED_GROUP_DEPTH - groupDepth) + 1;
      var key := CombinatorName(ServedCombinator(c.combinator));
      var items := ConstraintJson(c, groupDepth).fields[key].items;
      forall i | 0 <= i < |items| ensures NestsAtMost(items[i], levels - 2) {
        ConstraintNesting(c.children[i], groupDepth + 1);
      }
      ArrayNesting(items, levels - 2);
      OneFieldNesting(key, Arr(items), levels - 1);
    } else {
      var atomic := if c.Atomic? then c else Unmappable(TOO_DEEP);
      TripleNesting(atomic.leftOperand, atomic.operator, atomic.rightOperand, 2 * (MAX_SERVED_GROUP_DEPTH - groupDepth));
    }
  }

  lemma TripleNesting(left: string, operator: string, right: string, levels: nat)
    ensures NestsAtMost(Obj(TripleFields(left, operator, right)), levels + 1)
  {
  }

  lemma ArrayNesting(items: seq<Json>, levels: nat)
    requires forall i :: 0 <= i < |items| ==> NestsAtMost(items[i], levels)
    ensures NestsAtMost(Arr(items), levels + 1)
  {
  }

  lemma OneFieldNesting(key: string, v: Json, levels: nat)
    requires NestsAtMost(v, levels)
    ensures NestsAtMost(Obj(map[key := v]), levels + 1)
  {
  }

  const CONSTRAINT_LEVELS := 2 * MAX_SERVED_GROUP_DEPTH + 1

  lemma RuleNesting(rule: Rule)
    ensures NestsAtMost(RuleJson(rule), CONSTRAINT_LEVELS + 2)
  {
    hide ConstraintJson;
    var items := ConstraintsJson(rule.constraints);
    forall i | 0 <= i < |items| ensures NestsAtMost(items[i], CONSTRAINT_LEVELS) {
      ConstraintNesting(rule.constraints[i], 0);
    }
    ArrayNesting(items, CONSTRAINT_LEVELS);
  }

  lemma RulesNesting(rules: seq<Rule>)
    ensures NestsAtMost(Arr(RulesJson(rules)), CONSTRAINT_LEVELS + 3)
  {
    hide RuleJson;
    forall i | 0 <= i < |rules| {
      RuleNesting(rules[i]);
    }
    ArrayNesting(RulesJson(rules), CONSTRAINT_LEVELS + 2);
  }

  lemma PolicyNesting(p: Policy)
    ensures NestsAtMost(PolicyJson(p), CONSTRAINT_LEVELS + 4)
  {
    hide RulesJson, PolicyFields, KindName;
    RulesNesting(p.permissions);
    RulesNesting(p.prohibitions);
    RulesNesting(p.obligations);
    forall key | key in PolicyFields(p) ensures NestsAtMost(PolicyFields(p)[key], CONSTRAINT_LEVELS + 3) {
      PolicyFieldRead(p, key);
    }
  }

  /** The array of offers a management request is answered with, as far as
      policies are concerned. */
  function ResponseJson(offers: seq<seq<seq<Policy>>>): (v: Json) {
    Arr(seq(|offers|, i requires 0 <= i < |offers| => OfferJson(offers[i])))
  }

  function OfferJson(datasets: seq<seq<Policy>>): (v: Json) {
    Obj(map["dataset" := Arr(seq(|datasets|, i requires 0 <= i < |datasets| => DatasetJson(datasets[i])))])
  }

  function DatasetJson(policies: seq<Policy>): (v: Json) {
    Obj(map["hasPolicy" := Arr(seq(|policies|, i requires 0 <= i < |policies| => PolicyJson(policies[i])))])
  }

  /** However deep the stored trees are, no served document nests deeper than
      122 levels. */
  lemma ServedNestingIsBounded(offers: seq<seq<seq<Policy>>>)
    ensures NestsAtMost(ResponseJson(offers), 122)
  {
    hide NestsAtMost, PolicyJson;
    forall policies: seq<Policy> ensures NestsAtMost(DatasetJson(policies), CONSTRAINT_LEVELS + 6) {
      forall i | 0 <= i < |policies| {
        PolicyNesting(policies[i]);
      }
      ArrayNesting(DatasetJson(policies).fields["hasPolicy"].items, CONSTRAINT_LEVELS + 4);
      OneFieldNesting("hasPolicy", DatasetJson(policies).fields["hasPolicy"], CONSTRAINT_LEVELS + 5);
    }
    forall datasets: seq<seq<Policy>> ensures NestsAtMost(OfferJson(datasets), CONSTRAINT_LEVELS + 8) {
      ArrayNesting(OfferJson(datasets).fields["dataset"].items, CONSTRAINT_LEVELS + 6);
      OneFieldNesting("dataset", OfferJson(datasets).fields["dataset"], CONSTRAINT_LEVELS + 7);
    }
    ArrayNesting(ResponseJson(offers).items, CONSTRAINT_LEVELS + 8);
  }
}
