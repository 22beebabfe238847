/** How an ODRL key is spelled does not matter (`aliased_all`, `crawler/lib.rs`):
    bare, with the `odrl:` prefix, as a full IRI, or a list split over them. */
module SpellingIndependence {
  import opened Text
  import opened CatalogCore
  import opened Parser

  /** The keys with one value, those with a list of nodes, and those only their
      presence matters for. */
  const SCALAR_KEYS := ["leftOperand", "operator", "rightOperand", "action", "assigner", "assignee"]
  const LIST_KEYS := ["permission", "prohibition", "obligation", "constraint", "xone", "or", "and", "andSequence", "hasPolicy"]
  const MARKED_KEYS := ["target", "duty"]
  const ODRL_KEYS := SCALAR_KEYS + LIST_KEYS + MARKED_KEYS

  // ----- Values that read the same -----

  /** `a` and `b` say the same under the ODRL keys, down to `levels` nodes deep
      and literally below that. */
  predicate SameReading(a: Json, b: Json, levels: nat)
    decreases levels, 0
  {
    || a == b
    || (a.Obj? && b.Obj? && levels > 0 && SameNode(a, b)
        && forall name :: name in LIST_KEYS ==> SameEntries(OneOrManyAliased(a, name), OneOrManyAliased(b, name), levels - 1))
  }

  /** One node, apart from the nodes its lists hold. */
  predicate SameNode(a: Json, b: Json) {
    && GetString(a, "@id") == GetString(b, "@id") && GetString(a, "@type") == GetString(b, "@type")
    && (forall name :: name in SCALAR_KEYS ==> GetField(a, name) == GetField(b, name))
    && (forall name :: name in ODRL_KEYS ==> (Has(a, name) <==> Has(b, name)))
  }

  predicate SameEntries(as': seq<Json>, bs: seq<Json>, levels: nat)
    decreases levels, 1
  {
    |as'| == |bs| && forall i :: 0 <= i < |as'| ==> SameReading(as'[i], bs[i], levels)
  }

  // ----- What is parsed, apart from the raw text in markers -----

  function Erased(c: Constraint): (r: Constraint) {
    match c
    case Atomic(left, operator, right) => if operator == UNMAPPABLE_OPERATOR then Atomic(left, operator, "") else c
    case Logical(combinator, children) =>
      Logical(combinator, seq(|children|, i requires 0 <= i < |children| => Erased(children[i])))
  }

  function ErasedAll(cs: seq<Constraint>): (r: seq<Constraint>) {
    seq(|cs|, i requires 0 <= i < |cs| => Erased(cs[i]))
  }

  function ErasedRule(rule: Rule): (r: Rule) {
    Rule(rule.action, ErasedAll(rule.constraints))
  }

  function ErasedRules(rules: seq<Rule>): (r: seq<Rule>) {
    seq(|rules|, i requires 0 <= i < |rules| => ErasedRule(rules[i]))
  }

  function ErasedPolicy(p: Policy): (r: Policy) {
    p.(permissions := ErasedRules(p.permissions), prohibitions := ErasedRules(p.prohibitions), obligations := ErasedRules(p.obligations))
  }

  function ErasedPolicies(ps: seq<Policy>): (r: seq<Policy>) {
    seq(|ps|, i requires 0 <= i < |ps| => ErasedPolicy(ps[i]))
  }

  lemma MarkersErase(a: string, b: string)
    ensures Erased(Unmappable(a)) == Erased(Unmappable(b))
  {
  }

  // ----- The same reading parses the same -----

  lemma KeysKnown()
    ensures forall key :: key in ATOMIC_KEYS ==> key in SCALAR_KEYS && key in ODRL_KEYS
    ensures forall c: Combinator :: CombinatorName(c) in LIST_KEYS && CombinatorName(c) in ODRL_KEYS
    ensures forall key :: key in RULE_KEYS ==> key in LIST_KEYS && key in ODRL_KEYS
    ensures forall key :: key in RULE_LEVEL_KEYS ==> key in ODRL_KEYS
    ensures "constraint" in LIST_KEYS && "hasPolicy" in LIST_KEYS && "action" in SCALAR_KEYS && "assigner" in SCALAR_KEYS && "assignee" in SCALAR_KEYS
    ensures "permission" in RULE_KEYS && "prohibition" in RULE_KEYS && "obligation" in RULE_KEYS
    ensures "leftOperand" in ATOMIC_KEYS && "operator" in ATOMIC_KEYS && "rightOperand" in ATOMIC_KEYS
  {
    assert ATOMIC_KEYS[0] == SCALAR_KEYS[0] && ATOMIC_KEYS[1] == SCALAR_KEYS[1] && ATOMIC_KEYS[2] == SCALAR_KEYS[2];
    assert SCALAR_KEYS[3] == "action" && SCALAR_KEYS[4] == "assigner" && SCALAR_KEYS[5] == "assignee";
    assert RULE_KEYS[0] == LIST_KEYS[0] && RULE_KEYS[1] == LIST_KEYS[1] && RULE_KEYS[2] == LIST_KEYS[2];
    assert LIST_KEYS[3] == "constraint" && LIST_KEYS[4] == "xone" && LIST_KEYS[5] == "or" && LIST_KEYS[6] == "and"
           && LIST_KEYS[7] == "andSequence" && LIST_KEYS[8] == "hasPolicy";
    assert RULE_LEVEL_KEYS[0] == SCALAR_KEYS[5] && RULE_LEVEL_KEYS[1] == MARKED_KEYS[0] && RULE_LEVEL_KEYS[2] == MARKED_KEYS[1];
  }

  lemma {:induction false} SameCombinators(a: Json, b: Json, candidates: seq<Combinator>)
    requires forall c: Combinator :: Has(a, CombinatorName(c)) <==> Has(b, CombinatorName(c))
    ensures PresentCombinators(a, candidates) == PresentCombinators(b, candidates)
  {
    hide Has, CombinatorName;
    if candidates != [] {
      SameCombinators(a, b, candidates[1..]);
    }
  }

  lemma SameShape(a: Json, b: Json)
    requires SameNode(a, b)
    ensures PresentCombinators(a, COMBINATORS) == PresentCombinators(b, COMBINATORS)
    ensures HasAtomicKey(a) <==> HasAtomicKey(b)
    ensures Triple(a) == Triple(b)
  {
    KeysKnown();
    hide Has, GetField, CombinatorName, PresentCombinators, GetString, SCALAR_KEYS, LIST_KEYS, ODRL_KEYS, ATOMIC_KEYS, RULE_KEYS, RULE_LEVEL_KEYS;
    SameCombinators(a, b, COMBINATORS);
  }

  lemma {:induction false} SameConstraint(render: Json -> string, a: Json, b: Json, levels: nat, depth: nat)
    requires SameReading(a, b, levels)
    ensures Erased(ParseConstraint(render, a, depth)) == Erased(ParseConstraint(render, b, depth))
    decreases levels
  {
    hide OneOrManyAliased, Triple, HasAtomicKey, PresentCombinators, Unmappable, CombinatorName, SameNode,
         SCALAR_KEYS, LIST_KEYS, ODRL_KEYS, ATOMIC_KEYS, RULE_KEYS, RULE_LEVEL_KEYS;
    if a != b {
      SameShape(a, b);
      MarkersErase(render(a), render(b));
      var groups := PresentCombinators(a, COMBINATORS);
      if groups != [] && depth < MAX_CONSTRAINT_DEPTH && OneReading(a) {
        KeysKnown();
        var key := CombinatorName(groups[0]);
        var as', bs := OneOrManyAliased(a, key), OneOrManyAliased(b, key);
        assert SameEntries(as', bs, levels - 1);
        var ca, cb := ParseConstraint(render, a, depth), ParseConstraint(render, b, depth);
        TripleNeedsItsKeys(a);
        TripleNeedsItsKeys(b);
        forall i | 0 <= i < |as'| ensures Erased(ca.children[i]) == Erased(cb.children[i]) {
          SameConstraint(render, as'[i], bs[i], levels - 1, depth + 1);
        }
        assert Erased(ca).children == Erased(cb).children;
      }
    }
  }

  lemma {:induction false} SameLevelMarkers(render: Json -> string, a: Json, b: Json, keys: seq<string>)
    requires forall key :: key in keys ==> (Has(a, key) <==> Has(b, key))
    ensures ErasedAll(RuleLevelMarkers(render, a, keys)) == ErasedAll(RuleLevelMarkers(render, b, keys))
  {
    hide Unmappable, JoinRaw, AliasedAll;
    if keys != [] {
      assert keys[0] in keys;
      SameLevelMarkers(render, a, b, keys[1..]);
      MarkersErase(keys[0] + ": " + JoinRaw(render, AliasedAll(a, keys[0])), keys[0] + ": " + JoinRaw(render, AliasedAll(b, keys[0])));
      var ma, mb := RuleLevelMarkers(render, a, keys[1..]), RuleLevelMarkers(render, b, keys[1..]);
      if Has(a, keys[0]) {
        var x, y := Unmappable(keys[0] + ": " + JoinRaw(render, AliasedAll(a, keys[0]))), Unmappable(keys[0] + ": " + JoinRaw(render, AliasedAll(b, keys[0])));
        ErasedAppend([x], ma);
        ErasedAppend([y], mb);
        assert ErasedAll([x]) == ErasedAll([y]);
      } else {
        assert [] + ma == ma && [] + mb == mb;
      }
    }
  }

  lemma ErasedAppend(xs: seq<Constraint>, ys: seq<Constraint>)
    ensures ErasedAll(xs + ys) == ErasedAll(xs) + ErasedAll(ys)
  {
    hide Erased;
  }

  lemma SameParsedConstraints(render: Json -> string, as': seq<Json>, bs: seq<Json>, levels: nat)
    requires SameEntries(as', bs, levels)
    ensures ErasedAll(ParseConstraints(render, as')) == ErasedAll(ParseConstraints(render, bs))
  {
    hide ParseConstraint, Erased, SameReading;
    forall i | 0 <= i < |as'| ensures Erased(ParseConstraint(render, as'[i], 0)) == Erased(ParseConstraint(render, bs[i], 0)) {
      SameConstraint(render, as'[i], bs[i], levels, 0);
    }
  }

  lemma SameRule(render: Json -> string, a: Json, b: Json, levels: nat)
    requires SameReading(a, b, levels)
    ensures ErasedRule(RuleOf(render, a)) == ErasedRule(RuleOf(render, b))
  {
    hide OneOrManyAliased, GetField, RuleLevelMarkers, ParseConstraints, Unmappable, NormalizeAction, ErasedAll, GetString, Has,
         SCALAR_KEYS, LIST_KEYS, MARKED_KEYS, ODRL_KEYS, ATOMIC_KEYS, RULE_KEYS, RULE_LEVEL_KEYS;
    if a != b {
      KeysKnown();
      assert SameEntries(OneOrManyAliased(a, "constraint"), OneOrManyAliased(b, "constraint"), levels - 1);
      assert GetField(a, "action") == GetField(b, "action");
      SameLevelMarkers(render, a, b, RULE_LEVEL_KEYS);
      hide SameReading, SameNode;
      var pa, pb := ParseConstraints(render, OneOrManyAliased(a, "constraint")), ParseConstraints(render, OneOrManyAliased(b, "constraint"));
      var la, lb := RuleLevelMarkers(render, a, RULE_LEVEL_KEYS), RuleLevelMarkers(render, b, RULE_LEVEL_KEYS);
      SameParsedConstraints(render, OneOrManyAliased(a, "constraint"), OneOrManyAliased(b, "constraint"), levels - 1);
      ErasedAppend(pa, la);
      ErasedAppend(pb, lb);
      var x, y := Unmappable(render(a)), Unmappable(render(b));
      ErasedAppend([x], pa + la);
      ErasedAppend([y], pb + lb);
      OneMarker(render(a), render(b));
    }
  }

  lemma OneMarker(a: string, b: string)
    ensures ErasedAll([Unmappable(a)]) == ErasedAll([Unmappable(b)])
  {
    MarkersErase(a, b);
  }

  lemma SameRules(render: Json -> string, a: Json, b: Json, levels: nat, key: string)
    requires a != b && SameReading(a, b, levels) && key in RULE_KEYS
    ensures ErasedRules(RulesOf(render, a, key)) == ErasedRules(RulesOf(render, b, key))
  {
    hide OneOrManyAliased, RuleOf, ErasedRule, SameNode, SCALAR_KEYS, LIST_KEYS, ODRL_KEYS, ATOMIC_KEYS, RULE_KEYS, RULE_LEVEL_KEYS;
    KeysKnown();
    var as', bs := OneOrManyAliased(a, key), OneOrManyAliased(b, key);
    assert SameEntries(as', bs, levels - 1);
    hide SameReading;
    forall i | 0 <= i < |as'| ensures ErasedRule(RuleOf(render, as'[i])) == ErasedRule(RuleOf(render, bs[i])) {
      SameRule(render, as'[i], bs[i], levels - 1);
    }
  }

  lemma MarkerRules(render: Json -> string, a: Json, b: Json)
    ensures ErasedRule(UnmappableRule(render, a)) == ErasedRule(UnmappableRule(render, b))
  {
    OneMarker(render(a), render(b));
  }

  lemma SamePolicyMarkers(render: Json -> string, a: Json, b: Json)
    requires HasRuleKey(a) <==> HasRuleKey(b)
    requires GetField(a, "assignee").Unreadable? <==> GetField(b, "assignee").Unreadable?
    ensures ErasedRules(PolicyMarkers(render, a)) == ErasedRules(PolicyMarkers(render, b))
  {
    hide HasRuleKey, GetField, UnmappableRule, ErasedRule, RawField;
    MarkerRules(render, a, b);
    MarkerRules(render, RawField(a, "assignee"), RawField(b, "assignee"));
  }

  lemma ErasedRulesAppend(xs: seq<Rule>, ys: seq<Rule>)
    ensures ErasedRules(xs + ys) == ErasedRules(xs) + ErasedRules(ys)
  {
    hide ErasedRule;
  }

  lemma SamePolicyNode(a: Json, b: Json)
    requires SameNode(a, b)
    ensures GetString(a, "@id") == GetString(b, "@id") && KindOf(a) == KindOf(b)
    ensures GetField(a, "assigner") == GetField(b, "assigner") && GetField(a, "assignee") == GetField(b, "assignee")
    ensures HasRuleKey(a) <==> HasRuleKey(b)
  {
    KeysKnown();
    hide Has, GetField, GetString;
  }

  /** A policy entry re-spelled at any depth parses to the same policy, apart
      from the raw text its markers keep. */
  lemma SamePolicy(render: Json -> string, a: Json, b: Json, levels: nat)
    requires SameReading(a, b, levels)
    ensures ErasedPolicy(PolicyEntryOf(render, a)) == ErasedPolicy(PolicyEntryOf(render, b))
  {
    if a != b {
      SamePolicyNode(a, b);
      KeysKnown();
      SameRules(render, a, b, levels, "permission");
      SameRules(render, a, b, levels, "prohibition");
      SameRules(render, a, b, levels, "obligation");
      SamePolicyMarkers(render, a, b);
      hide RulesOf, PolicyMarkers, ErasedRules, GetField, GetString, KindOf, SameNode, HasRuleKey;
      ErasedRulesAppend(RulesOf(render, a, "obligation"), PolicyMarkers(render, a));
      ErasedRulesAppend(RulesOf(render, b, "obligation"), PolicyMarkers(render, b));
    }
  }

  /** So do all the policies of a dataset. */
  lemma SamePolicies(render: Json -> string, a: Json, b: Json, levels: nat)
    requires SameReading(a, b, levels)
    ensures ErasedPolicies(PoliciesOf(render, a)) == ErasedPolicies(PoliciesOf(render, b))
  {
    hide OneOrManyAliased, PolicyEntryOf, ErasedPolicy, SameNode, SCALAR_KEYS, LIST_KEYS, ODRL_KEYS, ATOMIC_KEYS, RULE_KEYS, RULE_LEVEL_KEYS;
    if a != b {
      KeysKnown();
      var as', bs := OneOrManyAliased(a, "hasPolicy"), OneOrManyAliased(b, "hasPolicy");
      assert SameEntries(as', bs, levels - 1);
      hide SameReading;
      forall i | 0 <= i < |as'| ensures ErasedPolicy(PolicyEntryOf(render, as'[i])) == ErasedPolicy(PolicyEntryOf(render, bs[i])) {
        SamePolicy(render, as'[i], bs[i], levels - 1);
      }
    }
  }

  // ----- Re-spelling -----

  /** Not itself a prefixed or full spelling, nor a JSON-LD keyword. */
  predicate Plain(name: string) {
    ':' !in name && '@' !in name
  }

  lemma {:induction false} PlainKeys(keys: seq<string>)
    requires AllPlain(keys)
    ensures forall name :: name in keys ==> Plain(name)
  {
    if keys != [] {
      PlainKeys(keys[1..]);
    }
  }

  predicate AllPlain(keys: seq<string>) {
    keys == [] || (Plain(keys[0]) && AllPlain(keys[1..]))
  }

  lemma ScalarKeysArePlain()
    ensures AllPlain(SCALAR_KEYS)
  {
  }

  lemma RuleListKeysArePlain()
    ensures AllPlain(["permission", "prohibition", "obligation", "constraint"])
  {
  }

  lemma GroupListKeysArePlain()
    ensures AllPlain(["xone", "or", "and", "andSequence", "hasPolicy"])
  {
  }

  lemma MarkedKeysArePlain()
    ensures AllPlain(MARKED_KEYS)
  {
  }

  lemma KeysArePlain()
    ensures forall name :: name in ODRL_KEYS ==> Plain(name)
  {
    ScalarKeysArePlain();
    RuleListKeysArePlain();
    GroupListKeysArePlain();
    var rules, groups := ["permission", "prohibition", "obligation", "constraint"], ["xone", "or", "and", "andSequence", "hasPolicy"];
    assert LIST_KEYS == rules + groups;
    MarkedKeysArePlain();
    hide SCALAR_KEYS, LIST_KEYS, MARKED_KEYS, AllPlain, Plain;
    PlainKeys(SCALAR_KEYS);
    PlainKeys(rules);
    PlainKeys(groups);
    PlainKeys(MARKED_KEYS);
  }

  lemma SpellingsApart(m: string, n: string, key: string)
    requires Plain(m) && Plain(n) && key in Spellings(m) && key in Spellings(n)
    ensures m == n
  {
    assert ("odrl:" + m)[4] == ':' && ("odrl:" + n)[4] == ':' && ODRL_NS[4] == ':' && |ODRL_NS| > 5;
    assert (ODRL_NS + m)[4] == ':' && (ODRL_NS + n)[4] == ':';
    assert ODRL_NS[0] == 'h' && (ODRL_NS + m)[0] == 'h' && (ODRL_NS + n)[0] == 'h' && ("odrl:" + m)[0] == 'o' && ("odrl:" + n)[0] == 'o';
    assert ("odrl:" + m)[5..] == m && ("odrl:" + n)[5..] == n;
    assert (ODRL_NS + m)[|ODRL_NS|..] == m && (ODRL_NS + n)[|ODRL_NS|..] == n;
    assert forall s: string, i :: 0 <= i < |s| && s[i] == ':' ==> ':' in s;
  }

  lemma SpellingsHaveNoAt(n: string, key: string)
    requires Plain(n) && key in Spellings(n)
    ensures key != "@id" && key != "@type"
  {
    assert '@' == "@id"[0] && '@' == "@type"[0];
    assert ODRL_NS[0] == 'h';
    assert key != "" && key[0] == '@' ==> '@' in n;
  }

  lemma {:induction false} PresentAtSame(f: map<string, Json>, g: map<string, Json>, keys: seq<string>)
    requires forall key :: key in keys ==> Get(Obj(f), key) == Get(Obj(g), key)
    ensures PresentAt(Obj(f), keys) == PresentAt(Obj(g), keys)
  {
    hide Get;
    if keys != [] {
      assert keys[0] in keys;
      PresentAtSame(f, g, keys[1..]);
    }
  }

  /** Changing the spellings of `n` only leaves every other key as it is. */
  lemma OthersUntouched(f: map<string, Json>, g: map<string, Json>, n: string)
    requires Plain(n)
    requires forall key :: key !in Spellings(n) ==> Get(Obj(f), key) == Get(Obj(g), key)
    ensures forall m :: m in ODRL_KEYS && m != n ==> AliasedAll(Obj(f), m) == AliasedAll(Obj(g), m)
    ensures GetString(Obj(f), "@id") == GetString(Obj(g), "@id") && GetString(Obj(f), "@type") == GetString(Obj(g), "@type")
  {
    hide Get, Spellings, PresentAt, Plain;
    KeysArePlain();
    forall m | m in ODRL_KEYS && m != n ensures AliasedAll(Obj(f), m) == AliasedAll(Obj(g), m) {
      forall key | key in Spellings(m) ensures Get(Obj(f), key) == Get(Obj(g), key) {
        if key in Spellings(n) {
          SpellingsApart(m, n, key);
        }
      }
      PresentAtSame(f, g, Spellings(m));
    }
    forall key | key in Spellings(n) ensures key != "@id" && key != "@type" {
      SpellingsHaveNoAt(n, key);
    }
  }

  lemma SpellingsDiffer(n: string)
    ensures n != "odrl:" + n && n != ODRL_NS + n && "odrl:" + n != ODRL_NS + n
  {
    assert |"odrl:" + n| == |n| + 5 && |ODRL_NS + n| == |n| + |ODRL_NS| && |ODRL_NS| > 5;
  }

  /** Spelling `q` of `n`: bare, prefixed, in full. */
  function Spelled(n: string, q: nat): (key: string)
    requires q < 3
  {
    Spellings(n)[q]
  }

  /** Of the spellings `lo` to `hi` of `n`, `f` has none but those in `but`. */
  predicate Free(f: map<string, Json>, n: string, lo: nat, hi: nat, but: set<nat>) {
    forall q: nat :: lo <= q <= hi && q < 3 && q !in but ==> Spelled(n, q) !in f
  }

  function Min(a: nat, b: nat): (m: nat) {
    if a < b then a else b
  }

  function Max(a: nat, b: nat): (m: nat) {
    if a < b then b else a
  }

  lemma SpelledApart(n: string)
    ensures Spelled(n, 0) == n && Spelled(n, 1) == "odrl:" + n && Spelled(n, 2) == ODRL_NS + n
    ensures forall q: nat, r: nat :: q < 3 && r < 3 && Spelled(n, q) == Spelled(n, r) ==> q == r
    ensures forall q: nat :: q < 3 ==> Spelled(n, q) in Spellings(n)
  {
    SpellingsDiffer(n);
  }

  function Moved(f: map<string, Json>, n: string, i: nat, j: nat): (g: map<string, Json>)
    requires i < 3 && j < 3 && Spelled(n, i) in f
  {
    (f - {Spelled(n, i)})[Spelled(n, j) := f[Spelled(n, i)]]
  }

  function Concat3(a: seq<seq<Json>>): (r: seq<Json>)
    requires |a| == 3
  {
    a[0] + a[1] + a[2]
  }

  /** What the slots hold together only depends on what those that differ do. */
  lemma SameAround(a: seq<seq<Json>>, b: seq<seq<Json>>, lo: nat, hi: nat)
    requires |a| == |b| == 3 && lo <= hi < 3
    requires forall q :: 0 <= q < 3 && (q < lo || q > hi) ==> a[q] == b[q]
    requires Joined(a, lo, hi) == Joined(b, lo, hi)
    ensures Concat3(a) == Concat3(b)
  {
    if lo == hi {
    } else if lo == 0 && hi == 1 {
      assert Joined(a, 0, 0) == a[0] && Joined(b, 0, 0) == b[0];
      assert a[0] + a[1] == b[0] + b[1];
    } else if lo == 0 {
      assert Joined(a, 0, 0) == a[0] && Joined(b, 0, 0) == b[0];
      assert Joined(a, 0, 1) == a[0] + a[1] && Joined(b, 0, 1) == b[0] + b[1];
    } else {
      assert Joined(a, 1, 1) == a[1] && Joined(b, 1, 1) == b[1];
      assert Concat3(a) == a[0] + (a[1] + a[2]) == b[0] + (b[1] + b[2]) == Concat3(b);
    }
  }

  function Joined(a: seq<seq<Json>>, lo: nat, hi: nat): (r: seq<Json>)
    requires lo <= hi < |a|
  {
    if lo == hi then a[lo] else Joined(a, lo, hi - 1) + a[hi]
  }

  lemma {:induction false} NoneJoined(a: seq<seq<Json>>, lo: nat, hi: nat)
    requires lo <= hi < |a| && forall q :: lo <= q <= hi ==> a[q] == []
    ensures Joined(a, lo, hi) == []
  {
    if lo < hi {
      NoneJoined(a, lo, hi - 1);
    }
  }

  lemma {:induction false} OneJoined(a: seq<seq<Json>>, lo: nat, hi: nat, i: nat)
    requires lo <= i <= hi < |a| && forall q :: lo <= q <= hi && q != i ==> a[q] == []
    ensures Joined(a, lo, hi) == a[i]
  {
    if lo < hi {
      if i == hi {
        NoneJoined(a, lo, hi - 1);
      } else {
        OneJoined(a, lo, hi - 1, i);
      }
    }
  }

  lemma {:induction false} TwoJoined(a: seq<seq<Json>>, lo: nat, hi: nat, i: nat, j: nat)
    requires lo <= i < j <= hi < |a| && forall q :: lo <= q <= hi && q != i && q != j ==> a[q] == []
    ensures Joined(a, lo, hi) == a[i] + a[j]
  {
    if j == hi {
      OneJoined(a, lo, hi - 1, i);
    } else {
      TwoJoined(a, lo, hi - 1, i, j);
    }
  }

  function Slots(f: map<string, Json>, n: string): (a: seq<seq<Json>>)
    ensures |a| == 3
  {
    [HeldAt(f, Spelled(n, 0)), HeldAt(f, Spelled(n, 1)), HeldAt(f, Spelled(n, 2))]
  }

  lemma SlotsAreHeld(f: map<string, Json>, n: string)
    ensures Concat3(Slots(f, n)) == Held(f, n)
    ensures forall q: nat :: q < 3 ==> Slots(f, n)[q] == HeldAt(f, Spelled(n, q))
  {
  }

  lemma MovedSlots(f: map<string, Json>, n: string, i: nat, j: nat, q: nat)
    requires i < 3 && j < 3 && q < 3 && Spelled(n, i) in f
    ensures Slots(Moved(f, n, i, j), n)[q] == if q == j then [f[Spelled(n, i)]] else if q == i then [] else Slots(f, n)[q]
  {
    SpelledApart(n);
    SlotsAreHeld(f, n);
    SlotsAreHeld(Moved(f, n, i, j), n);
    hide Spellings, Spelled, Slots, Held, Concat3;
  }

  /** What one slot held stands in another, and the slots around are empty. */
  lemma MovedJoins(a: seq<seq<Json>>, b: seq<seq<Json>>, lo: nat, hi: nat, i: nat, j: nat)
    requires |a| == |b| == 3 && lo <= i <= hi < 3 && lo <= j <= hi && b[j] == a[i]
    requires forall q :: lo <= q <= hi ==> (q != i ==> a[q] == []) && (q != j ==> b[q] == [])
    requires forall q :: 0 <= q < 3 && (q < lo || q > hi) ==> a[q] == b[q]
    ensures Concat3(a) == Concat3(b)
  {
    hide *;
    OneJoined(a, lo, hi, i);
    OneJoined(b, lo, hi, j);
    SameAround(a, b, lo, hi);
  }

  lemma MovedIsHeld(f: map<string, Json>, n: string, i: nat, j: nat)
    requires i < 3 && j < 3 && Spelled(n, i) in f && Free(f, n, Min(i, j), Max(i, j), {i})
    ensures Held(Moved(f, n, i, j), n) == Held(f, n)
  {
    var g := Moved(f, n, i, j);
    SlotsAreHeld(f, n);
    SlotsAreHeld(g, n);
    hide Spellings, Spelled, Held, Slots, Concat3, Moved;
    forall q: nat | q < 3 {
      MovedSlots(f, n, i, j, q);
    }
    MovedJoins(Slots(f, n), Slots(g, n), Min(i, j), Max(i, j), i, j);
  }

  /** Moving a key's value from one spelling to another changes nothing, as
      long as no other spelling of the key is passed. */
  lemma MovedKeyReadsTheSame(f: map<string, Json>, n: string, i: nat, j: nat)
    requires n in ODRL_KEYS && i < 3 && j < 3 && Spelled(n, i) in f
    requires Free(f, n, Min(i, j), Max(i, j), {i})
    ensures SameReading(Obj(f), Obj(Moved(f, n, i, j)), 1)
  {
    var g := Moved(f, n, i, j);
    KeysArePlain();
    SpelledApart(n);
    MovedIsHeld(f, n, i, j);
    hide Spellings, Held, Free, AliasedAll, GetString, SCALAR_KEYS, LIST_KEYS, MARKED_KEYS, SameReading, Plain;
    OthersUntouched(f, g, n);
    AliasedIsHeld(f, n);
    AliasedIsHeld(g, n);
    SameAliasesReadTheSame(f, g);
  }

  lemma SameAliasesReadTheSame(f: map<string, Json>, g: map<string, Json>)
    requires forall m :: m in ODRL_KEYS ==> AliasedAll(Obj(f), m) == AliasedAll(Obj(g), m)
    requires GetString(Obj(f), "@id") == GetString(Obj(g), "@id") && GetString(Obj(f), "@type") == GetString(Obj(g), "@type")
    ensures SameReading(Obj(f), Obj(g), 1)
  {
    hide AliasedAll, GetString, FlatOneOrMany, JsonLdScalar;
    assert forall m :: m in SCALAR_KEYS ==> m in ODRL_KEYS;
    assert forall m :: m in LIST_KEYS ==> m in ODRL_KEYS;
    forall m | m in LIST_KEYS ensures SameEntries(OneOrManyAliased(Obj(f), m), OneOrManyAliased(Obj(g), m), 0) {
    }
  }

  lemma FlatTwo(a: Json, b: Json)
    ensures FlatOneOrMany([a, b]) == OneOrMany(a) + OneOrMany(b)
    ensures FlatOneOrMany([a]) == OneOrMany(a)
  {
    assert [a, b][1..] == [b] && [b][1..] == [] && [a][1..] == [];
    assert FlatOneOrMany([b]) == OneOrMany(b) + FlatOneOrMany([]) == OneOrMany(b);
    assert FlatOneOrMany([a]) == OneOrMany(a) + FlatOneOrMany([]) == OneOrMany(a);
  }

  function Split(f: map<string, Json>, n: string, p: nat, i: nat, j: nat, xs: seq<Json>, ys: seq<Json>): (g: map<string, Json>)
    requires p < 3 && i < j < 3
  {
    (f - {Spelled(n, p)})[Spelled(n, i) := Arr(xs)][Spelled(n, j) := Arr(ys)]
  }

  function EntriesAt(f: map<string, Json>, n: string, q: nat): (entries: seq<Json>)
    requires q < 3
  {
    FlatOneOrMany(HeldAt(f, Spelled(n, q)))
  }

  lemma EntriesIn(f: map<string, Json>, n: string)
    ensures OneOrManyAliased(Obj(f), n) == EntriesAt(f, n, 0) + EntriesAt(f, n, 1) + EntriesAt(f, n, 2)
  {
    SpelledApart(n);
    AliasedIsHeld(f, n);
    hide Spelled, Spellings;
    FlatAppend(HeldAt(f, n) + HeldAt(f, "odrl:" + n), HeldAt(f, ODRL_NS + n));
    FlatAppend(HeldAt(f, n), HeldAt(f, "odrl:" + n));
  }

  lemma ArrayEntriesAt(f: map<string, Json>, n: string, q: nat)
    requires q < 3
    ensures Spelled(n, q) !in f ==> EntriesAt(f, n, q) == []
    ensures Spelled(n, q) in f ==> EntriesAt(f, n, q) == OneOrMany(f[Spelled(n, q)])
  {
    if Spelled(n, q) in f {
      FlatTwo(f[Spelled(n, q)], Null);
    }
  }

  function EntrySlots(f: map<string, Json>, n: string): (a: seq<seq<Json>>)
    ensures |a| == 3
  {
    [EntriesAt(f, n, 0), EntriesAt(f, n, 1), EntriesAt(f, n, 2)]
  }

  lemma EntrySlotsAre(f: map<string, Json>, n: string)
    ensures Concat3(EntrySlots(f, n)) == OneOrManyAliased(Obj(f), n)
    ensures forall q: nat :: q < 3 ==>
              EntrySlots(f, n)[q] == if Spelled(n, q) in f then OneOrMany(f[Spelled(n, q)]) else []
  {
    EntriesIn(f, n);
    hide EntriesAt, OneOrManyAliased;
    forall q: nat | q < 3
      ensures EntrySlots(f, n)[q] == if Spelled(n, q) in f then OneOrMany(f[Spelled(n, q)]) else []
    {
      ArrayEntriesAt(f, n, q);
    }
  }

  lemma ArrayEntries(items: seq<Json>)
    ensures OneOrMany(Arr(items)) == items
  {
  }

  lemma SplitHas(f: map<string, Json>, n: string, p: nat, i: nat, j: nat, xs: seq<Json>, ys: seq<Json>, q: nat)
    requires p < 3 && i < j < 3 && q < 3
    ensures var g := Split(f, n, p, i, j, xs, ys);
            if q == i then Spelled(n, q) in g && g[Spelled(n, q)] == Arr(xs)
            else if q == j then Spelled(n, q) in g && g[Spelled(n, q)] == Arr(ys)
            else if q == p then Spelled(n, q) !in g
            else (Spelled(n, q) in g <==> Spelled(n, q) in f) && (Spelled(n, q) in f ==> g[Spelled(n, q)] == f[Spelled(n, q)])
  {
    SpelledApart(n);
    hide Spellings, Spelled;
  }

  lemma SplitSlots(f: map<string, Json>, n: string, p: nat, i: nat, j: nat, xs: seq<Json>, ys: seq<Json>, q: nat)
    requires p < 3 && i < j < 3 && q < 3
    ensures EntrySlots(Split(f, n, p, i, j, xs, ys), n)[q] ==
            if q == i then xs else if q == j then ys else if q == p then [] else EntrySlots(f, n)[q]
  {
    hide *;
    ArrayEntries(xs);
    ArrayEntries(ys);
    SplitHas(f, n, p, i, j, xs, ys, q);
    EntrySlotsAre(f, n);
    EntrySlotsAre(Split(f, n, p, i, j, xs, ys), n);
  }

  lemma SplitJoins(a: seq<seq<Json>>, b: seq<seq<Json>>, lo: nat, hi: nat, p: nat, i: nat, j: nat)
    requires |a| == |b| == 3 && lo <= i < j <= hi < 3 && lo <= p <= hi && b[i] + b[j] == a[p]
    requires forall q :: lo <= q <= hi ==> (q != p ==> a[q] == []) && (q != i && q != j ==> b[q] == [])
    requires forall q :: 0 <= q < 3 && (q < lo || q > hi) ==> a[q] == b[q]
    ensures Concat3(a) == Concat3(b)
  {
    hide *;
    OneJoined(a, lo, hi, p);
    TwoJoined(b, lo, hi, i, j);
    SameAround(a, b, lo, hi);
  }

  lemma FreeSlots(f: map<string, Json>, n: string, lo: nat, hi: nat, p: nat)
    requires Free(f, n, lo, hi, {p})
    ensures forall q: nat :: lo <= q <= hi && q < 3 && q != p ==> EntrySlots(f, n)[q] == []
  {
    EntrySlotsAre(f, n);
    hide Spelled, EntrySlots, OneOrManyAliased, OneOrMany, Concat3;
  }

  lemma SplitEntries(f: map<string, Json>, n: string, p: nat, i: nat, j: nat, xs: seq<Json>, ys: seq<Json>)
    requires p < 3 && i < j < 3 && Spelled(n, p) in f && f[Spelled(n, p)] == Arr(xs + ys)
    requires Free(f, n, Min(p, i), Max(p, j), {p})
    ensures OneOrManyAliased(Obj(Split(f, n, p, i, j, xs, ys)), n) == OneOrManyAliased(Obj(f), n)
  {
    var g := Split(f, n, p, i, j, xs, ys);
    var lo, hi := Min(p, i), Max(p, j);
    assert lo <= i < j <= hi < 3 && lo <= p <= hi;
    hide *;
    FreeSlots(f, n, lo, hi, p);
    EntrySlotsAre(f, n);
    EntrySlotsAre(g, n);
    ArrayEntries(xs + ys);
    forall q: nat | q < 3 {
      SplitSlots(f, n, p, i, j, xs, ys, q);
    }
    SplitJoins(EntrySlots(f, n), EntrySlots(g, n), lo, hi, p, i, j);
  }

  lemma SplitOthers(f: map<string, Json>, n: string, p: nat, i: nat, j: nat, xs: seq<Json>, ys: seq<Json>)
    requires n in ODRL_KEYS && p < 3 && i < j < 3 && Spelled(n, p) in f
    ensures var g := Split(f, n, p, i, j, xs, ys);
            && Has(Obj(f), n) && Has(Obj(g), n)
            && (forall m :: m in ODRL_KEYS && m != n ==> AliasedAll(Obj(f), m) == AliasedAll(Obj(g), m))
            && GetString(Obj(f), "@id") == GetString(Obj(g), "@id") && GetString(Obj(f), "@type") == GetString(Obj(g), "@type")
  {
    var g := Split(f, n, p, i, j, xs, ys);
    KeysArePlain();
    SpelledApart(n);
    HasSpelling(f, n, p);
    HasSpelling(g, n, i);
    hide Spellings, Spelled, AliasedAll, GetString, Plain, ODRL_KEYS;
    OthersUntouched(f, g, n);
  }

  lemma HasSpelling(f: map<string, Json>, n: string, q: nat)
    requires q < 3 && Spelled(n, q) in f
    ensures Has(Obj(f), n)
  {
    SpelledApart(n);
    AliasedIsHeld(f, n);
    hide Spellings, AliasedAll;
    assert f[Spelled(n, q)] in Held(f, n);
  }

  /** Nor does splitting a list over two spellings, in spelling order, or
      putting two such lists together. */
  lemma SplitListReadsTheSame(f: map<string, Json>, n: string, p: nat, i: nat, j: nat, xs: seq<Json>, ys: seq<Json>)
    requires n in LIST_KEYS && p < 3 && i < j < 3 && Spelled(n, p) in f && f[Spelled(n, p)] == Arr(xs + ys)
    requires Free(f, n, Min(p, i), Max(p, j), {p})
    ensures SameReading(Obj(f), Obj(Split(f, n, p, i, j, xs, ys)), 1)
    ensures SameReading(Obj(Split(f, n, p, i, j, xs, ys)), Obj(f), 1)
  {
    assert n in ODRL_KEYS;
    SplitEntries(f, n, p, i, j, xs, ys);
    hide *;
    SplitOthers(f, n, p, i, j, xs, ys);
    SplitAliasesReadTheSame(f, Split(f, n, p, i, j, xs, ys), n);
    SplitAliasesReadTheSame(Split(f, n, p, i, j, xs, ys), f, n);
  }

  lemma SplitAliasesReadTheSame(f: map<string, Json>, g: map<string, Json>, n: string)
    requires n in LIST_KEYS && Has(Obj(f), n) && Has(Obj(g), n)
    requires OneOrManyAliased(Obj(f), n) == OneOrManyAliased(Obj(g), n)
    requires forall m :: m in ODRL_KEYS && m != n ==> AliasedAll(Obj(f), m) == AliasedAll(Obj(g), m)
    requires GetString(Obj(f), "@id") == GetString(Obj(g), "@id") && GetString(Obj(f), "@type") == GetString(Obj(g), "@type")
    ensures SameReading(Obj(f), Obj(g), 1)
  {
    ListsAreNotScalars();
    hide AliasedAll, GetString, FlatOneOrMany, JsonLdScalar;
    assert forall m :: m in SCALAR_KEYS ==> m in ODRL_KEYS && m != n;
    assert forall m :: m in LIST_KEYS ==> m in ODRL_KEYS;
    forall m | m in LIST_KEYS ensures SameEntries(OneOrManyAliased(Obj(f), m), OneOrManyAliased(Obj(g), m), 0) {
    }
  }

  lemma ListsAreNotScalars()
    ensures forall m :: m in SCALAR_KEYS ==> m !in LIST_KEYS
  {
    assert |"leftOperand"| == 11 && |"operator"| == 8 && |"rightOperand"| == 12 && |"action"| == 6 && |"assigner"| == 8 && |"assignee"| == 8;
    assert |"permission"| == 10 && |"prohibition"| == 11 && |"obligation"| == 10 && |"constraint"| == 10 && |"xone"| == 4 && |"or"| == 2
           && |"and"| == 3 && |"andSequence"| == 11 && |"hasPolicy"| == 9;
    assert "leftOperand"[0] == 'l' && "prohibition"[0] == 'p' && "andSequence"[0] == 'a';
  }

  lemma ValueChanged(f: map<string, Json>, n: string, q: nat, v: Json, r: nat, levels: nat)
    requires q < 3 && r < 3 && Spelled(n, q) in f && SameEntries(OneOrMany(f[Spelled(n, q)]), OneOrMany(v), levels)
    ensures SameEntries(EntriesAt(f, n, r), EntriesAt(f[Spelled(n, q) := v], n, r), levels)
  {
    SpelledApart(n);
    var g := f[Spelled(n, q) := v];
    ArrayEntriesAt(f, n, r);
    ArrayEntriesAt(g, n, r);
    hide Spellings, Spelled, EntriesAt, OneOrMany, SameReading;
    if r != q {
      assert Spelled(n, r) in f <==> Spelled(n, r) in g;
      EntriesAreThemselves(EntriesAt(f, n, r), levels);
    }
  }

  lemma EntriesAppend(as1: seq<Json>, bs1: seq<Json>, as2: seq<Json>, bs2: seq<Json>, levels: nat)
    requires SameEntries(as1, bs1, levels) && SameEntries(as2, bs2, levels)
    ensures SameEntries(as1 + as2, bs1 + bs2, levels)
  {
    hide SameReading;
  }

  /** Re-spelling nodes among a key's entries, however they are held, re-spells
      the node that holds them: changes at any depth add up. */
  lemma NestedChangesReadTheSame(f: map<string, Json>, n: string, q: nat, v: Json, levels: nat)
    requires n in LIST_KEYS && q < 3 && Spelled(n, q) in f
    requires SameEntries(OneOrMany(f[Spelled(n, q)]), OneOrMany(v), levels)
    ensures SameReading(Obj(f), Obj(f[Spelled(n, q) := v]), levels + 1)
  {
    var g := f[Spelled(n, q) := v];
    assert n in ODRL_KEYS;
    KeysArePlain();
    SpelledApart(n);
    hide Spellings, Spelled, SameReading, SameEntries, EntriesAt, OneOrMany, Has, OneOrManyAliased, ODRL_KEYS, LIST_KEYS, Plain, GetString, AliasedAll;
    OthersUntouched(f, g, n);
    HasSpelling(f, n, q);
    HasSpelling(g, n, q);
    EntriesIn(f, n);
    EntriesIn(g, n);
    ValueChanged(f, n, q, v, 0, levels);
    ValueChanged(f, n, q, v, 1, levels);
    ValueChanged(f, n, q, v, 2, levels);
    EntriesAppend(EntriesAt(f, n, 0), EntriesAt(g, n, 0), EntriesAt(f, n, 1), EntriesAt(g, n, 1), levels);
    EntriesAppend(EntriesAt(f, n, 0) + EntriesAt(f, n, 1), EntriesAt(g, n, 0) + EntriesAt(g, n, 1),
                  EntriesAt(f, n, 2), EntriesAt(g, n, 2), levels);
    ChangedListReadsTheSame(f, g, n, levels);
  }

  lemma ChangedListReadsTheSame(f: map<string, Json>, g: map<string, Json>, n: string, levels: nat)
    requires n in LIST_KEYS && (Has(Obj(f), n) <==> Has(Obj(g), n))
    requires SameEntries(OneOrManyAliased(Obj(f), n), OneOrManyAliased(Obj(g), n), levels)
    requires forall m :: m in ODRL_KEYS && m != n ==> AliasedAll(Obj(f), m) == AliasedAll(Obj(g), m)
    requires GetString(Obj(f), "@id") == GetString(Obj(g), "@id") && GetString(Obj(f), "@type") == GetString(Obj(g), "@type")
    ensures SameReading(Obj(f), Obj(g), levels + 1)
  {
    ListsAreNotScalars();
    hide AliasedAll, GetString, FlatOneOrMany, JsonLdScalar;
    assert forall m :: m in SCALAR_KEYS ==> m in ODRL_KEYS && m != n;
    assert forall m :: m in LIST_KEYS ==> m in ODRL_KEYS;
    forall m | m in LIST_KEYS ensures SameEntries(OneOrManyAliased(Obj(f), m), OneOrManyAliased(Obj(g), m), levels) {
      if m != n {
        EntriesAreThemselves(OneOrManyAliased(Obj(f), m), levels);
      }
    }
  }

  lemma EntriesAreThemselves(entries: seq<Json>, levels: nat)
    ensures SameEntries(entries, entries, levels)
  {
  }

  /** Nor does writing a scalar another way that reads the same. */
  lemma RewrittenScalarReadsTheSame(f: map<string, Json>, n: string, q: nat, v: Json)
    requires n in SCALAR_KEYS && q < 3 && Spelled(n, q) in f
    requires JsonLdScalar(f[Spelled(n, q)]) == JsonLdScalar(v)
    ensures SameReading(Obj(f), Obj(f[Spelled(n, q) := v]), 1)
  {
    var g := f[Spelled(n, q) := v];
    assert n in ODRL_KEYS;
    KeysArePlain();
    SpelledApart(n);
    AliasedIsHeld(f, n);
    AliasedIsHeld(g, n);
    SlotsAreHeld(f, n);
    SlotsAreHeld(g, n);
    hide Spellings, Spelled, SameReading, Has, OneOrManyAliased, ODRL_KEYS, LIST_KEYS, SCALAR_KEYS, Plain, GetString, AliasedAll, JsonLdScalar, Slots;
    OthersUntouched(f, g, n);
    forall r: nat | r < 3
      ensures |Slots(f, n)[r]| == |Slots(g, n)[r]| <= 1
      ensures Slots(f, n)[r] != [] ==> JsonLdScalar(Slots(f, n)[r][0]) == JsonLdScalar(Slots(g, n)[r][0])
    {
    }
    hide HeldAt, Held;
    SameScalars(Slots(f, n), Slots(g, n));
    ChangedScalarReadsTheSame(f, g, n);
  }

  lemma SameScalars(a: seq<seq<Json>>, b: seq<seq<Json>>)
    requires |a| == |b| == 3 && forall r :: 0 <= r < 3 ==> |a[r]| == |b[r]| <= 1
    requires forall r :: 0 <= r < 3 && a[r] != [] ==> JsonLdScalar(a[r][0]) == JsonLdScalar(b[r][0])
    ensures |Concat3(a)| == |Concat3(b)|
    ensures |Concat3(a)| == 1 ==> JsonLdScalar(Concat3(a)[0]) == JsonLdScalar(Concat3(b)[0])
  {
    hide JsonLdScalar;
  }

  lemma ChangedScalarReadsTheSame(f: map<string, Json>, g: map<string, Json>, n: string)
    requires n in SCALAR_KEYS && |AliasedAll(Obj(f), n)| == |AliasedAll(Obj(g), n)|
    requires |AliasedAll(Obj(f), n)| == 1 ==> JsonLdScalar(AliasedAll(Obj(f), n)[0]) == JsonLdScalar(AliasedAll(Obj(g), n)[0])
    requires forall m :: m in ODRL_KEYS && m != n ==> AliasedAll(Obj(f), m) == AliasedAll(Obj(g), m)
    requires GetString(Obj(f), "@id") == GetString(Obj(g), "@id") && GetString(Obj(f), "@type") == GetString(Obj(g), "@type")
    ensures SameReading(Obj(f), Obj(g), 1)
  {
    ListsAreNotScalars();
    hide AliasedAll, GetString, FlatOneOrMany, JsonLdScalar;
    assert forall m :: m in SCALAR_KEYS ==> m in ODRL_KEYS;
    assert forall m :: m in LIST_KEYS ==> m in ODRL_KEYS && m != n;
    forall m | m in LIST_KEYS ensures SameEntries(OneOrManyAliased(Obj(f), m), OneOrManyAliased(Obj(g), m), 0) {
    }
  }
}
