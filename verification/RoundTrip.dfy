/** Reading back what was written, for every order the store may give the
    quads in. */
module RoundTrip {
  import opened Text
  import opened CatalogCore
  import opened Vocabulary
  import opened Write
  import opened Read
  import opened Subtrees

  predicate Distinct<T(==)>(s: seq<T>) {
    forall i, j :: 0 <= i < j < |s| ==> s[i] != s[j]
  }

  // ----- Lookups -----

  lemma {:induction false} ObjectsMembers(g: seq<Quad>, subject: Iri, v: Vocab)
    ensures forall o :: o in Objects(g, subject, v) <==> Quad(NamedNode(subject), Term(v), o) in g
    ensures Distinct(g) ==> Distinct(Objects(g, subject, v))
  {
    if g != [] {
      var init, last := g[..|g| - 1], g[|g| - 1];
      ObjectsMembers(init, subject, v);
      assert g == init + [last];
      assert Distinct(g) ==> Distinct(init) && last !in init;
    }
  }

  /** The graph holds `(node, v, o)`. */
  predicate Says(g: seq<Quad>, node: string, v: Vocab, o: RdfTerm) {
    Quad(Resource(node), Term(v), o) in g
  }

  lemma ObjectsSaid(g: seq<Quad>, node: string, v: Vocab)
    ensures forall o :: o in Objects(g, Plain(node), v) <==> Says(g, node, v, o)
  {
    ObjectsMembers(g, Plain(node), v);
  }

  lemma FirstObjectIs(g: seq<Quad>, node: string, v: Vocab, o: RdfTerm)
    requires forall other :: Says(g, node, v, other) <==> other == o
    ensures FirstObject(g, Plain(node), v) == Some(o)
  {
    var os := Objects(g, Plain(node), v);
    ObjectsSaid(g, node, v);
    assert o in os;
    assert os[0] in os;
  }

  lemma NoObjects(g: seq<Quad>, node: string, v: Vocab)
    requires forall o :: !Says(g, node, v, o)
    ensures Objects(g, Plain(node), v) == [] && FirstObject(g, Plain(node), v) == None
  {
    var os := Objects(g, Plain(node), v);
    assert |os| > 0 ==> os[0] in os;
    ObjectsSaid(g, node, v);
  }

  // ----- Sorting by index -----

  predicate Increasing<T>(s: seq<Indexed<T>>) {
    forall i, j :: 0 <= i < j < |s| ==> s[i].index < s[j].index
  }

  predicate DistinctIndices<T>(s: seq<Indexed<T>>) {
    forall i, j :: 0 <= i < j < |s| ==> s[i].index != s[j].index
  }

  predicate HasIndex<T>(s: seq<Indexed<T>>, k: nat) {
    exists p :: 0 <= p < |s| && s[p].index == k
  }

  lemma {:induction false} InsertMembers<T>(entry: Indexed<T>, sorted: seq<Indexed<T>>)
    ensures multiset(InsertByIndex(entry, sorted)) == multiset{entry} + multiset(sorted)
  {
    if sorted != [] && entry.index > sorted[0].index {
      InsertMembers(entry, sorted[1..]);
      assert sorted == [sorted[0]] + sorted[1..];
    }
  }

  lemma {:induction false} InsertKeepsOrder<T>(entry: Indexed<T>, sorted: seq<Indexed<T>>)
    requires Increasing(sorted)
    requires !HasIndex(sorted, entry.index)
    ensures Increasing(InsertByIndex(entry, sorted))
  {
    if sorted == [] || entry.index <= sorted[0].index {
      assert sorted != [] ==> entry.index != sorted[0].index;
    } else {
      var tail := sorted[1..];
      assert sorted == [sorted[0]] + tail;
      assert !HasIndex(tail, entry.index) by {
        assert forall p :: 0 <= p < |tail| ==> tail[p] == sorted[p + 1];
      }
      InsertKeepsOrder(entry, tail);
      InsertMembers(entry, tail);
      var rest := InsertByIndex(entry, tail);
      assert InsertByIndex(entry, sorted) == [sorted[0]] + rest;
      hide InsertByIndex, HasIndex;
      forall i | 0 <= i < |rest| ensures sorted[0].index < rest[i].index {
        assert rest[i] in multiset(rest);
      }
    }
  }

  lemma {:induction false} SortIsIncreasing<T>(entries: seq<Indexed<T>>)
    requires DistinctIndices(entries)
    ensures Increasing(SortByIndex(entries))
    ensures multiset(SortByIndex(entries)) == multiset(entries)
  {
    if entries != [] {
      var tail := entries[1..];
      SortIsIncreasing(tail);
      var sorted := SortByIndex(tail);
      assert entries == [entries[0]] + tail;
      assert !HasIndex(sorted, entries[0].index) by {
        forall p | 0 <= p < |sorted| ensures sorted[p].index != entries[0].index {
          assert sorted[p] in multiset(tail);
          assert forall j :: 0 <= j < |tail| ==> tail[j] == entries[j + 1];
        }
      }
      InsertKeepsOrder(entries[0], sorted);
      InsertMembers(entries[0], sorted);
    }
  }

  /** Increasing indices that leave none below `n` out start 0, 1, ..., n - 1. */
  lemma {:induction false} CoveringPosition<T>(s: seq<Indexed<T>>, n: nat, i: nat)
    requires Increasing(s)
    requires forall k: nat :: k < n ==> HasIndex(s, k)
    requires i < n
    ensures i < |s| && forall k :: 0 <= k <= i ==> s[k].index == k
  {
    if i > 0 {
      CoveringPosition(s, n, i - 1);
    }
    assert HasIndex(s, i);
    var p :| 0 <= p < |s| && s[p].index == i;
    assert p >= i;
    assert i > 0 ==> s[i - 1].index < s[i].index;
    assert s[i].index <= s[p].index;
  }

  lemma {:induction false} IndexAtLeastPosition<T>(s: seq<Indexed<T>>, p: nat)
    requires Increasing(s) && p < |s|
    ensures s[p].index >= p
  {
    if p > 0 {
      IndexAtLeastPosition(s, p - 1);
      assert s[p - 1].index < s[p].index;
    }
  }

  lemma CoveringIsEnumeration<T>(s: seq<Indexed<T>>, n: nat)
    requires Increasing(s)
    requires forall p :: 0 <= p < |s| ==> s[p].index < n
    requires forall k: nat :: k < n ==> HasIndex(s, k)
    ensures |s| == n && forall k :: 0 <= k < n ==> s[k].index == k
  {
    if n > 0 {
      CoveringPosition(s, n, n - 1);
    }
    if |s| > 0 {
      IndexAtLeastPosition(s, |s| - 1);
    }
  }

  // ----- Lists -----

  lemma {:induction false} TraverseOk<T>(ts: seq<RdfTerm>, load: Iri -> Result<Indexed<T>>)
    requires forall t :: t in ts ==> t.NamedNode? && load(t.iri).Ok?
    ensures Traverse(ts, load).Ok?
    ensures |Traverse(ts, load).value| == |ts|
    ensures forall k :: 0 <= k < |ts| ==> Traverse(ts, load).value[k] == load(ts[k].iri).value
  {
    if ts != [] {
      assert ts[0] in ts;
      TraverseOk(ts[1..], load);
    }
  }

  /** What `Traverse` found leads back to each node exactly once. */
  lemma EntriesEnumerate<T>(
    os: seq<RdfTerm>, nodes: seq<string>, values: seq<T>, load: Iri -> Result<Indexed<T>>, entries: seq<Indexed<T>>)
    requires Distinct(os)
    requires |nodes| == |values|
    requires forall o :: o in os <==> OneOf(nodes, o)
    requires forall i :: 0 <= i < |nodes| ==> load(Plain(nodes[i])) == Ok(Indexed(i, values[i]))
    requires Traverse(os, load) == Ok(entries)
    ensures DistinctIndices(entries)
    ensures forall e :: e in entries ==> e.index < |values| && e.value == values[e.index]
    ensures forall i: nat :: i < |nodes| ==> HasIndex(entries, i)
  {
    TraverseOk(os, load);
    forall k | 0 <= k < |os|
      ensures entries[k].index < |nodes| && os[k] == Resource(nodes[entries[k].index])
      ensures entries[k].value == values[entries[k].index]
    {
      assert os[k] in os;
      assert OneOf(nodes, os[k]);
      var i :| 0 <= i < |nodes| && os[k] == Resource(nodes[i]);
      assert entries[k] == Indexed(i, values[i]);
    }
    forall i: nat | i < |nodes| ensures HasIndex(entries, i) {
      assert OneOf(nodes, Resource(nodes[i]));
      var k :| 0 <= k < |os| && os[k] == Resource(nodes[i]);
      assert entries[k] == Indexed(i, values[i]);
    }
  }

  lemma SortedValues<T>(entries: seq<Indexed<T>>, values: seq<T>)
    requires DistinctIndices(entries)
    requires forall e :: e in entries ==> e.index < |values| && e.value == values[e.index]
    requires forall i: nat :: i < |values| ==> HasIndex(entries, i)
    ensures Values(SortByIndex(entries)) == values
  {
    SortIsIncreasing(entries);
    var sorted := SortByIndex(entries);
    forall k | 0 <= k < |sorted| ensures sorted[k].index < |values| && sorted[k].value == values[sorted[k].index] {
      assert sorted[k] in multiset(entries);
    }
    forall i: nat | i < |values| ensures HasIndex(sorted, i) {
      assert HasIndex(entries, i);
      var p :| 0 <= p < |entries| && entries[p].index == i;
      assert entries[p] in multiset(sorted);
    }
    CoveringIsEnumeration(sorted, |values|);
  }

  /** The one lemma behind every list of the catalog: `values`, stored below
      `parent` under distinct nodes and numbered in order, is read back. */
  lemma ListRestored<T>(
    g: seq<Quad>, parent: string, link: Vocab, nodes: seq<string>, values: seq<T>, load: Iri -> Result<Indexed<T>>)
    requires Distinct(g)
    requires |nodes| == |values|
    requires forall o :: Says(g, parent, link, o) <==> OneOf(nodes, o)
    requires forall i :: 0 <= i < |nodes| ==> load(Plain(nodes[i])) == Ok(Indexed(i, values[i]))
    ensures ListAt(g, Plain(parent), link, load) == Ok(values)
  {
    hide SortByIndex, Values;
    var os := Objects(g, Plain(parent), link);
    ObjectsMembers(g, Plain(parent), link);
    ObjectsSaid(g, parent, link);
    assert forall o :: o in os <==> OneOf(nodes, o);
    forall t | t in os ensures t.NamedNode? && load(t.iri).Ok? {
      assert OneOf(nodes, t);
    }
    TraverseOk(os, load);
    var entries := Traverse(os, load).value;
    EntriesEnumerate(os, nodes, values, load, entries);
    SortedValues(entries, values);
  }

  // ----- Single values -----

  lemma IndexRestored(g: seq<Quad>, node: string, index: nat)
    requires forall o :: Says(g, node, SequenceIndex, o) <==> o == IndexTerm(index)
    ensures SequenceIndexAt(g, Plain(node)) == Ok(index)
  {
    FirstObjectIs(g, node, SequenceIndex, IndexTerm(index));
    ParseOfDecimal(index);
  }

  lemma StringRestored(g: seq<Quad>, node: string, v: Vocab, t: RdfTerm, s: string)
    requires forall o :: Says(g, node, v, o) <==> o == t
    requires TermAsString(t) == Ok(s)
    ensures RequiredString(g, Plain(node), v) == Ok(s)
  {
    FirstObjectIs(g, node, v, t);
  }

  lemma OptionalRestored(g: seq<Quad>, node: string, v: Vocab, t: Option<RdfTerm>, s: Option<string>)
    requires forall o :: Says(g, node, v, o) <==> t == Some(o)
    requires t.Some? <==> s.Some?
    requires t.Some? ==> TermAsString(t.value) == Ok(s.value)
    ensures OptionalString(g, Plain(node), v) == Ok(s)
  {
    match t {
      case Some(o) => FirstObjectIs(g, node, v, o);
      case None => NoObjects(g, node, v);
    }
  }

  // ----- Constraints and rules -----

  /** What the graph holds about a list: its links, and below each link its part. */
  lemma ListFacts(
    g: seq<Quad>, root: string, whole: set<Quad>, rest: set<Quad>,
    parent: string, link: Vocab, area: string, nodes: seq<string>, parts: seq<set<Quad>>)
    requires Slice(g, root, whole)
    requires whole == rest + Linked(parent, link, nodes, parts)
    requires forall q :: q in rest ==> !InSubtree(q, area) && (q.subject != Resource(parent) || q.pred != Term(link))
    requires Siblings(area, nodes, parts)
    requires Under(root, area) && Under(root, parent) && !Under(area, parent)
    ensures forall i :: 0 <= i < |nodes| ==> Slice(g, nodes[i], parts[i])
    ensures forall o :: Says(g, parent, link, o) <==> OneOf(nodes, o)
  {
    ListSlices(g, root, whole, rest, parent, link, area, nodes, parts);
    LinkedOwn(parent, link, area, nodes, parts);
    forall o ensures Says(g, parent, link, o) <==> OneOf(nodes, o) {
      var q := Quad(Resource(parent), Term(link), o);
      assert InSubtree(q, root);
      assert q in g <==> q in whole;
    }
  }

  lemma {:induction false} ConstraintListRestored(
    isIri: string -> bool, g: seq<Quad>, cs: seq<Constraint>, parent: string, link: Vocab, depth: nat,
    whole: set<Quad>, rest: set<Quad>)
    requires Distinct(g)
    requires forall c :: c in cs ==> Fits(c, depth)
    requires Slice(g, parent, whole)
    requires whole == rest + ConstraintListQuads(isIri, cs, parent, link)
    requires forall q :: q in rest ==> q.subject == Resource(parent) && q.pred != Term(link)
    ensures ListAt(g, Plain(parent), link, ConstraintReader(g, depth)) == Ok(cs)
    decreases cs
  {
    hide ConstraintQuads, Traverse, SortByIndex, Values, Slice, ConstraintAt;
    var nodes, parts := ConstraintIris(parent, |cs|), ConstraintParts(isIri, cs, parent);
    ConstraintSiblings(isIri, cs, parent);
    UnderArea(parent, "/constraints");
    ListFacts(g, parent, whole, rest, parent, link, parent + "/constraints", nodes, parts);
    forall i | 0 <= i < |cs| ensures ConstraintReader(g, depth)(Plain(nodes[i])) == Ok(Indexed(i, cs[i])) {
      assert Fits(cs[i], depth);
      assert Slice(g, nodes[i], parts[i]);
      ConstraintRestored(isIri, g, cs[i], nodes[i], i, depth);
    }
    ListRestored(g, parent, link, nodes, cs, ConstraintReader(g, depth));
  }

  lemma OwnSays(g: seq<Quad>, node: string, whole: set<Quad>)
    requires Slice(g, node, whole)
    ensures forall v, o :: Says(g, node, v, o) <==> Q(node, v, o) in whole
  {
    forall v, o ensures Says(g, node, v, o) <==> Q(node, v, o) in whole {
      assert InSubtree(Q(node, v, o), node);
    }
  }

  lemma AtomicRestored(isIri: string -> bool, g: seq<Quad>, c: Constraint, node: string, index: nat, depth: nat)
    requires c.Atomic? && depth <= MAX_CONSTRAINT_DEPTH
    requires Slice(g, node, ConstraintQuads(isIri, c, node, index))
    ensures ConstraintAt(g, Plain(node), depth) == Ok(Indexed(index, c))
  {
    hide IriOf, FirstObject, Slice;
    OwnSays(g, node, ConstraintQuads(isIri, c, node, index));
    IndexRestored(g, node, index);
    FirstObjectIs(g, node, LeftOperand, IriOrLiteral(isIri, c.leftOperand));
    StringRestored(g, node, Operator, IriOrLiteral(isIri, c.operator), c.operator);
    StringRestored(g, node, RightOperand, TextTerm(c.rightOperand), c.rightOperand);
  }

  /** The marker decides a group's combinator, also when it has no children. */
  lemma CombinatorRestored(g: seq<Quad>, node: string, combinator: Combinator)
    requires forall o :: Says(g, node, LogicalOperator, o) <==> o == NamedNode(Term(Group(combinator)))
    requires forall c, o :: c != combinator ==> !Says(g, node, Group(c), o)
    ensures CombinatorAt(g, Plain(node)) == Ok(combinator)
  {
    FirstObjectIs(g, node, LogicalOperator, NamedNode(Term(Group(combinator))));
    forall c | c != combinator ensures Objects(g, Plain(node), Group(c)) == [] {
      NoObjects(g, node, Group(c));
    }
  }

  lemma {:induction false} GroupRestored(
    isIri: string -> bool, g: seq<Quad>, c: Constraint, node: string, index: nat, depth: nat)
    requires Distinct(g)
    requires c.Logical? && Fits(c, depth)
    requires Slice(g, node, ConstraintQuads(isIri, c, node, index))
    ensures ConstraintAt(g, Plain(node), depth) == Ok(Indexed(index, c))
    decreases c, 0
  {
    hide FirstObject, Slice, ListAt, Siblings, SequenceIndexAt, CombinatorAt;
    var whole := ConstraintQuads(isIri, c, node, index);
    var link := Group(c.combinator);
    var nodes, parts := ConstraintIris(node, |c.children|), ConstraintParts(isIri, c.children, node);
    OwnSays(g, node, whole);
    ConstraintSiblings(isIri, c.children, node);
    UnderArea(node, "/constraints");
    LinkedOwn(node, link, node + "/constraints", nodes, parts);
    IndexRestored(g, node, index);
    CombinatorRestored(g, node, c.combinator);
    NoObjects(g, node, LeftOperand);
    var rest := { Q(node, SequenceIndex, IndexTerm(index)), Q(node, LogicalOperator, NamedNode(Term(link))) };
    ConstraintListRestored(isIri, g, c.children, node, link, depth + 1, whole, rest);
  }

  lemma {:induction false} ConstraintRestored(
    isIri: string -> bool, g: seq<Quad>, c: Constraint, node: string, index: nat, depth: nat)
    requires Distinct(g)
    requires Fits(c, depth)
    requires Slice(g, node, ConstraintQuads(isIri, c, node, index))
    ensures ConstraintAt(g, Plain(node), depth) == Ok(Indexed(index, c))
    decreases c, 1
  {
    if c.Atomic? {
      AtomicRestored(isIri, g, c, node, index, depth);
    } else {
      GroupRestored(isIri, g, c, node, index, depth);
    }
  }

  lemma RuleRestored(isIri: string -> bool, g: seq<Quad>, rule: Rule, node: string, index: nat)
    requires Distinct(g)
    requires RuleFits(rule)
    requires Slice(g, node, RuleQuads(isIri, rule, node, index))
    ensures RuleAt(g, Plain(node)) == Ok(Indexed(index, rule))
  {
    hide FirstObject, Slice, ListAt, Siblings, SequenceIndexAt, IriOf, ConstraintAt;
    var whole := RuleQuads(isIri, rule, node, index);
    var nodes, parts := ConstraintIris(node, |rule.constraints|), ConstraintParts(isIri, rule.constraints, node);
    OwnSays(g, node, whole);
    ConstraintSiblings(isIri, rule.constraints, node);
    UnderArea(node, "/constraints");
    LinkedOwn(node, ConstraintLink, node + "/constraints", nodes, parts);
    IndexRestored(g, node, index);
    StringRestored(g, node, Action, IriOrLiteral(isIri, rule.action), rule.action);
    var rest := { Q(node, SequenceIndex, IndexTerm(index)), Q(node, Action, IriOrLiteral(isIri, rule.action)) };
    ConstraintListRestored(isIri, g, rule.constraints, node, ConstraintLink, 0, whole, rest);
  }

  lemma RulesRestored(
    isIri: string -> bool, g: seq<Quad>, rules: seq<Rule>, policy: string, link: Vocab, segment: string,
    whole: set<Quad>, rest: set<Quad>)
    requires Distinct(g)
    requires RulesFit(rules)
    requires Slice(g, policy, whole)
    requires whole == rest + RuleListQuads(isIri, rules, policy, link, segment)
    requires forall q :: q in rest ==>
                !InSubtree(q, policy + "/" + segment) && (q.subject != Resource(policy) || q.pred != Term(link))
    ensures RulesAt(g, Plain(policy), link) == Ok(rules)
  {
    hide RuleQuads, Traverse, SortByIndex, Values, Slice, RuleAt, RuleFits;
    var nodes, parts := RuleIris(policy, segment, |rules|), RuleParts(isIri, rules, policy, segment);
    RuleSiblings(isIri, rules, policy, segment);
    ListFacts(g, policy, whole, rest, policy, link, policy + "/" + segment, nodes, parts);
    forall i | 0 <= i < |rules| ensures RuleReader(g)(Plain(nodes[i])) == Ok(Indexed(i, rules[i])) {
      assert RuleFits(rules[i]);
      assert Slice(g, nodes[i], parts[i]);
      RuleRestored(isIri, g, rules[i], nodes[i], i);
    }
    ListRestored(g, policy, link, nodes, rules, RuleReader(g));
  }

  // ----- Policies -----

  /** One rule list does not reach into the area, or the links, of another. */
  lemma RuleListOutside(
    isIri: string -> bool, rules: seq<Rule>, policy: string, link: Vocab, segment: string, other: string)
    requires SlashFree(segment) && SlashFree(other) && segment != other
    ensures forall q :: q in RuleListQuads(isIri, rules, policy, link, segment) ==>
                !InSubtree(q, policy + "/" + other) && (q.subject == Resource(policy) ==> q.pred == Term(link))
  {
    var nodes, parts := RuleIris(policy, segment, |rules|), RuleParts(isIri, rules, policy, segment);
    RuleSiblings(isIri, rules, policy, segment);
    SegmentsApart(policy + "/", segment, other);
    LinkedOutside(policy, link, policy + "/" + segment, nodes, parts, policy + "/" + other);
  }

  lemma PolicyOwnQuadsOutside(isIri: string -> bool, policy: Policy, node: string, index: nat)
    ensures forall q :: q in PolicyOwnQuads(isIri, policy, node, index) ==>
                q.subject == Resource(node) && q.pred.Term? && q.pred.term !in {Permission, Prohibition, Obligation}
  {
  }

  lemma PolicyRulesRestored(isIri: string -> bool, g: seq<Quad>, policy: Policy, node: string, index: nat)
    requires Distinct(g)
    requires PolicyFits(policy)
    requires Slice(g, node, PolicyQuads(isIri, policy, node, index))
    ensures RulesAt(g, Plain(node), Permission) == Ok(policy.permissions)
    ensures RulesAt(g, Plain(node), Prohibition) == Ok(policy.prohibitions)
    ensures RulesAt(g, Plain(node), Obligation) == Ok(policy.obligations)
  {
    hide RuleListQuads, PolicyOwnQuads, Slice, RulesAt, RulesFit, IriOf;
    PolicyOwnQuadsOutside(isIri, policy, node, index);
    var whole, own := PolicyQuads(isIri, policy, node, index), PolicyOwnQuads(isIri, policy, node, index);
    var permissions := RuleListQuads(isIri, policy.permissions, node, Permission, "permissions");
    var prohibitions := RuleListQuads(isIri, policy.prohibitions, node, Prohibition, "prohibitions");
    var obligations := RuleListQuads(isIri, policy.obligations, node, Obligation, "obligations");
    assert whole == own + permissions + prohibitions + obligations;
    RuleListOutside(isIri, policy.permissions, node, Permission, "permissions", "prohibitions");
    RuleListOutside(isIri, policy.permissions, node, Permission, "permissions", "obligations");
    RuleListOutside(isIri, policy.prohibitions, node, Prohibition, "prohibitions", "permissions");
    RuleListOutside(isIri, policy.prohibitions, node, Prohibition, "prohibitions", "obligations");
    RuleListOutside(isIri, policy.obligations, node, Obligation, "obligations", "permissions");
    RuleListOutside(isIri, policy.obligations, node, Obligation, "obligations", "prohibitions");
    RulesRestored(isIri, g, policy.permissions, node, Permission, "permissions", whole, own + prohibitions + obligations);
    RulesRestored(isIri, g, policy.prohibitions, node, Prohibition, "prohibitions", whole, own + permissions + obligations);
    RulesRestored(isIri, g, policy.obligations, node, Obligation, "obligations", whole, own + permissions + prohibitions);
  }

  lemma PolicySays(isIri: string -> bool, g: seq<Quad>, policy: Policy, node: string, index: nat)
    requires Slice(g, node, PolicyQuads(isIri, policy, node, index))
    ensures forall v, o :: v !in {Permission, Prohibition, Obligation} ==>
                             (Says(g, node, v, o) <==> Q(node, v, o) in PolicyOwnQuads(isIri, policy, node, index))
  {
    hide RuleListQuads, PolicyOwnQuads, Slice, IriOf;
    OwnSays(g, node, PolicyQuads(isIri, policy, node, index));
    RuleListOutside(isIri, policy.permissions, node, Permission, "permissions", "x");
    RuleListOutside(isIri, policy.prohibitions, node, Prohibition, "prohibitions", "x");
    RuleListOutside(isIri, policy.obligations, node, Obligation, "obligations", "x");
  }

  lemma PolicyRestored(isIri: string -> bool, g: seq<Quad>, policy: Policy, node: string, index: nat)
    requires Distinct(g)
    requires PolicyFits(policy)
    requires Slice(g, node, PolicyQuads(isIri, policy, node, index))
    ensures PolicyAt(g, Plain(node)) == Ok(Indexed(index, policy))
  {
    hide RuleListQuads, PolicyQuads, Slice, RulesAt, RulesFit, PolicyFits, IriOf, FirstObject, SequenceIndexAt, OptionalString, Distinct;
    PolicyRulesRestored(isIri, g, policy, node, index);
    PolicySays(isIri, g, policy, node, index);
    IndexRestored(g, node, index);
    FirstObjectIs(g, node, RdfType, NamedNode(Term(PolicyClass(policy.kind))));
    OptionalRestored(g, node, PolicyId, OptionalText(policy.id), policy.id);
    OptionalRestored(g, node, Assigner, OptionalIriOrLiteral(isIri, policy.assigner), policy.assigner);
    OptionalRestored(g, node, Assignee, OptionalIriOrLiteral(isIri, policy.assignee), policy.assignee);
  }

  // ----- Distributions and services -----

  lemma DistributionRestored(g: seq<Quad>, base: string, d: Distribution, node: string, index: nat)
    requires Slice(g, node, DistributionQuads(base, d, node, index))
    ensures DistributionAt(g, base, Plain(node)) == Ok(Indexed(index, d))
  {
    hide FirstObject, SequenceIndexAt, Slice, StripPrefixDecode;
    OwnSays(g, node, DistributionQuads(base, d, node, index));
    IndexRestored(g, node, index);
    StringRestored(g, node, Format, TextTerm(d.format), d.format);
    FirstObjectIs(g, node, AccessService, Resource(ServiceIri(base, d.accessService)));
    StripPrefixDecodeOfEncode(base + "/services/", d.accessService);
  }

  lemma DataServiceRestored(isIri: string -> bool, g: seq<Quad>, base: string, s: DataService, index: nat)
    requires Slice(g, ServiceIri(base, s.id), ServiceQuads(isIri, base, s, index))
    ensures DataServiceAt(g, base, Plain(ServiceIri(base, s.id))) == Ok(Indexed(index, s))
  {
    hide FirstObject, SequenceIndexAt, Slice, StripPrefixDecode, IriOf;
    var node := ServiceIri(base, s.id);
    OwnSays(g, node, ServiceQuads(isIri, base, s, index));
    IndexRestored(g, node, index);
    StringRestored(g, node, EndpointUrl, IriOrLiteral(isIri, s.endpointUrl), s.endpointUrl);
    OptionalRestored(g, node, EndpointDescription, OptionalText(s.endpointDescription), s.endpointDescription);
    StripPrefixDecodeOfEncode(base + "/services/", s.id);
  }

  // ----- Generic properties -----

  /** Whether a property named `key` survives: a key that is not an IRI always
      does; an IRI does unless it is reserved or falls into the fallback
      namespace, whose spellings are decoded. */
  predicate KeyKept(isIri: string -> bool, key: string, reserved: set<Vocab>) {
    isIri(key) ==> !(IriOf(key).Term? && IriOf(key).term in reserved) && !(INTERNAL_PROPERTY_PREFIX <= key)
  }

  predicate KeysKept(isIri: string -> bool, properties: map<string, string>, reserved: set<Vocab>) {
    forall key :: key in properties ==> KeyKept(isIri, key, reserved)
  }

  lemma PropertyKeyRestored(isIri: string -> bool, key: string, reserved: set<Vocab>)
    requires KeyKept(isIri, key, reserved)
    ensures DecodePropertyKey(PropertyPredicate(isIri, key)) == key
  {
    if !isIri(key) {
      assert (INTERNAL_PROPERTY_PREFIX + Encode(key))[|INTERNAL_PROPERTY_PREFIX|..] == Encode(key);
      DecodeOfEncode(key);
    }
  }

  lemma {:induction false} PropertiesCollected(
    isIri: string -> bool, g: seq<Quad>, node: string, properties: map<string, string>, reserved: set<Vocab>)
    requires KeysKept(isIri, properties, reserved)
    requires forall q :: q in g && IsProperty(q, Plain(node), reserved) ==> q in PropertyQuads(isIri, properties, node)
    ensures PropertiesAt(g, Plain(node), reserved).Ok?
    ensures var found := PropertiesAt(g, Plain(node), reserved).value;
            && (forall key :: key in found ==> key in properties && found[key] == properties[key])
            && (forall key :: key in properties && PropertyQuad(isIri, node, key, properties[key]) in g ==>
                  IsProperty(PropertyQuad(isIri, node, key, properties[key]), Plain(node), reserved) ==> key in found)
  {
    hide IriOf, DecodePropertyKey, PropertyPredicate, KeyKept;
    if g != [] {
      var init, last := g[..|g| - 1], g[|g| - 1];
      assert g == init + [last];
      PropertiesCollected(isIri, init, node, properties, reserved);
      if IsProperty(last, Plain(node), reserved) {
        var key :| key in properties && last == PropertyQuad(isIri, node, key, properties[key]);
        PropertyKeyRestored(isIri, key, reserved);
        forall other | other in properties && last == PropertyQuad(isIri, node, other, properties[other]) ensures other == key {
          PropertyKeyRestored(isIri, other, reserved);
        }
      }
    }
  }

  lemma PropertiesRestored(
    isIri: string -> bool, g: seq<Quad>, node: string, properties: map<string, string>, reserved: set<Vocab>)
    requires KeysKept(isIri, properties, reserved)
    requires forall q :: q in g && IsProperty(q, Plain(node), reserved) <==> q in PropertyQuads(isIri, properties, node)
    ensures PropertiesAt(g, Plain(node), reserved) == Ok(properties)
  {
    hide IriOf, DecodePropertyKey, PropertyPredicate, KeyKept, PropertiesAt;
    PropertiesCollected(isIri, g, node, properties, reserved);
    var found := PropertiesAt(g, Plain(node), reserved).value;
    forall key | key in properties ensures key in found {
      assert PropertyQuad(isIri, node, key, properties[key]) in PropertyQuads(isIri, properties, node);
    }
    assert found == properties;
  }

  lemma PropertiesOutside(isIri: string -> bool, properties: map<string, string>, node: string, reserved: set<Vocab>)
    requires KeysKept(isIri, properties, reserved)
    ensures forall q :: q in PropertyQuads(isIri, properties, node) ==>
                q.subject == Resource(node) && IsProperty(q, Plain(node), reserved)
  {
    hide IriOf;
    forall q | q in PropertyQuads(isIri, properties, node)
      ensures q.subject == Resource(node) && IsProperty(q, Plain(node), reserved)
    {
      var key :| key in properties && q == PropertyQuad(isIri, node, key, properties[key]);
      assert KeyKept(isIri, key, reserved);
    }
  }

  // ----- Datasets -----

  lemma DatasetListsOutside(isIri: string -> bool, base: string, d: Dataset, node: string)
    ensures forall q :: q in DistributionListQuads(base, d.distributions, node) ==>
                !InSubtree(q, node + "/policies") && (q.subject == Resource(node) ==> q.pred == Term(DistributionLink))
    ensures forall q :: q in PolicyListQuads(isIri, d.policies, node) ==>
                !InSubtree(q, node + "/distributions") && (q.subject == Resource(node) ==> q.pred == Term(HasPolicy))
  {
    DistributionSiblings(base, d.distributions, node);
    PolicySiblings(isIri, d.policies, node);
    assert "distributions" != "policies";
    assert node + "/" + "distributions" == node + "/distributions";
    assert node + "/" + "policies" == node + "/policies";
    SegmentsApart(node + "/", "distributions", "policies");
    UnderArea(node, "/distributions");
    UnderArea(node, "/policies");
    LinkedOutside(node, DistributionLink, node + "/distributions",
                  DistributionIris(node, |d.distributions|), DistributionParts(base, d.distributions, node), node + "/policies");
    LinkedOutside(node, HasPolicy, node + "/policies",
                  PolicyIris(node, |d.policies|), PolicyParts(isIri, d.policies, node), node + "/distributions");
  }

  lemma DistributionsRestored(
    g: seq<Quad>, base: string, ds: seq<Distribution>, node: string, whole: set<Quad>, rest: set<Quad>)
    requires Distinct(g)
    requires Slice(g, node, whole)
    requires whole == rest + DistributionListQuads(base, ds, node)
    requires forall q :: q in rest ==>
                !InSubtree(q, node + "/distributions") && (q.subject != Resource(node) || q.pred != Term(DistributionLink))
    ensures ListAt(g, Plain(node), DistributionLink, DistributionReader(g, base)) == Ok(ds)
  {
    hide DistributionQuads, Slice, DistributionAt, ListAt;
    var nodes, parts := DistributionIris(node, |ds|), DistributionParts(base, ds, node);
    DistributionSiblings(base, ds, node);
    UnderArea(node, "/distributions");
    ListFacts(g, node, whole, rest, node, DistributionLink, node + "/distributions", nodes, parts);
    forall i | 0 <= i < |ds| ensures DistributionReader(g, base)(Plain(nodes[i])) == Ok(Indexed(i, ds[i])) {
      assert Slice(g, nodes[i], parts[i]);
      DistributionRestored(g, base, ds[i], nodes[i], i);
    }
    ListRestored(g, node, DistributionLink, nodes, ds, DistributionReader(g, base));
  }

  lemma PoliciesRestored(
    isIri: string -> bool, g: seq<Quad>, policies: seq<Policy>, node: string, whole: set<Quad>, rest: set<Quad>)
    requires Distinct(g)
    requires forall policy :: policy in policies ==> PolicyFits(policy)
    requires Slice(g, node, whole)
    requires whole == rest + PolicyListQuads(isIri, policies, node)
    requires forall q :: q in rest ==>
                !InSubtree(q, node + "/policies") && (q.subject != Resource(node) || q.pred != Term(HasPolicy))
    ensures ListAt(g, Plain(node), HasPolicy, PolicyReader(g)) == Ok(policies)
  {
    hide PolicyQuads, Slice, PolicyAt, ListAt, PolicyFits;
    var nodes, parts := PolicyIris(node, |policies|), PolicyParts(isIri, policies, node);
    PolicySiblings(isIri, policies, node);
    UnderArea(node, "/policies");
    ListFacts(g, node, whole, rest, node, HasPolicy, node + "/policies", nodes, parts);
    forall i | 0 <= i < |policies| ensures PolicyReader(g)(Plain(nodes[i])) == Ok(Indexed(i, policies[i])) {
      assert PolicyFits(policies[i]);
      assert Slice(g, nodes[i], parts[i]);
      PolicyRestored(isIri, g, policies[i], nodes[i], i);
    }
    ListRestored(g, node, HasPolicy, nodes, policies, PolicyReader(g));
  }

  lemma DatasetRestored(isIri: string -> bool, g: seq<Quad>, base: string, d: Dataset, index: nat)
    requires Distinct(g)
    requires DatasetFits(d) && KeysKept(isIri, d.properties, DATASET_RESERVED)
    requires Slice(g, DatasetIri(base, d.id), DatasetQuads(isIri, base, d, index))
    ensures DatasetAt(g, base, Plain(DatasetIri(base, d.id))) == Ok(Indexed(index, d))
  {
    hide Slice, DistributionListQuads, PolicyListQuads, PropertyQuads, ListAt, PolicyFits, KeysKept,
         SequenceIndexAt, PropertiesAt, StripPrefixDecode, FirstObject;
    var node, whole := DatasetIri(base, d.id), DatasetQuads(isIri, base, d, index);
    var own := { Q(node, RdfType, NamedNode(Term(DatasetClass))), Q(node, SequenceIndex, IndexTerm(index)) };
    var properties := PropertyQuads(isIri, d.properties, node);
    var distributions, policies := DistributionListQuads(base, d.distributions, node), PolicyListQuads(isIri, d.policies, node);
    DatasetListsOutside(isIri, base, d, node);
    PropertiesOutside(isIri, d.properties, node, DATASET_RESERVED);
    UnderArea(node, "/distributions");
    UnderArea(node, "/policies");
    DistributionsRestored(g, base, d.distributions, node, whole, own + properties + policies);
    PoliciesRestored(isIri, g, d.policies, node, whole, own + properties + distributions);
    forall q ensures q in g && IsProperty(q, Plain(node), DATASET_RESERVED) <==> q in properties {
      SliceHas(g, node, whole, q);
    }
    PropertiesRestored(isIri, g, node, d.properties, DATASET_RESERVED);
    OwnSays(g, node, whole);
    IndexRestored(g, node, index);
    StripPrefixDecodeOfEncode(base + "/datasets/", d.id);
  }

  lemma SliceHas(g: seq<Quad>, node: string, whole: set<Quad>, q: Quad)
    requires Slice(g, node, whole)
    ensures q.subject == Resource(node) ==> (q in g <==> q in whole)
  {
    assert q.subject == Resource(node) ==> InSubtree(q, node);
  }

  // ----- The catalog -----

  predicate IsCatalogType(q: Quad) {
    q.pred == Term(RdfType) && q.obj == NamedNode(Term(CatalogClass))
  }

  ghost predicate Untyped(part: set<Quad>) {
    forall q :: q in part ==> !IsCatalogType(q)
  }

  lemma LinkedUntyped(parent: string, link: Vocab, nodes: seq<string>, parts: seq<set<Quad>>)
    requires link != RdfType
    requires forall i :: 0 <= i < |parts| ==> Untyped(parts[i])
    ensures Untyped(Linked(parent, link, nodes, parts))
  {
  }

  lemma {:induction false} ConstraintUntyped(isIri: string -> bool, c: Constraint, node: string, index: nat)
    ensures Untyped(ConstraintQuads(isIri, c, node, index))
    decreases c
  {
    if c.Logical? {
      ConstraintListUntyped(isIri, c.children, node, Group(c.combinator));
    }
  }

  lemma {:induction false} ConstraintListUntyped(isIri: string -> bool, cs: seq<Constraint>, parent: string, link: Vocab)
    requires link != RdfType
    ensures Untyped(ConstraintListQuads(isIri, cs, parent, link))
    decreases cs
  {
    hide ConstraintQuads;
    forall i | 0 <= i < |cs| ensures Untyped(ConstraintQuads(isIri, cs[i], ConstraintIri(parent, i), i)) {
      ConstraintUntyped(isIri, cs[i], ConstraintIri(parent, i), i);
    }
    LinkedUntyped(parent, link, ConstraintIris(parent, |cs|), ConstraintParts(isIri, cs, parent));
  }

  lemma RuleListUntyped(isIri: string -> bool, rules: seq<Rule>, policy: string, link: Vocab, segment: string)
    requires link != RdfType
    ensures Untyped(RuleListQuads(isIri, rules, policy, link, segment))
  {
    hide ConstraintListQuads;
    forall i | 0 <= i < |rules| ensures Untyped(RuleQuads(isIri, rules[i], RuleIri(policy, segment, i), i)) {
      ConstraintListUntyped(isIri, rules[i].constraints, RuleIri(policy, segment, i), ConstraintLink);
    }
    LinkedUntyped(policy, link, RuleIris(policy, segment, |rules|), RuleParts(isIri, rules, policy, segment));
  }

  lemma PolicyUntyped(isIri: string -> bool, policy: Policy, node: string, index: nat)
    ensures Untyped(PolicyQuads(isIri, policy, node, index))
  {
    hide RuleListQuads;
    RuleListUntyped(isIri, policy.permissions, node, Permission, "permissions");
    RuleListUntyped(isIri, policy.prohibitions, node, Prohibition, "prohibitions");
    RuleListUntyped(isIri, policy.obligations, node, Obligation, "obligations");
  }

  lemma DatasetUntyped(isIri: string -> bool, base: string, d: Dataset, index: nat)
    ensures Untyped(DatasetQuads(isIri, base, d, index))
  {
    hide PolicyQuads;
    var node := DatasetIri(base, d.id);
    forall i | 0 <= i < |d.policies| ensures Untyped(PolicyQuads(isIri, d.policies[i], PolicyIri(node, i), i)) {
      PolicyUntyped(isIri, d.policies[i], PolicyIri(node, i), i);
    }
    LinkedUntyped(node, HasPolicy, PolicyIris(node, |d.policies|), PolicyParts(isIri, d.policies, node));
    LinkedUntyped(node, DistributionLink, DistributionIris(node, |d.distributions|), DistributionParts(base, d.distributions, node));
  }

  lemma PropertiesUntyped(isIri: string -> bool, properties: map<string, string>, node: string)
    ensures Untyped(PropertyQuads(isIri, properties, node))
  {
    hide PropertyPredicate;
  }

  lemma ServiceUntyped(isIri: string -> bool, base: string, s: DataService, index: nat)
    ensures Untyped(ServiceQuads(isIri, base, s, index))
  {
    hide IriOrLiteral;
  }

  /** Only the catalog itself is typed `dcat:Catalog`, whatever was harvested. */
  lemma CatalogTypeIsUnique(isIri: string -> bool, c: Catalog)
    ensures forall q :: q in CatalogQuads(isIri, c) ==> IsCatalogType(q) ==>
                q.subject == Resource(CatalogIri(NodeBase(c.originNode), c.id))
  {
    hide DatasetQuads, ServiceQuads, PropertyQuads, NodeBase, CatalogIri, DatasetIri, ServiceIri;
    var base := NodeBase(c.originNode);
    var node := CatalogIri(base, c.id);
    assert Untyped(PropertyQuads(isIri, c.properties, node)) by {
      PropertiesUntyped(isIri, c.properties, node);
    }
    forall i | 0 <= i < |c.dataServices| ensures Untyped(ServiceQuads(isIri, base, c.dataServices[i], i)) {
      ServiceUntyped(isIri, base, c.dataServices[i], i);
    }
    forall i | 0 <= i < |c.datasets| ensures Untyped(DatasetQuads(isIri, base, c.datasets[i], i)) {
      DatasetUntyped(isIri, base, c.datasets[i], i);
    }
    LinkedUntyped(node, DatasetLink, DatasetIris(base, c.datasets), DatasetParts(isIri, base, c.datasets));
    LinkedUntyped(node, ServiceLink, ServiceIris(base, c.dataServices), ServiceParts(isIri, base, c.dataServices));
  }

  ghost predicate HasCatalogType(g: seq<Quad>) {
    exists q :: q in g && IsCatalogType(q)
  }

  lemma {:induction false} CatalogSubjectFound(g: seq<Quad>, subject: RdfTerm)
    requires forall q :: q in g && IsCatalogType(q) ==> q.subject == subject
    ensures CatalogSubject(g) == if HasCatalogType(g) then Some(subject) else None
  {
    if g != [] {
      var init, last := g[..|g| - 1], g[|g| - 1];
      assert g == init + [last];
      CatalogSubjectFound(init, subject);
      assert HasCatalogType(g) <==> HasCatalogType(init) || IsCatalogType(last);
    }
  }

  /** What the store hands back for a graph holding the quads `qs`: each of them
      once, in any order. */
  ghost predicate Enumerates(g: seq<Quad>, qs: set<Quad>) {
    Distinct(g) && forall q :: q in g <==> q in qs
  }

  /** There is such an order for every graph. */
  lemma {:induction false} EveryGraphHasAnOrder(qs: set<Quad>) returns (g: seq<Quad>)
    ensures Enumerates(g, qs)
  {
    if qs == {} {
      g := [];
    } else {
      var q :| q in qs;
      var rest := EveryGraphHasAnOrder(qs - {q});
      g := rest + [q];
    }
  }

  /** What a catalog must satisfy for the store to give it back. */
  ghost predicate Storable(isIri: string -> bool, c: Catalog) {
    && UniqueDatasets(c.datasets)
    && UniqueServices(c.dataServices)
    && KeysKept(isIri, c.properties, CATALOG_RESERVED)
    && forall d :: d in c.datasets ==> KeysKept(isIri, d.properties, DATASET_RESERVED)
  }

  /** The three places a catalog's quads can sit: the catalog, its datasets and
      its services. */
  lemma AreasApart(base: string, id: string)
    ensures Apart(base + "/datasets", base + "/services")
    ensures !Under(base + "/datasets", CatalogIri(base, id)) && !Under(base + "/services", CatalogIri(base, id))
    ensures Under(base, CatalogIri(base, id)) && Under(base, base + "/datasets") && Under(base, base + "/services")
  {
    assert base + "/" + "datasets" == base + "/datasets";
    assert base + "/" + "services" == base + "/services";
    assert base + "/" + "catalogs" == base + "/catalogs";
    assert "datasets"[0] == 'd' && "services"[0] == 's' && "catalogs"[0] == 'c';
    SegmentsApart(base + "/", "datasets", "services");
    SegmentsApart(base + "/", "datasets", "catalogs");
    SegmentsApart(base + "/", "services", "catalogs");
    assert CatalogIri(base, id) == base + "/catalogs" + "/" + Encode(id);
    assert Under(base + "/catalogs", CatalogIri(base, id));
    UnderArea(base, "/datasets");
    UnderArea(base, "/services");
  }

  lemma CatalogListsOutside(isIri: string -> bool, c: Catalog)
    requires UniqueDatasets(c.datasets) && UniqueServices(c.dataServices)
    ensures var base := NodeBase(c.originNode);
            var node := CatalogIri(base, c.id);
            && (forall q :: q in DatasetListQuads(isIri, base, c.datasets, node) ==>
                  !InSubtree(q, base + "/services") && (q.subject == Resource(node) ==> q.pred == Term(DatasetLink)))
            && (forall q :: q in ServiceListQuads(isIri, base, c.dataServices, node) ==>
                  !InSubtree(q, base + "/datasets") && (q.subject == Resource(node) ==> q.pred == Term(ServiceLink)))
  {
    var base := NodeBase(c.originNode);
    var node := CatalogIri(base, c.id);
    AreasApart(base, c.id);
    DatasetSiblings(isIri, base, c.datasets);
    ServiceSiblings(isIri, base, c.dataServices);
    LinkedOutside(node, DatasetLink, base + "/datasets",
                  DatasetIris(base, c.datasets), DatasetParts(isIri, base, c.datasets), base + "/services");
    LinkedOutside(node, ServiceLink, base + "/services",
                  ServiceIris(base, c.dataServices), ServiceParts(isIri, base, c.dataServices), base + "/datasets");
  }

  lemma CatalogOwnBelow(isIri: string -> bool, c: Catalog, base: string, node: string)
    requires Under(base, node)
    ensures AllBelow(CatalogOwnQuads(isIri, c, node), base)
  {
    hide PropertyPredicate, Under;
  }

  lemma CatalogListsBelow(isIri: string -> bool, c: Catalog, base: string, node: string)
    requires UniqueDatasets(c.datasets) && UniqueServices(c.dataServices)
    requires Under(base, node) && Under(base, base + "/datasets") && Under(base, base + "/services")
    ensures AllBelow(DatasetListQuads(isIri, base, c.datasets, node), base)
    ensures AllBelow(ServiceListQuads(isIri, base, c.dataServices, node), base)
  {
    hide DatasetParts, ServiceParts, Linked, Under, Siblings, AllBelow;
    DatasetSiblings(isIri, base, c.datasets);
    ServiceSiblings(isIri, base, c.dataServices);
    LinkedBelow(base, node, DatasetLink, base + "/datasets", DatasetIris(base, c.datasets), DatasetParts(isIri, base, c.datasets));
    LinkedBelow(base, node, ServiceLink, base + "/services", ServiceIris(base, c.dataServices), ServiceParts(isIri, base, c.dataServices));
  }

  lemma CatalogSlice(isIri: string -> bool, g: seq<Quad>, c: Catalog)
    requires UniqueDatasets(c.datasets) && UniqueServices(c.dataServices)
    requires Enumerates(g, CatalogQuads(isIri, c))
    ensures Slice(g, NodeBase(c.originNode), CatalogQuads(isIri, c))
  {
    hide CatalogOwnQuads, DatasetListQuads, ServiceListQuads, NodeBase, CatalogIri, InSubtree, UniqueDatasets, UniqueServices;
    var base := NodeBase(c.originNode);
    var node := CatalogIri(base, c.id);
    AreasApart(base, c.id);
    CatalogOwnBelow(isIri, c, base, node);
    CatalogListsBelow(isIri, c, base, node);
  }

  lemma DatasetsRestored(isIri: string -> bool, g: seq<Quad>, c: Catalog)
    requires Storable(isIri, c) && CatalogFits(c)
    requires Enumerates(g, CatalogQuads(isIri, c))
    ensures var base := NodeBase(c.originNode);
            ListAt(g, Plain(CatalogIri(base, c.id)), DatasetLink, DatasetReader(g, base)) == Ok(c.datasets)
  {
    hide DatasetQuads, ServiceListQuads, PropertyQuads, ListAt, DatasetAt, DatasetFits, KeysKept, Slice, NodeBase;
    var base := NodeBase(c.originNode);
    var node := CatalogIri(base, c.id);
    var nodes, parts := DatasetIris(base, c.datasets), DatasetParts(isIri, base, c.datasets);
    AreasApart(base, c.id);
    CatalogListsOutside(isIri, c);
    CatalogSlice(isIri, g, c);
    PropertiesOutside(isIri, c.properties, node, CATALOG_RESERVED);
    DatasetSiblings(isIri, base, c.datasets);
    ListFacts(g, base, CatalogQuads(isIri, c),
              CatalogOwnQuads(isIri, c, node) + ServiceListQuads(isIri, base, c.dataServices, node),
              node, DatasetLink, base + "/datasets", nodes, parts);
    forall i | 0 <= i < |c.datasets| ensures DatasetReader(g, base)(Plain(nodes[i])) == Ok(Indexed(i, c.datasets[i])) {
      assert DatasetFits(c.datasets[i]);
      assert Slice(g, nodes[i], parts[i]);
      DatasetRestored(isIri, g, base, c.datasets[i], i);
    }
    ListRestored(g, node, DatasetLink, nodes, c.datasets, DatasetReader(g, base));
  }

  lemma ServicesRestored(isIri: string -> bool, g: seq<Quad>, c: Catalog)
    requires Storable(isIri, c)
    requires Enumerates(g, CatalogQuads(isIri, c))
    ensures var base := NodeBase(c.originNode);
            ListAt(g, Plain(CatalogIri(base, c.id)), ServiceLink, DataServiceReader(g, base)) == Ok(c.dataServices)
  {
    hide ServiceQuads, DatasetListQuads, PropertyQuads, ListAt, DataServiceAt, KeysKept, Slice, NodeBase;
    var base := NodeBase(c.originNode);
    var node := CatalogIri(base, c.id);
    var nodes, parts := ServiceIris(base, c.dataServices), ServiceParts(isIri, base, c.dataServices);
    AreasApart(base, c.id);
    CatalogListsOutside(isIri, c);
    CatalogSlice(isIri, g, c);
    PropertiesOutside(isIri, c.properties, node, CATALOG_RESERVED);
    ServiceSiblings(isIri, base, c.dataServices);
    ListFacts(g, base, CatalogQuads(isIri, c),
              CatalogOwnQuads(isIri, c, node) + DatasetListQuads(isIri, base, c.datasets, node),
              node, ServiceLink, base + "/services", nodes, parts);
    forall i | 0 <= i < |c.dataServices| ensures DataServiceReader(g, base)(Plain(nodes[i])) == Ok(Indexed(i, c.dataServices[i])) {
      assert Slice(g, nodes[i], parts[i]);
      DataServiceRestored(isIri, g, base, c.dataServices[i], i);
    }
    ListRestored(g, node, ServiceLink, nodes, c.dataServices, DataServiceReader(g, base));
  }

  lemma CatalogOwnRestored(isIri: string -> bool, g: seq<Quad>, c: Catalog)
    requires Storable(isIri, c)
    requires Enumerates(g, CatalogQuads(isIri, c))
    ensures var node := CatalogIri(NodeBase(c.originNode), c.id);
            && CatalogSubject(g) == Some(Resource(node))
            && OptionalString(g, Plain(node), ParticipantId) == Ok(c.participantId)
            && PropertiesAt(g, Plain(node), CATALOG_RESERVED) == Ok(c.properties)
  {
    hide DatasetListQuads, ServiceListQuads, PropertyQuads, KeysKept, FirstObject, PropertiesAt, NodeBase, OptionalString;
    var base := NodeBase(c.originNode);
    var node := CatalogIri(base, c.id);
    CatalogListsOutside(isIri, c);
    CatalogTypeIsUnique(isIri, c);
    var typed := Q(node, RdfType, NamedNode(Term(CatalogClass)));
    assert typed in g && IsCatalogType(typed);
    CatalogSubjectFound(g, Resource(node));
    PropertiesOutside(isIri, c.properties, node, CATALOG_RESERVED);
    forall q ensures q in g && IsProperty(q, Plain(node), CATALOG_RESERVED) <==> q in PropertyQuads(isIri, c.properties, node) {
    }
    PropertiesRestored(isIri, g, node, c.properties, CATALOG_RESERVED);
    forall o ensures Says(g, node, ParticipantId, o) <==> OptionalText(c.participantId) == Some(o) {
      assert Says(g, node, ParticipantId, o) <==> Q(node, ParticipantId, o) in CatalogOwnQuads(isIri, c, node);
    }
    OptionalRestored(g, node, ParticipantId, OptionalText(c.participantId), c.participantId);
  }

  /** Main result: whatever order the store gives a graph's quads in, reading
      them back gives exactly the catalog that was written. */
  lemma CatalogRestored(isIri: string -> bool, g: seq<Quad>, c: Catalog)
    requires Storable(isIri, c) && CatalogFits(c)
    requires Enumerates(g, CatalogQuads(isIri, c))
    ensures CatalogAt(g, c.originNode) == Ok(Some(c))
  {
    hide Storable, CatalogFits, CatalogQuads, ListAt, PropertiesAt, OptionalString, StripPrefixDecode, CatalogSubject, NodeBase;
    CatalogOwnRestored(isIri, g, c);
    DatasetsRestored(isIri, g, c);
    ServicesRestored(isIri, g, c);
    StripPrefixDecodeOfEncode(NodeBase(c.originNode) + "/catalogs/", c.id);
  }
}
