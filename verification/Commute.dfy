/** `/sparql` and `GET /catalog` show a caller the same data: hiding quads of
    the stored catalog, and storing the filtered catalog, come to the same. */
module Commute {
  import opened Text
  import opened CatalogCore
  import opened Vocabulary
  import opened Write
  import opened Subtrees
  import opened Visibility
  import opened PolicyRoutes

  // ----- When a part is shown in full -----

  ghost predicate AllVisible(part: set<Quad>, allow: set<string>) {
    forall q :: q in part ==> q.pred != Term(SequenceIndex) ==> QuadIsVisible(q, allow)
  }

  ghost predicate SubtreeVisible(node: string, allow: set<string>) {
    forall iri :: Under(node, iri) ==> IriIsVisible(iri, allow)
  }

  /** A harvested string is hidden only when it is an IRI of a hidden resource. */
  predicate StringShown(isIri: string -> bool, allow: set<string>, s: string) {
    isIri(s) ==> IriIsVisible(s, allow)
  }

  predicate OptionShown(isIri: string -> bool, allow: set<string>, s: Option<string>) {
    s.Some? ==> StringShown(isIri, allow, s.value)
  }

  predicate ConstraintShown(isIri: string -> bool, allow: set<string>, c: Constraint) {
    match c
    case Atomic(left, operator, _) => StringShown(isIri, allow, left) && StringShown(isIri, allow, operator)
    case Logical(_, children) => forall child :: child in children ==> ConstraintShown(isIri, allow, child)
  }

  predicate RuleShown(isIri: string -> bool, allow: set<string>, rule: Rule) {
    StringShown(isIri, allow, rule.action) && forall c :: c in rule.constraints ==> ConstraintShown(isIri, allow, c)
  }

  predicate RulesShown(isIri: string -> bool, allow: set<string>, rules: seq<Rule>) {
    forall rule :: rule in rules ==> RuleShown(isIri, allow, rule)
  }

  predicate PolicyShown(isIri: string -> bool, allow: set<string>, policy: Policy) {
    && OptionShown(isIri, allow, policy.assigner)
    && OptionShown(isIri, allow, policy.assignee)
    && RulesShown(isIri, allow, policy.permissions)
    && RulesShown(isIri, allow, policy.prohibitions)
    && RulesShown(isIri, allow, policy.obligations)
  }

  lemma TermsShown(isIri: string -> bool, allow: set<string>, s: string)
    ensures TermIsVisible(IriOrLiteral(isIri, s), allow) <==> StringShown(isIri, allow, s)
    ensures TermIsVisible(TextTerm(s), allow)
    ensures forall v :: TermIsVisible(NamedNode(Term(v)), allow)
  {
    hide OwningResourceIri, IriOf;
    forall v ensures TermIsVisible(NamedNode(Term(v)), allow) {
      VocabularyIsUngated(v);
    }
  }

  lemma LinkedVisible(parent: string, link: Vocab, area: string, nodes: seq<string>, parts: seq<set<Quad>>, allow: set<string>)
    requires link != SequenceIndex
    requires TermIsVisible(Resource(parent), allow) && SubtreeVisible(area, allow)
    requires Siblings(area, nodes, parts)
    ensures AllVisible(Linked(parent, link, nodes, parts), allow) <==> forall i :: 0 <= i < |parts| ==> AllVisible(parts[i], allow)
  {
    hide OwningResourceIri;
    forall i | 0 <= i < |nodes| ensures TermIsVisible(Resource(nodes[i]), allow) {
      assert StrictlyBelow(area, nodes[i]);
      assert Under(area, nodes[i]);
    }
    if AllVisible(Linked(parent, link, nodes, parts), allow) {
      forall i | 0 <= i < |parts| ensures AllVisible(parts[i], allow) {
        assert forall q :: q in parts[i] ==> q in Linked(parent, link, nodes, parts);
      }
    }
  }

  lemma SubtreeOfSubtree(node: string, below: string, allow: set<string>)
    requires SubtreeVisible(node, allow) && Under(node, below)
    ensures SubtreeVisible(below, allow) && TermIsVisible(Resource(below), allow)
  {
    hide OwningResourceIri;
    forall iri | Under(below, iri) ensures IriIsVisible(iri, allow) {
      UnderTransitive(node, below, iri);
    }
    assert Under(below, below);
  }

  lemma {:induction false} ConstraintVisible(isIri: string -> bool, c: Constraint, node: string, index: nat, allow: set<string>)
    requires SubtreeVisible(node, allow)
    ensures AllVisible(ConstraintQuads(isIri, c, node, index), allow) <==> ConstraintShown(isIri, allow, c)
    decreases c, 1
  {
    hide IriIsVisible, ConstraintListQuads, SubtreeVisible, IriOrLiteral, TermIsVisible;
    SubtreeOfSubtree(node, node, allow);
    TermsShown(isIri, allow, "");
    match c {
      case Atomic(left, operator, right) =>
        TermsShown(isIri, allow, left);
        TermsShown(isIri, allow, operator);
        TermsShown(isIri, allow, right);
        var qs := ConstraintQuads(isIri, c, node, index);
        assert Q(node, LeftOperand, IriOrLiteral(isIri, left)) in qs && Q(node, Operator, IriOrLiteral(isIri, operator)) in qs;
      case Logical(combinator, children) =>
        ConstraintListVisible(isIri, children, node, Group(combinator), allow);
    }
  }

  lemma {:induction false} ConstraintListVisible(
    isIri: string -> bool, cs: seq<Constraint>, parent: string, link: Vocab, allow: set<string>)
    requires link != SequenceIndex
    requires SubtreeVisible(parent, allow)
    ensures AllVisible(ConstraintListQuads(isIri, cs, parent, link), allow) <==>
            forall c :: c in cs ==> ConstraintShown(isIri, allow, c)
    decreases cs, 0
  {
    hide IriIsVisible, ConstraintQuads, SubtreeVisible, AllVisible, Linked, ConstraintShown;
    var nodes, parts := ConstraintIris(parent, |cs|), ConstraintParts(isIri, cs, parent);
    ConstraintSiblings(isIri, cs, parent);
    UnderArea(parent, "/constraints");
    SubtreeOfSubtree(parent, parent + "/constraints", allow);
    SubtreeOfSubtree(parent, parent, allow);
    LinkedVisible(parent, link, parent + "/constraints", nodes, parts, allow);
    forall i | 0 <= i < |cs| ensures AllVisible(parts[i], allow) <==> ConstraintShown(isIri, allow, cs[i]) {
      NotUnderBelow(parent + "/constraints", nodes[i]);
      SubtreeOfSubtree(parent + "/constraints", nodes[i], allow);
      assert parts[i] == ConstraintQuads(isIri, cs[i], nodes[i], i);
      ConstraintVisible(isIri, cs[i], nodes[i], i, allow);
    }
    assert ConstraintListQuads(isIri, cs, parent, link) == Linked(parent, link, nodes, parts);
    assert AllVisible(ConstraintListQuads(isIri, cs, parent, link), allow) <==> AllVisible(Linked(parent, link, nodes, parts), allow);
    if forall c :: c in cs ==> ConstraintShown(isIri, allow, c) {
      assert forall i :: 0 <= i < |parts| ==> AllVisible(parts[i], allow);
    } else {
      var c :| c in cs && !ConstraintShown(isIri, allow, c);
      var i :| 0 <= i < |cs| && cs[i] == c;
      assert !AllVisible(parts[i], allow);
    }
  }

  lemma RuleVisible(isIri: string -> bool, rule: Rule, node: string, index: nat, allow: set<string>)
    requires SubtreeVisible(node, allow)
    ensures AllVisible(RuleQuads(isIri, rule, node, index), allow) <==> RuleShown(isIri, allow, rule)
  {
    hide IriIsVisible, ConstraintListQuads, SubtreeVisible, IriOrLiteral, TermIsVisible, ConstraintShown;
    SubtreeOfSubtree(node, node, allow);
    TermsShown(isIri, allow, rule.action);
    assert Q(node, Action, IriOrLiteral(isIri, rule.action)) in RuleQuads(isIri, rule, node, index);
    ConstraintListVisible(isIri, rule.constraints, node, ConstraintLink, allow);
  }

  lemma RuleListVisible(
    isIri: string -> bool, rules: seq<Rule>, policy: string, link: Vocab, segment: string, allow: set<string>)
    requires link != SequenceIndex
    requires SubtreeVisible(policy, allow)
    ensures AllVisible(RuleListQuads(isIri, rules, policy, link, segment), allow) <==> RulesShown(isIri, allow, rules)
  {
    hide IriIsVisible, RuleQuads, SubtreeVisible, AllVisible, Linked, RuleShown;
    var area := policy + "/" + segment;
    var nodes, parts := RuleIris(policy, segment, |rules|), RuleParts(isIri, rules, policy, segment);
    RuleSiblings(isIri, rules, policy, segment);
    SubtreeOfSubtree(policy, area, allow);
    SubtreeOfSubtree(policy, policy, allow);
    LinkedVisible(policy, link, area, nodes, parts, allow);
    forall i | 0 <= i < |rules| ensures AllVisible(parts[i], allow) <==> RuleShown(isIri, allow, rules[i]) {
      NotUnderBelow(area, nodes[i]);
      SubtreeOfSubtree(area, nodes[i], allow);
      RuleVisible(isIri, rules[i], nodes[i], i, allow);
    }
  }

  lemma PolicyOwnVisible(isIri: string -> bool, policy: Policy, node: string, index: nat, allow: set<string>)
    requires SubtreeVisible(node, allow)
    ensures AllVisible(PolicyOwnQuads(isIri, policy, node, index), allow) <==>
            OptionShown(isIri, allow, policy.assigner) && OptionShown(isIri, allow, policy.assignee)
  {
    hide IriIsVisible, SubtreeVisible, IriOrLiteral, TermIsVisible;
    var qs := PolicyOwnQuads(isIri, policy, node, index);
    SubtreeOfSubtree(node, node, allow);
    TermsShown(isIri, allow, if policy.id.Some? then policy.id.value else "");
    TermsShown(isIri, allow, if policy.assigner.Some? then policy.assigner.value else "");
    TermsShown(isIri, allow, if policy.assignee.Some? then policy.assignee.value else "");
    assert policy.assigner.Some? ==> Q(node, Assigner, IriOrLiteral(isIri, policy.assigner.value)) in qs;
    assert policy.assignee.Some? ==> Q(node, Assignee, IriOrLiteral(isIri, policy.assignee.value)) in qs;
  }

  lemma PolicyVisible(isIri: string -> bool, policy: Policy, node: string, index: nat, allow: set<string>)
    requires SubtreeVisible(node, allow)
    ensures AllVisible(PolicyQuads(isIri, policy, node, index), allow) <==> PolicyShown(isIri, allow, policy)
  {
    hide IriIsVisible, RuleListQuads, PolicyOwnQuads, SubtreeVisible, QuadIsVisible, OptionShown, RulesShown;
    PolicyOwnVisible(isIri, policy, node, index, allow);
    RuleListVisible(isIri, policy.permissions, node, Permission, "permissions", allow);
    RuleListVisible(isIri, policy.prohibitions, node, Prohibition, "prohibitions", allow);
    RuleListVisible(isIri, policy.obligations, node, Obligation, "obligations", allow);
  }

  lemma PolicyListVisible(isIri: string -> bool, policies: seq<Policy>, dataset: string, allow: set<string>)
    requires SubtreeVisible(dataset, allow)
    ensures AllVisible(PolicyListQuads(isIri, policies, dataset), allow) <==>
            forall policy :: policy in policies ==> PolicyShown(isIri, allow, policy)
  {
    hide IriIsVisible, PolicyQuads, SubtreeVisible, AllVisible, Linked, PolicyShown;
    var nodes, parts := PolicyIris(dataset, |policies|), PolicyParts(isIri, policies, dataset);
    PolicySiblings(isIri, policies, dataset);
    UnderArea(dataset, "/policies");
    SubtreeOfSubtree(dataset, dataset + "/policies", allow);
    SubtreeOfSubtree(dataset, dataset, allow);
    LinkedVisible(dataset, HasPolicy, dataset + "/policies", nodes, parts, allow);
    forall i | 0 <= i < |policies| ensures AllVisible(parts[i], allow) <==> PolicyShown(isIri, allow, policies[i]) {
      NotUnderBelow(dataset + "/policies", nodes[i]);
      SubtreeOfSubtree(dataset + "/policies", nodes[i], allow);
      PolicyVisible(isIri, policies[i], nodes[i], i, allow);
    }
  }

  lemma DistributionListVisible(base: string, ds: seq<Distribution>, dataset: string, allow: set<string>)
    requires SubtreeVisible(dataset, allow)
    ensures AllVisible(DistributionListQuads(base, ds, dataset), allow) <==>
            forall d :: d in ds ==> IriIsVisible(ServiceIri(base, d.accessService), allow)
  {
    hide IriIsVisible, DistributionQuads, SubtreeVisible, AllVisible, Linked, ServiceIri;
    var nodes, parts := DistributionIris(dataset, |ds|), DistributionParts(base, ds, dataset);
    DistributionSiblings(base, ds, dataset);
    UnderArea(dataset, "/distributions");
    SubtreeOfSubtree(dataset, dataset + "/distributions", allow);
    SubtreeOfSubtree(dataset, dataset, allow);
    LinkedVisible(dataset, DistributionLink, dataset + "/distributions", nodes, parts, allow);
    forall i | 0 <= i < |ds| ensures AllVisible(parts[i], allow) <==> IriIsVisible(ServiceIri(base, ds[i].accessService), allow) {
      NotUnderBelow(dataset + "/distributions", nodes[i]);
      SubtreeOfSubtree(dataset + "/distributions", nodes[i], allow);
      DistributionVisible(base, ds[i], nodes[i], i, allow);
    }
  }

  lemma DistributionVisible(base: string, d: Distribution, node: string, index: nat, allow: set<string>)
    requires SubtreeVisible(node, allow)
    ensures AllVisible(DistributionQuads(base, d, node, index), allow) <==> IriIsVisible(ServiceIri(base, d.accessService), allow)
  {
    hide IriIsVisible, SubtreeVisible, ServiceIri;
    SubtreeOfSubtree(node, node, allow);
    TermsShown(s => false, allow, d.format);
    assert Q(node, AccessService, Resource(ServiceIri(base, d.accessService))) in DistributionQuads(base, d, node, index);
  }

  /** The part of dataset `d` that does not depend on its position. */
  ghost predicate DatasetShown(isIri: string -> bool, base: string, allow: set<string>, d: Dataset) {
    && (forall x :: x in d.distributions ==> IriIsVisible(ServiceIri(base, x.accessService), allow))
    && (forall policy :: policy in d.policies ==> PolicyShown(isIri, allow, policy))
  }

  function DatasetOwnQuads(isIri: string -> bool, d: Dataset, node: string, index: nat): (qs: set<Quad>) {
    { Q(node, RdfType, NamedNode(Term(DatasetClass))),
      Q(node, SequenceIndex, IndexTerm(index)) }
    + PropertyQuads(isIri, d.properties, node)
  }

  lemma DatasetOwnVisible(isIri: string -> bool, d: Dataset, node: string, index: nat, allow: set<string>)
    requires SubtreeVisible(node, allow)
    ensures AllVisible(DatasetOwnQuads(isIri, d, node, index), allow)
  {
    hide SubtreeVisible, PropertyQuads, TermIsVisible;
    SubtreeOfSubtree(node, node, allow);
    TermsShown(isIri, allow, "");
    PropertiesAreLiterals(isIri, d.properties, node);
    LiteralsAreVisible(allow);
    hide *;
    OwnVisible(node, DatasetClass, index, PropertyQuads(isIri, d.properties, node), allow);
  }

  lemma OwnVisible(node: string, kind: Vocab, index: nat, properties: set<Quad>, allow: set<string>)
    requires TermIsVisible(Resource(node), allow) && TermIsVisible(NamedNode(Term(kind)), allow)
    requires forall q :: q in properties ==> q.subject == Resource(node) && TermIsVisible(q.obj, allow)
    ensures AllVisible({Q(node, RdfType, NamedNode(Term(kind))), Q(node, SequenceIndex, IndexTerm(index))} + properties, allow)
  {
    hide TermIsVisible;
  }

  lemma LiteralsAreVisible(allow: set<string>)
    ensures forall t: RdfTerm :: t.Literal? ==> TermIsVisible(t, allow)
  {
  }

  lemma DatasetVisible(isIri: string -> bool, base: string, d: Dataset, index: nat, allow: set<string>)
    requires SubtreeVisible(DatasetIri(base, d.id), allow)
    ensures AllVisible(DatasetQuads(isIri, base, d, index), allow) <==> DatasetShown(isIri, base, allow, d)
  {
    hide IriIsVisible, SubtreeVisible, PolicyListQuads, DistributionListQuads, PolicyShown, PropertyQuads, QuadIsVisible, DatasetIri, ServiceIri;
    var node := DatasetIri(base, d.id);
    DatasetOwnVisible(isIri, d, node, index, allow);
    DistributionListVisible(base, d.distributions, node, allow);
    PolicyListVisible(isIri, d.policies, node, allow);
    assert DatasetQuads(isIri, base, d, index) ==
           DatasetOwnQuads(isIri, d, node, index) + DistributionListQuads(base, d.distributions, node) + PolicyListQuads(isIri, d.policies, node);
  }

  lemma ServiceVisible(isIri: string -> bool, base: string, s: DataService, index: nat, allow: set<string>)
    requires SubtreeVisible(ServiceIri(base, s.id), allow)
    ensures AllVisible(ServiceQuads(isIri, base, s, index), allow) <==> StringShown(isIri, allow, s.endpointUrl)
  {
    hide IriIsVisible, SubtreeVisible, IriOrLiteral, TermIsVisible, ServiceIri;
    var node := ServiceIri(base, s.id);
    SubtreeOfSubtree(node, node, allow);
    TermsShown(isIri, allow, s.endpointUrl);
    TermsShown(isIri, allow, if s.endpointDescription.Some? then s.endpointDescription.value else "");
    assert Q(node, EndpointUrl, IriOrLiteral(isIri, s.endpointUrl)) in ServiceQuads(isIri, base, s, index);
  }

  // ----- Entries of a catalog, apart from their positions -----

  /** `q` belongs to the entry of dataset `d`: its link or its quads. */
  ghost predicate DatasetEntry(isIri: string -> bool, base: string, catalog: string, d: Dataset, q: Quad) {
    q == Q(catalog, DatasetLink, Resource(DatasetIri(base, d.id))) || q in DatasetQuads(isIri, base, d, 0)
  }

  ghost predicate ServiceEntry(isIri: string -> bool, base: string, catalog: string, s: DataService, q: Quad) {
    q == Q(catalog, ServiceLink, Resource(ServiceIri(base, s.id))) || q in ServiceQuads(isIri, base, s, 0)
  }

  lemma DatasetPositionFree(isIri: string -> bool, base: string, d: Dataset, index: nat, q: Quad)
    requires q.pred != Term(SequenceIndex)
    ensures q in DatasetQuads(isIri, base, d, index) <==> q in DatasetQuads(isIri, base, d, 0)
  {
    hide PropertyQuads, DistributionListQuads, PolicyListQuads;
  }

  lemma ServicePositionFree(isIri: string -> bool, base: string, s: DataService, index: nat, q: Quad)
    requires q.pred != Term(SequenceIndex)
    ensures q in ServiceQuads(isIri, base, s, index) <==> q in ServiceQuads(isIri, base, s, 0)
  {
  }

  lemma DatasetListEntries(isIri: string -> bool, base: string, ds: seq<Dataset>, catalog: string, q: Quad)
    requires q.pred != Term(SequenceIndex)
    ensures q in DatasetListQuads(isIri, base, ds, catalog) <==> exists d :: d in ds && DatasetEntry(isIri, base, catalog, d, q)
  {
    hide DatasetQuads, DatasetIri;
    var nodes, parts := DatasetIris(base, ds), DatasetParts(isIri, base, ds);
    forall i | 0 <= i < |ds| ensures q in parts[i] <==> q in DatasetQuads(isIri, base, ds[i], 0) {
      DatasetPositionFree(isIri, base, ds[i], i, q);
    }
    if d :| d in ds && DatasetEntry(isIri, base, catalog, d, q) {
      var i :| 0 <= i < |ds| && ds[i] == d;
      assert q == Q(catalog, DatasetLink, Resource(nodes[i])) || q in parts[i];
    }
    if q in DatasetListQuads(isIri, base, ds, catalog) {
      var i :| 0 <= i < |ds| && (q == Q(catalog, DatasetLink, Resource(nodes[i])) || q in parts[i]);
      assert DatasetEntry(isIri, base, catalog, ds[i], q);
    }
  }

  lemma ServiceListEntries(isIri: string -> bool, base: string, ss: seq<DataService>, catalog: string, q: Quad)
    requires q.pred != Term(SequenceIndex)
    ensures q in ServiceListQuads(isIri, base, ss, catalog) <==> exists s :: s in ss && ServiceEntry(isIri, base, catalog, s, q)
  {
    hide ServiceQuads, ServiceIri;
    var nodes, parts := ServiceIris(base, ss), ServiceParts(isIri, base, ss);
    forall i | 0 <= i < |ss| ensures q in parts[i] <==> q in ServiceQuads(isIri, base, ss[i], 0) {
      ServicePositionFree(isIri, base, ss[i], i, q);
    }
    if s :| s in ss && ServiceEntry(isIri, base, catalog, s, q) {
      var i :| 0 <= i < |ss| && ss[i] == s;
      assert q == Q(catalog, ServiceLink, Resource(nodes[i])) || q in parts[i];
    }
    if q in ServiceListQuads(isIri, base, ss, catalog) {
      var i :| 0 <= i < |ss| && (q == Q(catalog, ServiceLink, Resource(nodes[i])) || q in parts[i]);
      assert ServiceEntry(isIri, base, catalog, ss[i], q);
    }
  }

  /** `q` belongs to some entry of `c`, or to `c` itself. */
  ghost predicate InCatalog(isIri: string -> bool, c: Catalog, q: Quad) {
    var base := NodeBase(c.originNode);
    var node := CatalogIri(base, c.id);
    || q in CatalogOwnQuads(isIri, c, node)
    || (exists d :: d in c.datasets && DatasetEntry(isIri, base, node, d, q))
    || (exists s :: s in c.dataServices && ServiceEntry(isIri, base, node, s, q))
  }

  lemma CatalogEntries(isIri: string -> bool, c: Catalog, q: Quad)
    requires q.pred != Term(SequenceIndex)
    ensures q in CatalogQuads(isIri, c) <==> InCatalog(isIri, c, q)
  {
    hide DatasetListQuads, ServiceListQuads, DatasetEntry, ServiceEntry, CatalogOwnQuads;
    var base := NodeBase(c.originNode);
    DatasetListEntries(isIri, base, c.datasets, CatalogIri(base, c.id), q);
    ServiceListEntries(isIri, base, c.dataServices, CatalogIri(base, c.id), q);
  }

  // ----- Hidden entries disappear, visible ones stay -----

  lemma DatasetHidden(isIri: string -> bool, node: string, d: Dataset, catalog: string, q: Quad, allow: set<string>)
    requires DatasetResourceIri(node, d.id) !in allow
    requires DatasetEntry(isIri, NodeBase(node), catalog, d, q)
    ensures !QuadIsVisible(q, allow)
  {
    hide DatasetQuads, NodeBase, OwningResourceIri;
    var iri := DatasetIri(NodeBase(node), d.id);
    assert Under(iri, iri);
    DatasetOwnsItsSubtree(node, d.id, iri);
    if q in DatasetQuads(isIri, NodeBase(node), d, 0) {
      DatasetBelow(isIri, NodeBase(node), d, 0);
      DatasetOwnsItsSubtree(node, d.id, q.subject.iri.text);
    }
  }

  lemma ServiceHidden(isIri: string -> bool, node: string, s: DataService, catalog: string, q: Quad, allow: set<string>)
    requires ServiceResourceIri(node, s.id) !in allow
    requires ServiceEntry(isIri, NodeBase(node), catalog, s, q)
    ensures !QuadIsVisible(q, allow)
  {
    hide NodeBase, OwningResourceIri;
    var iri := ServiceIri(NodeBase(node), s.id);
    assert Under(iri, iri);
    ServiceOwnsItsSubtree(node, s.id, iri);
  }

  lemma ResourceSubtreeVisible(node: string, id: string, allow: set<string>)
    ensures DatasetResourceIri(node, id) in allow ==> SubtreeVisible(DatasetResourceIri(node, id), allow)
    ensures ServiceResourceIri(node, id) in allow ==> SubtreeVisible(ServiceResourceIri(node, id), allow)
    ensures IriIsVisible(DatasetResourceIri(node, id), allow) <==> DatasetResourceIri(node, id) in allow
    ensures IriIsVisible(ServiceResourceIri(node, id), allow) <==> ServiceResourceIri(node, id) in allow
  {
    hide OwningResourceIri, DatasetResourceIri, ServiceResourceIri;
    var d, s := DatasetResourceIri(node, id), ServiceResourceIri(node, id);
    assert Under(d, d) && Under(s, s);
    forall iri | Under(d, iri) ensures OwningResourceIri(iri) == Some(d) {
      DatasetOwnsItsSubtree(node, id, iri);
    }
    forall iri | Under(s, iri) ensures OwningResourceIri(iri) == Some(s) {
      ServiceOwnsItsSubtree(node, id, iri);
    }
  }

  lemma DatasetEntryShown(isIri: string -> bool, node: string, d: Dataset, catalogId: string, allow: set<string>)
    requires DatasetResourceIri(node, d.id) in allow
    ensures (forall q: Quad :: q.pred != Term(SequenceIndex) && DatasetEntry(isIri, NodeBase(node), CatalogIri(NodeBase(node), catalogId), d, q)
                         ==> QuadIsVisible(q, allow))
            <==> DatasetShown(isIri, NodeBase(node), allow, d)
  {
    hide DatasetQuads, NodeBase, OwningResourceIri, DatasetShown, SubtreeVisible, DatasetIri, CatalogIri, ServiceIri;
    var base, catalog := NodeBase(node), CatalogIri(NodeBase(node), catalogId);
    ResourceSubtreeVisible(node, d.id, allow);
    CatalogIsUngated(node, catalogId);
    DatasetVisible(isIri, base, d, 0, allow);
    assert QuadIsVisible(Q(catalog, DatasetLink, Resource(DatasetIri(base, d.id))), allow);
    assert (forall q: Quad :: q.pred != Term(SequenceIndex) && DatasetEntry(isIri, base, catalog, d, q) ==> QuadIsVisible(q, allow))
           <==> AllVisible(DatasetQuads(isIri, base, d, 0), allow);
  }

  lemma ServiceEntryShown(isIri: string -> bool, node: string, s: DataService, catalogId: string, allow: set<string>)
    requires ServiceResourceIri(node, s.id) in allow
    ensures (forall q: Quad :: q.pred != Term(SequenceIndex) && ServiceEntry(isIri, NodeBase(node), CatalogIri(NodeBase(node), catalogId), s, q)
                         ==> QuadIsVisible(q, allow))
            <==> StringShown(isIri, allow, s.endpointUrl)
  {
    hide ServiceQuads, NodeBase, OwningResourceIri, StringShown, SubtreeVisible, ServiceIri, CatalogIri;
    var base, catalog := NodeBase(node), CatalogIri(NodeBase(node), catalogId);
    ResourceSubtreeVisible(node, s.id, allow);
    CatalogIsUngated(node, catalogId);
    ServiceVisible(isIri, base, s, 0, allow);
    assert QuadIsVisible(Q(catalog, ServiceLink, Resource(ServiceIri(base, s.id))), allow);
    assert (forall q: Quad :: q.pred != Term(SequenceIndex) && ServiceEntry(isIri, base, catalog, s, q) ==> QuadIsVisible(q, allow))
           <==> AllVisible(ServiceQuads(isIri, base, s, 0), allow);
  }

  lemma CatalogOwnShown(isIri: string -> bool, c: Catalog, q: Quad, allow: set<string>)
    requires q in CatalogOwnQuads(isIri, c, CatalogIri(NodeBase(c.originNode), c.id)) && q.pred != Term(SequenceIndex)
    ensures QuadIsVisible(q, allow)
  {
    var node := CatalogIri(NodeBase(c.originNode), c.id);
    CatalogIsUngated(c.originNode, c.id);
    CatalogOwnTerms(isIri, c, node, q);
    hide OwningResourceIri, NodeBase, CatalogIri, CatalogOwnQuads;
    TermsShown(isIri, allow, "");
    LiteralsAreVisible(allow);
  }

  lemma CatalogOwnTerms(isIri: string -> bool, c: Catalog, node: string, q: Quad)
    requires q in CatalogOwnQuads(isIri, c, node)
    ensures q.subject == Resource(node) && (q.obj.Literal? || q.obj == NamedNode(Term(CatalogClass)))
  {
    hide PropertyQuads;
    PropertiesAreLiterals(isIri, c.properties, node);
  }

  // ----- The two filters agree -----

  /** What `/sparql` shows of `c` to a caller whose allow-list is `allow`. */
  function Shown(isIri: string -> bool, c: Catalog, allow: set<string>): (qs: set<Quad>) {
    set q | q in CatalogQuads(isIri, c) && QuadIsVisible(q, allow)
  }

  /** What `GET /catalog` serves of `c`, as the quads it would be stored as,
      without position numbers. */
  function Served(isIri: string -> bool, c: Catalog, decide: Dataset -> bool): (qs: set<Quad>) {
    set q | q in CatalogQuads(isIri, FilterCatalog(c, decide, HideGatedOnly)) && q.pred != Term(SequenceIndex)
  }

  /** The allow-list says of `c` what `decide` says. */
  ghost predicate Agrees(allow: set<string>, c: Catalog, decide: Dataset -> bool) {
    && (forall d :: d in c.datasets ==> (DatasetResourceIri(c.originNode, d.id) in allow <==> decide(d)))
    && (forall id :: ServiceResourceIri(c.originNode, id) in allow <==> Listed(c, id) && ServiceShown(c, decide, id))
  }

  predicate Listed(c: Catalog, id: string) {
    exists s :: s in c.dataServices && s.id == id
  }

  /** Nothing `d` says names a hidden resource, nor a service its catalog does
      not list. */
  ghost predicate DatasetSelfContained(isIri: string -> bool, c: Catalog, allow: set<string>, d: Dataset) {
    && (forall x :: x in d.distributions ==> Listed(c, x.accessService))
    && (forall policy :: policy in d.policies ==> PolicyShown(isIri, allow, policy))
  }

  ghost predicate SelfContained(isIri: string -> bool, c: Catalog, decide: Dataset -> bool, allow: set<string>) {
    && (forall d :: d in c.datasets && decide(d) ==> DatasetSelfContained(isIri, c, allow, d))
    && (forall s :: s in c.dataServices && ServiceShown(c, decide, s.id) ==> StringShown(isIri, allow, s.endpointUrl))
  }

  lemma VisibleDatasetUsesShownServices(c: Catalog, decide: Dataset -> bool, allow: set<string>, d: Dataset, x: Distribution)
    requires Agrees(allow, c, decide)
    requires d in c.datasets && decide(d) && x in d.distributions
    ensures IriIsVisible(ServiceResourceIri(c.originNode, x.accessService), allow) <==> Listed(c, x.accessService)
  {
    hide OwningResourceIri, ServiceResourceIri, DatasetResourceIri, Listed, IriIsVisible;
    ResourceSubtreeVisible(c.originNode, x.accessService, allow);
    assert d in Retain(c.datasets, decide);
    assert x.accessService in ServicesUsedBy(Retain(c.datasets, decide));
  }

  lemma SelfContainedIsShown(isIri: string -> bool, c: Catalog, decide: Dataset -> bool, allow: set<string>, d: Dataset)
    requires Agrees(allow, c, decide)
    requires d in c.datasets && decide(d)
    ensures DatasetShown(isIri, NodeBase(c.originNode), allow, d) <==> DatasetSelfContained(isIri, c, allow, d)
  {
    hide Agrees, IriIsVisible, PolicyShown, ServiceIri, NodeBase, Listed;
    forall x | x in d.distributions
      ensures IriIsVisible(ServiceIri(NodeBase(c.originNode), x.accessService), allow) <==> Listed(c, x.accessService)
    {
      VisibleDatasetUsesShownServices(c, decide, allow, d, x);
    }
  }

  /** `/sparql` never shows more than `GET /catalog` serves. */
  lemma ShownIsServed(isIri: string -> bool, c: Catalog, decide: Dataset -> bool, allow: set<string>)
    requires Agrees(allow, c, decide)
    ensures Shown(isIri, c, allow) <= Served(isIri, c, decide)
  {
    hide CatalogQuads, QuadIsVisible, DatasetEntry, ServiceEntry, NodeBase, CatalogIri, DatasetResourceIri, ServiceResourceIri, ServiceShown, CatalogOwnQuads;
    var base, filtered := NodeBase(c.originNode), FilterCatalog(c, decide, HideGatedOnly);
    var node := CatalogIri(base, c.id);
    forall q | q in Shown(isIri, c, allow) ensures q in Served(isIri, c, decide) {
      assert q.pred != Term(SequenceIndex) by { VisibleIsUnnumbered(q, allow); }
      CatalogEntries(isIri, c, q);
      CatalogEntries(isIri, filtered, q);
      CatalogOwnSame(isIri, c, filtered, node);
      if d :| d in c.datasets && DatasetEntry(isIri, base, node, d, q) {
        if DatasetResourceIri(c.originNode, d.id) !in allow {
          DatasetHidden(isIri, c.originNode, d, node, q, allow);
        }
        assert d in filtered.datasets;
      }
      if s :| s in c.dataServices && ServiceEntry(isIri, base, node, s, q) {
        if ServiceResourceIri(c.originNode, s.id) !in allow {
          ServiceHidden(isIri, c.originNode, s, node, q, allow);
        }
        assert s in filtered.dataServices;
      }
    }
  }

  lemma VisibleIsUnnumbered(q: Quad, allow: set<string>)
    requires QuadIsVisible(q, allow)
    ensures q.pred != Term(SequenceIndex)
  {
  }

  lemma CatalogOwnSame(isIri: string -> bool, c: Catalog, c': Catalog, node: string)
    requires c'.participantId == c.participantId && c'.properties == c.properties
    ensures CatalogOwnQuads(isIri, c', node) == CatalogOwnQuads(isIri, c, node)
  {
  }

  lemma ServedIsShown(isIri: string -> bool, c: Catalog, decide: Dataset -> bool, allow: set<string>)
    requires Agrees(allow, c, decide)
    requires SelfContained(isIri, c, decide, allow)
    ensures Served(isIri, c, decide) <= Shown(isIri, c, allow)
  {
    hide CatalogQuads, QuadIsVisible, DatasetEntry, ServiceEntry, NodeBase, CatalogIri, DatasetResourceIri, ServiceResourceIri,
         ServiceShown, CatalogOwnQuads, StringShown, DatasetShown, DatasetSelfContained;
    var base, filtered := NodeBase(c.originNode), FilterCatalog(c, decide, HideGatedOnly);
    var node := CatalogIri(base, c.id);
    CatalogOwnSame(isIri, c, filtered, node);
    forall q | q in Served(isIri, c, decide) ensures q in Shown(isIri, c, allow) {
      CatalogEntries(isIri, c, q);
      CatalogEntries(isIri, filtered, q);
      if q in CatalogOwnQuads(isIri, c, node) {
        CatalogOwnShown(isIri, c, q, allow);
      } else if d :| d in filtered.datasets && DatasetEntry(isIri, base, node, d, q) {
        SelfContainedIsShown(isIri, c, decide, allow, d);
        DatasetEntryShown(isIri, c.originNode, d, c.id, allow);
      } else {
        var s :| s in filtered.dataServices && ServiceEntry(isIri, base, node, s, q);
        ListedHere(c, s);
        ServiceEntryShown(isIri, c.originNode, s, c.id, allow);
      }
    }
  }

  lemma ListedHere(c: Catalog, s: DataService)
    requires s in c.dataServices
    ensures Listed(c, s.id)
  {
  }

  lemma AllServedMeansSelfContained(isIri: string -> bool, c: Catalog, decide: Dataset -> bool, allow: set<string>)
    requires Agrees(allow, c, decide)
    requires Served(isIri, c, decide) <= Shown(isIri, c, allow)
    ensures SelfContained(isIri, c, decide, allow)
  {
    hide CatalogQuads, QuadIsVisible, DatasetEntry, ServiceEntry, NodeBase, CatalogIri, DatasetResourceIri, ServiceResourceIri,
         ServiceShown, CatalogOwnQuads, StringShown, DatasetShown, DatasetSelfContained;
    var base, filtered := NodeBase(c.originNode), FilterCatalog(c, decide, HideGatedOnly);
    var node := CatalogIri(base, c.id);
    forall d | d in c.datasets && decide(d) ensures DatasetSelfContained(isIri, c, allow, d) {
      assert d in filtered.datasets;
      forall q: Quad | q.pred != Term(SequenceIndex) && DatasetEntry(isIri, base, node, d, q) ensures QuadIsVisible(q, allow) {
        CatalogEntries(isIri, filtered, q);
        assert q in Served(isIri, c, decide);
      }
      DatasetEntryShown(isIri, c.originNode, d, c.id, allow);
      SelfContainedIsShown(isIri, c, decide, allow, d);
    }
    forall s | s in c.dataServices && ServiceShown(c, decide, s.id) ensures StringShown(isIri, allow, s.endpointUrl) {
      assert s in filtered.dataServices;
      ListedHere(c, s);
      forall q: Quad | q.pred != Term(SequenceIndex) && ServiceEntry(isIri, base, node, s, q) ensures QuadIsVisible(q, allow) {
        CatalogEntries(isIri, filtered, q);
        assert q in Served(isIri, c, decide);
      }
      ServiceEntryShown(isIri, c.originNode, s, c.id, allow);
    }
  }

  /** The two routes show the same data exactly when no visible entry names a
      hidden resource or a service its catalog does not list. */
  lemma FiltersCommute(isIri: string -> bool, c: Catalog, decide: Dataset -> bool, allow: set<string>)
    requires Agrees(allow, c, decide)
    ensures Shown(isIri, c, allow) <= Served(isIri, c, decide)
    ensures Shown(isIri, c, allow) == Served(isIri, c, decide) <==> SelfContained(isIri, c, decide, allow)
  {
    hide Agrees, Shown, Served, SelfContained;
    ShownIsServed(isIri, c, decide, allow);
    if SelfContained(isIri, c, decide, allow) {
      ServedIsShown(isIri, c, decide, allow);
    }
    if Shown(isIri, c, allow) == Served(isIri, c, decide) {
      AllServedMeansSelfContained(isIri, c, decide, allow);
    }
  }

  // ----- The allow-list of a whole store -----

  /** The union `sparql_query_json_policy_filtered` evaluates over. */
  function AllowList(m: map<string, Catalog>, decide: Dataset -> bool): (iris: set<string>) {
    set node, iri | node in m && iri in VisibleResourceIris(m[node], decide) :: iri
  }

  /** Each catalog under its own node, each dataset id once. */
  ghost predicate StoreCatalogs(m: map<string, Catalog>) {
    forall node :: node in m ==> m[node].originNode == node && UniqueDatasets(m[node].datasets)
  }

  lemma OwnedByItsCatalog(c: Catalog, decide: Dataset -> bool, node: string, id: string)
    ensures DatasetResourceIri(node, id) in VisibleResourceIris(c, decide) <==>
            c.originNode == node && exists d :: d in c.datasets && decide(d) && d.id == id
    ensures ServiceResourceIri(node, id) in VisibleResourceIris(c, decide) <==>
            c.originNode == node && Listed(c, id) && ServiceShown(c, decide, id)
  {
    hide DatasetResourceIri, ServiceResourceIri, ServiceShown;
    forall other ensures DatasetResourceIri(node, id) == DatasetResourceIri(c.originNode, other) <==> c.originNode == node && other == id {
      OwnersAreDistinct(node, id, c.originNode, other);
    }
    forall other ensures ServiceResourceIri(node, id) == ServiceResourceIri(c.originNode, other) <==> c.originNode == node && other == id {
      OwnersAreDistinct(node, id, c.originNode, other);
    }
    forall other ensures DatasetResourceIri(node, id) != ServiceResourceIri(c.originNode, other) {
      OwnersAreDistinct(node, id, c.originNode, other);
    }
    forall other ensures DatasetResourceIri(c.originNode, other) != ServiceResourceIri(node, id) {
      OwnersAreDistinct(c.originNode, other, node, id);
    }
  }

  /** The union over all catalogs decides each catalog as its own list would:
      no catalog's entry opens a resource of another. */
  lemma AllowListAgrees(m: map<string, Catalog>, decide: Dataset -> bool, node: string)
    requires StoreCatalogs(m) && node in m
    ensures Agrees(AllowList(m, decide), m[node], decide)
  {
    hide DatasetResourceIri, ServiceResourceIri, ServiceShown, Listed, VisibleResourceIris;
    var c, allow := m[node], AllowList(m, decide);
    forall d | d in c.datasets ensures DatasetResourceIri(node, d.id) in allow <==> decide(d) {
      forall other | other in m {
        OwnedByItsCatalog(m[other], decide, node, d.id);
      }
      OnlyDatasetWithId(c, d);
    }
    forall id ensures ServiceResourceIri(node, id) in allow <==> Listed(c, id) && ServiceShown(c, decide, id) {
      forall other | other in m {
        OwnedByItsCatalog(m[other], decide, node, id);
      }
    }
  }

  lemma OnlyDatasetWithId(c: Catalog, d: Dataset)
    requires UniqueDatasets(c.datasets) && d in c.datasets
    ensures forall other :: other in c.datasets && other.id == d.id ==> other == d
  {
  }

  /** For every store and caller, and every catalog in it. */
  lemma RoutesShowTheSame(isIri: string -> bool, m: map<string, Catalog>, decide: Dataset -> bool, node: string)
    requires StoreCatalogs(m) && node in m
    ensures var allow := AllowList(m, decide);
            && Shown(isIri, m[node], allow) <= Served(isIri, m[node], decide)
            && (Shown(isIri, m[node], allow) == Served(isIri, m[node], decide) <==> SelfContained(isIri, m[node], decide, allow))
  {
    hide *;
    AllowListAgrees(m, decide, node);
    FiltersCommute(isIri, m[node], decide, AllowList(m, decide));
  }

  // ----- Services of hidden partners -----

  /** `q` names the service, or something stored below it, as subject or object. */
  ghost predicate About(q: Quad, node: string, id: string) {
    exists iri :: Under(ServiceResourceIri(node, id), iri) && (q.subject == Resource(iri) || q.obj == Resource(iri))
  }

  /** In no catalog of the store does a quad about a service show that only
      hidden datasets use; the link to one that some visible dataset uses, or
      none at all, always shows. */
  lemma GatedServicesAreNotShown(isIri: string -> bool, m: map<string, Catalog>, decide: Dataset -> bool, node: string, id: string)
    requires StoreCatalogs(m) && node in m && Listed(m[node], id)
    ensures (exists d :: d in m[node].datasets && Uses(d, id)) && (forall d :: d in m[node].datasets && Uses(d, id) ==> !decide(d)) ==>
              forall other, q :: other in m && About(q, node, id) ==> q !in Shown(isIri, m[other], AllowList(m, decide))
    ensures (exists d :: d in m[node].datasets && Uses(d, id) && decide(d)) || (forall d :: d in m[node].datasets ==> !Uses(d, id)) ==>
              Q(CatalogIri(NodeBase(node), m[node].id), ServiceLink, Resource(ServiceResourceIri(node, id)))
              in Shown(isIri, m[node], AllowList(m, decide))
  {
    hide Agrees, Listed, Uses, ServiceResourceIri, CatalogIri, NodeBase, ServiceShown;
    var c, allow := m[node], AllowList(m, decide);
    AllowListAgrees(m, decide, node);
    ListedIsAllowed(c, decide, allow, id);
    ShownIsOffered(c, decide, id);
    if !ServiceOffered(c, decide, id) {
      hide AllowList, StoreCatalogs, CatalogQuads, ServiceOffered;
      forall other, q | other in m && About(q, node, id) ensures q !in Shown(isIri, m[other], allow) {
        AboutHidden(q, node, id, allow);
      }
    } else {
      hide AllowList, StoreCatalogs, ServiceOffered;
      LinkShown(isIri, c, id, allow);
    }
  }

  lemma ListedIsAllowed(c: Catalog, decide: Dataset -> bool, allow: set<string>, id: string)
    requires Agrees(allow, c, decide) && Listed(c, id)
    ensures ServiceResourceIri(c.originNode, id) in allow <==> ServiceShown(c, decide, id)
  {
    hide ServiceResourceIri, DatasetResourceIri, ServiceShown, Listed;
  }

  lemma AboutHidden(q: Quad, node: string, id: string, allow: set<string>)
    requires About(q, node, id) && ServiceResourceIri(node, id) !in allow
    ensures !QuadIsVisible(q, allow)
  {
    hide ServiceResourceIri, OwningResourceIri;
    var iri :| Under(ServiceResourceIri(node, id), iri) && (q.subject == Resource(iri) || q.obj == Resource(iri));
    ServiceOwnsItsSubtree(node, id, iri);
  }

  lemma LinkShown(isIri: string -> bool, c: Catalog, id: string, allow: set<string>)
    requires Listed(c, id) && ServiceResourceIri(c.originNode, id) in allow
    ensures Q(CatalogIri(NodeBase(c.originNode), c.id), ServiceLink, Resource(ServiceResourceIri(c.originNode, id))) in Shown(isIri, c, allow)
  {
    hide OwningResourceIri, NodeBase, CatalogIri, CatalogQuads, ServiceQuads, DatasetQuads, CatalogOwnQuads;
    var base := NodeBase(c.originNode);
    var q := Q(CatalogIri(base, c.id), ServiceLink, Resource(ServiceResourceIri(c.originNode, id)));
    var s :| s in c.dataServices && s.id == id;
    assert ServiceEntry(isIri, base, CatalogIri(base, c.id), s, q);
    CatalogEntries(isIri, c, q);
    CatalogIsUngated(c.originNode, c.id);
    ResourceSubtreeVisible(c.originNode, id, allow);
  }
}
