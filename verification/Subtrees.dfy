/** Where the quads of a part of the catalog sit: every quad has its subject at
    or below the node its part was minted for, and siblings' subtrees are
    disjoint. So the quads of one part can be told apart inside the graph. */
module Subtrees {
  import opened Text
  import opened CatalogCore
  import opened Vocabulary
  import opened Write

  predicate InSubtree(q: Quad, node: string) {
    q.subject.NamedNode? && q.subject.iri.Plain? && Under(node, q.subject.iri.text)
  }

  ghost predicate AllBelow(part: set<Quad>, node: string) {
    forall q :: q in part ==> InSubtree(q, node)
  }

  predicate OneOf(nodes: seq<string>, o: RdfTerm) {
    exists i :: 0 <= i < |nodes| && o == Resource(nodes[i])
  }

  // ----- Siblings -----

  predicate StrictlyBelow(area: string, node: string) {
    area + "/" <= node
  }

  ghost predicate Apart(a: string, b: string) {
    forall iri :: !(Under(a, iri) && Under(b, iri))
  }

  /** Nodes below `area` whose subtrees are pairwise disjoint, each with the
      part stored there. */
  ghost predicate Siblings(area: string, nodes: seq<string>, parts: seq<set<Quad>>) {
    && |nodes| == |parts|
    && (forall i :: 0 <= i < |nodes| ==> StrictlyBelow(area, nodes[i]))
    && (forall i, j :: 0 <= i < |nodes| && 0 <= j < |nodes| && i != j ==> Apart(nodes[i], nodes[j]))
    && (forall i :: 0 <= i < |parts| ==> AllBelow(parts[i], nodes[i]))
  }

  lemma SegmentsApart(prefix: string, a: string, b: string)
    requires SlashFree(a) && SlashFree(b) && a != b
    ensures Apart(prefix + a, prefix + b)
  {
    forall iri | Under(prefix + a, iri) ensures !Under(prefix + b, iri) {
      if Under(prefix + b, iri) {
        SegmentUnique(prefix, a, b, iri);
      }
    }
  }

  lemma NumberedApart(prefix: string, i: nat, j: nat)
    requires i != j
    ensures Apart(prefix + Decimal(i), prefix + Decimal(j))
  {
    if Decimal(i) == Decimal(j) {
      DecimalInjective(i, j);
    }
    SegmentsApart(prefix, Decimal(i), Decimal(j));
  }

  lemma EncodedApart(prefix: string, a: string, b: string)
    requires a != b
    ensures Apart(prefix + Encode(a), prefix + Encode(b))
  {
    if Encode(a) == Encode(b) {
      EncodeInjective(a, b);
    }
    EncodeSlashFree(a);
    EncodeSlashFree(b);
    SegmentsApart(prefix, Encode(a), Encode(b));
  }

  lemma NotUnderBelow(area: string, node: string)
    requires StrictlyBelow(area, node)
    ensures !Under(node, area) && Under(area, node)
  {
  }

  // ----- Lists -----

  lemma LinkedBelow(root: string, parent: string, link: Vocab, area: string, nodes: seq<string>, parts: seq<set<Quad>>)
    requires Siblings(area, nodes, parts)
    requires Under(root, parent) && Under(root, area)
    ensures AllBelow(Linked(parent, link, nodes, parts), root)
  {
    forall q | q in Linked(parent, link, nodes, parts) ensures InSubtree(q, root) {
      if i :| 0 <= i < |parts| && q in parts[i] {
        assert InSubtree(q, nodes[i]);
        UnderTransitive(root, area, nodes[i]);
        UnderTransitive(root, nodes[i], q.subject.iri.text);
      }
    }
  }

  /** The quads of a list are its links, or lie below the list's own area. */
  lemma LinkedWithin(parent: string, link: Vocab, area: string, nodes: seq<string>, parts: seq<set<Quad>>, q: Quad)
    requires Siblings(area, nodes, parts)
    requires q in Linked(parent, link, nodes, parts)
    ensures InSubtree(q, area) || exists i :: 0 <= i < |nodes| && q == Q(parent, link, Resource(nodes[i]))
  {
    if i :| 0 <= i < |parts| && q in parts[i] {
      assert InSubtree(q, nodes[i]);
      UnderTransitive(area, nodes[i], q.subject.iri.text);
    }
  }

  /** A list stays out of any area disjoint from its own. */
  lemma LinkedOutside(
    parent: string, link: Vocab, area: string, nodes: seq<string>, parts: seq<set<Quad>>, other: string)
    requires Siblings(area, nodes, parts)
    requires Apart(area, other) && !Under(area, parent) && !Under(other, parent)
    ensures forall q :: q in Linked(parent, link, nodes, parts) ==>
                !InSubtree(q, other) && (q.subject == Resource(parent) ==> q.pred == Term(link))
  {
    forall q | q in Linked(parent, link, nodes, parts)
      ensures !InSubtree(q, other) && (q.subject == Resource(parent) ==> q.pred == Term(link))
    {
      LinkedWithin(parent, link, area, nodes, parts, q);
    }
  }

  /** What a list says about its parent itself: the links, nothing else. */
  lemma LinkedOwn(parent: string, link: Vocab, area: string, nodes: seq<string>, parts: seq<set<Quad>>)
    requires Siblings(area, nodes, parts)
    requires !Under(area, parent)
    ensures forall p, o :: Quad(Resource(parent), p, o) in Linked(parent, link, nodes, parts) <==>
                           (p == Term(link) && OneOf(nodes, o))
  {
    forall p, o
      ensures Quad(Resource(parent), p, o) in Linked(parent, link, nodes, parts) <==> (p == Term(link) && OneOf(nodes, o))
    {
      var q := Quad(Resource(parent), p, o);
      if q in Linked(parent, link, nodes, parts) {
        LinkedWithin(parent, link, area, nodes, parts, q);
      }
      if p == Term(link) && OneOf(nodes, o) {
        var i :| 0 <= i < |nodes| && o == Resource(nodes[i]);
        assert q == Q(parent, link, Resource(nodes[i]));
      }
    }
  }

  // ----- Slices of a graph -----

  /** The quads of `g` at or below `node` are exactly `part`. */
  ghost predicate Slice(g: seq<Quad>, node: string, part: set<Quad>) {
    forall q :: q in g && InSubtree(q, node) <==> q in part
  }

  /** A list below `root` hands each of its nodes exactly its own part. */
  lemma ListSlices(
    g: seq<Quad>, root: string, whole: set<Quad>, rest: set<Quad>,
    parent: string, link: Vocab, area: string, nodes: seq<string>, parts: seq<set<Quad>>)
    requires Slice(g, root, whole)
    requires whole == rest + Linked(parent, link, nodes, parts)
    requires forall q :: q in rest ==> !InSubtree(q, area)
    requires Siblings(area, nodes, parts)
    requires Under(root, area) && !Under(area, parent)
    ensures forall i :: 0 <= i < |nodes| ==> Slice(g, nodes[i], parts[i])
  {
    forall i | 0 <= i < |nodes| ensures Slice(g, nodes[i], parts[i]) {
      forall q ensures q in g && InSubtree(q, nodes[i]) <==> q in parts[i] {
        if q in g && InSubtree(q, nodes[i]) {
          var iri := q.subject.iri.text;
          UnderTransitive(area, nodes[i], iri);
          UnderTransitive(root, area, iri);
          assert q in whole && q in Linked(parent, link, nodes, parts);
          LinkedWithin(parent, link, area, nodes, parts, q);
          var j :| 0 <= j < |parts| && q in parts[j];
          assert InSubtree(q, nodes[j]);
          assert j == i;
        }
        if q in parts[i] {
          assert q in Linked(parent, link, nodes, parts) && q in whole;
          assert InSubtree(q, nodes[i]);
        }
      }
    }
  }

  // ----- Where each part of a catalog sits -----

  lemma UnderArea(node: string, segment: string)
    requires segment != "" && segment[0] == '/'
    ensures Under(node, node + segment) && !Under(node + segment, node)
  {
  }

  lemma NumberedSiblings(area: string, nodes: seq<string>, parts: seq<set<Quad>>)
    requires |nodes| == |parts|
    requires forall i :: 0 <= i < |nodes| ==> nodes[i] == area + "/" + Decimal(i)
    requires forall i :: 0 <= i < |parts| ==> AllBelow(parts[i], nodes[i])
    ensures Siblings(area, nodes, parts)
  {
    forall i, j | 0 <= i < |nodes| && 0 <= j < |nodes| && i != j ensures Apart(nodes[i], nodes[j]) {
      NumberedApart(area + "/", i, j);
    }
  }

  lemma EncodedSiblings(area: string, ids: seq<string>, nodes: seq<string>, parts: seq<set<Quad>>)
    requires |nodes| == |parts| == |ids|
    requires forall i, j :: 0 <= i < j < |ids| ==> ids[i] != ids[j]
    requires forall i :: 0 <= i < |nodes| ==> nodes[i] == area + "/" + Encode(ids[i])
    requires forall i :: 0 <= i < |parts| ==> AllBelow(parts[i], nodes[i])
    ensures Siblings(area, nodes, parts)
  {
    forall i, j | 0 <= i < |nodes| && 0 <= j < |nodes| && i != j ensures Apart(nodes[i], nodes[j]) {
      EncodedApart(area + "/", ids[i], ids[j]);
    }
  }

  lemma {:induction false} ConstraintBelow(isIri: string -> bool, c: Constraint, node: string, index: nat)
    ensures AllBelow(ConstraintQuads(isIri, c, node, index), node)
    decreases c
  {
    if c.Logical? {
      ConstraintSiblings(isIri, c.children, node);
      UnderArea(node, "/constraints");
      LinkedBelow(node, node, Group(c.combinator), node + "/constraints",
                  ConstraintIris(node, |c.children|), ConstraintParts(isIri, c.children, node));
    }
  }

  lemma {:induction false} ConstraintSiblings(isIri: string -> bool, cs: seq<Constraint>, parent: string)
    ensures Siblings(parent + "/constraints", ConstraintIris(parent, |cs|), ConstraintParts(isIri, cs, parent))
    decreases cs
  {
    hide ConstraintQuads;
    assert parent + "/constraints/" == parent + "/constraints" + "/";
    forall i | 0 <= i < |cs| ensures AllBelow(ConstraintQuads(isIri, cs[i], ConstraintIri(parent, i), i), ConstraintIri(parent, i)) {
      ConstraintBelow(isIri, cs[i], ConstraintIri(parent, i), i);
    }
    NumberedSiblings(parent + "/constraints", ConstraintIris(parent, |cs|), ConstraintParts(isIri, cs, parent));
  }

  lemma RuleBelow(isIri: string -> bool, rule: Rule, node: string, index: nat)
    ensures AllBelow(RuleQuads(isIri, rule, node, index), node)
  {
    ConstraintSiblings(isIri, rule.constraints, node);
    UnderArea(node, "/constraints");
    LinkedBelow(node, node, ConstraintLink, node + "/constraints",
                ConstraintIris(node, |rule.constraints|), ConstraintParts(isIri, rule.constraints, node));
  }

  lemma RuleSiblings(isIri: string -> bool, rules: seq<Rule>, policy: string, segment: string)
    ensures Siblings(policy + "/" + segment, RuleIris(policy, segment, |rules|), RuleParts(isIri, rules, policy, segment))
  {
    hide RuleQuads;
    forall i | 0 <= i < |rules| ensures AllBelow(RuleQuads(isIri, rules[i], RuleIri(policy, segment, i), i), RuleIri(policy, segment, i)) {
      RuleBelow(isIri, rules[i], RuleIri(policy, segment, i), i);
    }
    NumberedSiblings(policy + "/" + segment, RuleIris(policy, segment, |rules|), RuleParts(isIri, rules, policy, segment));
  }

  lemma RuleListBelow(isIri: string -> bool, rules: seq<Rule>, policy: string, link: Vocab, segment: string)
    ensures AllBelow(RuleListQuads(isIri, rules, policy, link, segment), policy)
  {
    RuleSiblings(isIri, rules, policy, segment);
    LinkedBelow(policy, policy, link, policy + "/" + segment,
                RuleIris(policy, segment, |rules|), RuleParts(isIri, rules, policy, segment));
  }

  lemma PolicyBelow(isIri: string -> bool, policy: Policy, node: string, index: nat)
    ensures AllBelow(PolicyQuads(isIri, policy, node, index), node)
  {
    hide RuleListQuads;
    RuleListBelow(isIri, policy.permissions, node, Permission, "permissions");
    RuleListBelow(isIri, policy.prohibitions, node, Prohibition, "prohibitions");
    RuleListBelow(isIri, policy.obligations, node, Obligation, "obligations");
  }

  lemma PolicySiblings(isIri: string -> bool, policies: seq<Policy>, dataset: string)
    ensures Siblings(dataset + "/policies", PolicyIris(dataset, |policies|), PolicyParts(isIri, policies, dataset))
  {
    hide PolicyQuads;
    assert dataset + "/policies/" == dataset + "/policies" + "/";
    forall i | 0 <= i < |policies| ensures AllBelow(PolicyQuads(isIri, policies[i], PolicyIri(dataset, i), i), PolicyIri(dataset, i)) {
      PolicyBelow(isIri, policies[i], PolicyIri(dataset, i), i);
    }
    NumberedSiblings(dataset + "/policies", PolicyIris(dataset, |policies|), PolicyParts(isIri, policies, dataset));
  }

  lemma DistributionSiblings(base: string, ds: seq<Distribution>, dataset: string)
    ensures Siblings(dataset + "/distributions", DistributionIris(dataset, |ds|), DistributionParts(base, ds, dataset))
  {
    assert dataset + "/distributions/" == dataset + "/distributions" + "/";
    forall i | 0 <= i < |ds| ensures AllBelow(DistributionQuads(base, ds[i], DistributionIri(dataset, i), i), DistributionIri(dataset, i)) {
    }
    NumberedSiblings(dataset + "/distributions", DistributionIris(dataset, |ds|), DistributionParts(base, ds, dataset));
  }

  lemma DatasetBelow(isIri: string -> bool, base: string, d: Dataset, index: nat)
    ensures AllBelow(DatasetQuads(isIri, base, d, index), DatasetIri(base, d.id))
  {
    hide PropertyPredicate, Linked, DatasetIri, Siblings;
    var node := DatasetIri(base, d.id);
    DistributionSiblings(base, d.distributions, node);
    UnderArea(node, "/distributions");
    LinkedBelow(node, node, DistributionLink, node + "/distributions",
                DistributionIris(node, |d.distributions|), DistributionParts(base, d.distributions, node));
    PolicySiblings(isIri, d.policies, node);
    UnderArea(node, "/policies");
    LinkedBelow(node, node, HasPolicy, node + "/policies",
                PolicyIris(node, |d.policies|), PolicyParts(isIri, d.policies, node));
  }

  lemma ServiceBelow(isIri: string -> bool, base: string, s: DataService, index: nat)
    ensures AllBelow(ServiceQuads(isIri, base, s, index), ServiceIri(base, s.id))
  {
    hide IriOrLiteral;
  }

  lemma PropertiesAreLiterals(isIri: string -> bool, properties: map<string, string>, node: string)
    ensures forall q :: q in PropertyQuads(isIri, properties, node) ==> q.subject == Resource(node) && q.obj.Literal?
  {
    hide PropertyPredicate;
  }

  ghost predicate UniqueDatasets(ds: seq<Dataset>) {
    forall i, j :: 0 <= i < j < |ds| ==> ds[i].id != ds[j].id
  }

  ghost predicate UniqueServices(ss: seq<DataService>) {
    forall i, j :: 0 <= i < j < |ss| ==> ss[i].id != ss[j].id
  }

  lemma DatasetSiblings(isIri: string -> bool, base: string, ds: seq<Dataset>)
    requires UniqueDatasets(ds)
    ensures Siblings(base + "/datasets", DatasetIris(base, ds), DatasetParts(isIri, base, ds))
  {
    hide DatasetQuads;
    assert base + "/datasets/" == base + "/datasets" + "/";
    forall i | 0 <= i < |ds| ensures AllBelow(DatasetQuads(isIri, base, ds[i], i), DatasetIri(base, ds[i].id)) {
      DatasetBelow(isIri, base, ds[i], i);
    }
    var ids := seq(|ds|, i requires 0 <= i < |ds| => ds[i].id);
    EncodedSiblings(base + "/datasets", ids, DatasetIris(base, ds), DatasetParts(isIri, base, ds));
  }

  lemma ServiceSiblings(isIri: string -> bool, base: string, ss: seq<DataService>)
    requires UniqueServices(ss)
    ensures Siblings(base + "/services", ServiceIris(base, ss), ServiceParts(isIri, base, ss))
  {
    assert base + "/services/" == base + "/services" + "/";
    forall i | 0 <= i < |ss| ensures AllBelow(ServiceQuads(isIri, base, ss[i], i), ServiceIri(base, ss[i].id)) {
    }
    var ids := seq(|ss|, i requires 0 <= i < |ss| => ss[i].id);
    EncodedSiblings(base + "/services", ids, ServiceIris(base, ss), ServiceParts(isIri, base, ss));
  }
}
