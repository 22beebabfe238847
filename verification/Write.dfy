/** Writing a catalog into its named graph (`write.rs`). The functions say
    which quads belong to each part of a catalog; the methods fill the write
    buffer the way the store does. */
module Write {
  import opened Text
  import opened CatalogCore
  import opened Vocabulary

  function Q(node: string, v: Vocab, obj: RdfTerm): (q: Quad) {
    Quad(Resource(node), Term(v), obj)
  }

  function OptionalQuad(node: string, v: Vocab, value: Option<RdfTerm>): (qs: set<Quad>) {
    match value
    case None => {}
    case Some(obj) => {Q(node, v, obj)}
  }

  function OptionalText(value: Option<string>): (t: Option<RdfTerm>) {
    match value
    case None => None
    case Some(s) => Some(TextTerm(s))
  }

  function OptionalIriOrLiteral(isIri: string -> bool, value: Option<string>): (t: Option<RdfTerm>) {
    match value
    case None => None
    case Some(s) => Some(IriOrLiteral(isIri, s))
  }

  /** Resources below `parent`, each with the quad that links to it. Every
      list of the catalog is stored this way. */
  function Linked(parent: string, link: Vocab, nodes: seq<string>, parts: seq<set<Quad>>): (qs: set<Quad>) {
    (set i | 0 <= i < |nodes| :: Q(parent, link, Resource(nodes[i])))
    + (set i, q | 0 <= i < |parts| && q in parts[i] :: q)
  }

  lemma LinkedAppend(parent: string, link: Vocab, nodes: seq<string>, parts: seq<set<Quad>>, node: string, part: set<Quad>)
    ensures Linked(parent, link, nodes + [node], parts + [part]) ==
            Linked(parent, link, nodes, parts) + ({Q(parent, link, Resource(node))} + part)
  {
    var longer, all := nodes + [node], parts + [part];
    assert longer[|nodes|] == node && all[|parts|] == part;
    assert forall i :: 0 <= i < |nodes| ==> longer[i] == nodes[i];
    assert forall i :: 0 <= i < |parts| ==> all[i] == parts[i];
  }

  // ----- The quads of each part -----

  function ConstraintQuads(isIri: string -> bool, c: Constraint, node: string, index: nat): (qs: set<Quad>)
    decreases c
  {
    match c
    case Atomic(left, operator, right) =>
      { Q(node, SequenceIndex, IndexTerm(index)),
        Q(node, LeftOperand, IriOrLiteral(isIri, left)),
        Q(node, Operator, IriOrLiteral(isIri, operator)),
        Q(node, RightOperand, TextTerm(right)) }
    case Logical(combinator, children) =>
      { Q(node, SequenceIndex, IndexTerm(index)),
        Q(node, LogicalOperator, NamedNode(Term(Group(combinator)))) }
      + ConstraintListQuads(isIri, children, node, Group(combinator))
  }

  /** The constraints below `parent`, each with the link that leads to it. */
  function ConstraintListQuads(isIri: string -> bool, cs: seq<Constraint>, parent: string, link: Vocab): (qs: set<Quad>)
    decreases cs
  {
    Linked(parent, link, ConstraintIris(parent, |cs|), ConstraintParts(isIri, cs, parent))
  }

  function ConstraintIris(parent: string, count: nat): (nodes: seq<string>) {
    seq(count, i requires 0 <= i < count => ConstraintIri(parent, i))
  }

  function ConstraintParts(isIri: string -> bool, cs: seq<Constraint>, parent: string): (parts: seq<set<Quad>>)
    decreases cs, 0
  {
    seq(|cs|, i requires 0 <= i < |cs| => ConstraintQuads(isIri, cs[i], ConstraintIri(parent, i), i))
  }

  function RuleQuads(isIri: string -> bool, rule: Rule, node: string, index: nat): (qs: set<Quad>) {
    { Q(node, SequenceIndex, IndexTerm(index)),
      Q(node, Action, IriOrLiteral(isIri, rule.action)) }
    + ConstraintListQuads(isIri, rule.constraints, node, ConstraintLink)
  }

  function RuleListQuads(isIri: string -> bool, rules: seq<Rule>, policy: string, link: Vocab, segment: string): (qs: set<Quad>) {
    Linked(policy, link, RuleIris(policy, segment, |rules|), RuleParts(isIri, rules, policy, segment))
  }

  function RuleIris(policy: string, segment: string, count: nat): (nodes: seq<string>) {
    seq(count, i requires 0 <= i < count => RuleIri(policy, segment, i))
  }

  function RuleParts(isIri: string -> bool, rules: seq<Rule>, policy: string, segment: string): (parts: seq<set<Quad>>) {
    seq(|rules|, i requires 0 <= i < |rules| => RuleQuads(isIri, rules[i], RuleIri(policy, segment, i), i))
  }

  function PolicyOwnQuads(isIri: string -> bool, policy: Policy, node: string, index: nat): (qs: set<Quad>) {
    { Q(node, RdfType, NamedNode(Term(PolicyClass(policy.kind)))),
      Q(node, SequenceIndex, IndexTerm(index)) }
    + OptionalQuad(node, PolicyId, OptionalText(policy.id))
    + OptionalQuad(node, Assigner, OptionalIriOrLiteral(isIri, policy.assigner))
    + OptionalQuad(node, Assignee, OptionalIriOrLiteral(isIri, policy.assignee))
  }

  function PolicyQuads(isIri: string -> bool, policy: Policy, node: string, index: nat): (qs: set<Quad>) {
    PolicyOwnQuads(isIri, policy, node, index)
    + RuleListQuads(isIri, policy.permissions, node, Permission, "permissions")
    + RuleListQuads(isIri, policy.prohibitions, node, Prohibition, "prohibitions")
    + RuleListQuads(isIri, policy.obligations, node, Obligation, "obligations")
  }

  function PolicyListQuads(isIri: string -> bool, policies: seq<Policy>, dataset: string): (qs: set<Quad>) {
    Linked(dataset, HasPolicy, PolicyIris(dataset, |policies|), PolicyParts(isIri, policies, dataset))
  }

  function PolicyIris(dataset: string, count: nat): (nodes: seq<string>) {
    seq(count, i requires 0 <= i < count => PolicyIri(dataset, i))
  }

  function PolicyParts(isIri: string -> bool, policies: seq<Policy>, dataset: string): (parts: seq<set<Quad>>) {
    seq(|policies|, i requires 0 <= i < |policies| => PolicyQuads(isIri, policies[i], PolicyIri(dataset, i), i))
  }

  function DistributionQuads(base: string, d: Distribution, node: string, index: nat): (qs: set<Quad>) {
    { Q(node, RdfType, NamedNode(Term(DistributionClass))),
      Q(node, SequenceIndex, IndexTerm(index)),
      Q(node, Format, TextTerm(d.format)),
      Q(node, AccessService, Resource(ServiceIri(base, d.accessService))) }
  }

  function DistributionListQuads(base: string, ds: seq<Distribution>, dataset: string): (qs: set<Quad>) {
    Linked(dataset, DistributionLink, DistributionIris(dataset, |ds|), DistributionParts(base, ds, dataset))
  }

  function DistributionIris(dataset: string, count: nat): (nodes: seq<string>) {
    seq(count, i requires 0 <= i < count => DistributionIri(dataset, i))
  }

  function DistributionParts(base: string, ds: seq<Distribution>, dataset: string): (parts: seq<set<Quad>>) {
    seq(|ds|, i requires 0 <= i < |ds| => DistributionQuads(base, ds[i], DistributionIri(dataset, i), i))
  }

  function PropertyQuad(isIri: string -> bool, node: string, key: string, value: string): (q: Quad) {
    Quad(Resource(node), PropertyPredicate(isIri, key), TextTerm(value))
  }

  function PropertyQuads(isIri: string -> bool, properties: map<string, string>, node: string): (qs: set<Quad>) {
    set key | key in properties :: PropertyQuad(isIri, node, key, properties[key])
  }

  function DatasetQuads(isIri: string -> bool, base: string, d: Dataset, index: nat): (qs: set<Quad>) {
    var node := DatasetIri(base, d.id);
    { Q(node, RdfType, NamedNode(Term(DatasetClass))),
      Q(node, SequenceIndex, IndexTerm(index)) }
    + PropertyQuads(isIri, d.properties, node)
    + DistributionListQuads(base, d.distributions, node)
    + PolicyListQuads(isIri, d.policies, node)
  }

  function DatasetListQuads(isIri: string -> bool, base: string, ds: seq<Dataset>, catalog: string): (qs: set<Quad>) {
    Linked(catalog, DatasetLink, DatasetIris(base, ds), DatasetParts(isIri, base, ds))
  }

  function DatasetIris(base: string, ds: seq<Dataset>): (nodes: seq<string>) {
    seq(|ds|, i requires 0 <= i < |ds| => DatasetIri(base, ds[i].id))
  }

  function DatasetParts(isIri: string -> bool, base: string, ds: seq<Dataset>): (parts: seq<set<Quad>>) {
    seq(|ds|, i requires 0 <= i < |ds| => DatasetQuads(isIri, base, ds[i], i))
  }

  function ServiceQuads(isIri: string -> bool, base: string, s: DataService, index: nat): (qs: set<Quad>) {
    var node := ServiceIri(base, s.id);
    { Q(node, RdfType, NamedNode(Term(DataServiceClass))),
      Q(node, SequenceIndex, IndexTerm(index)),
      Q(node, EndpointUrl, IriOrLiteral(isIri, s.endpointUrl)) }
    + OptionalQuad(node, EndpointDescription, OptionalText(s.endpointDescription))
  }

  function ServiceListQuads(isIri: string -> bool, base: string, ss: seq<DataService>, catalog: string): (qs: set<Quad>) {
    Linked(catalog, ServiceLink, ServiceIris(base, ss), ServiceParts(isIri, base, ss))
  }

  function ServiceIris(base: string, ss: seq<DataService>): (nodes: seq<string>) {
    seq(|ss|, i requires 0 <= i < |ss| => ServiceIri(base, ss[i].id))
  }

  function ServiceParts(isIri: string -> bool, base: string, ss: seq<DataService>): (parts: seq<set<Quad>>) {
    seq(|ss|, i requires 0 <= i < |ss| => ServiceQuads(isIri, base, ss[i], i))
  }

  function CatalogOwnQuads(isIri: string -> bool, c: Catalog, node: string): (qs: set<Quad>) {
    {Q(node, RdfType, NamedNode(Term(CatalogClass)))}
    + OptionalQuad(node, ParticipantId, OptionalText(c.participantId))
    + PropertyQuads(isIri, c.properties, node)
  }

  /** Every quad `c` is decomposed into. */
  function CatalogQuads(isIri: string -> bool, c: Catalog): (qs: set<Quad>) {
    var base := NodeBase(c.originNode);
    var node := CatalogIri(base, c.id);
    CatalogOwnQuads(isIri, c, node)
    + DatasetListQuads(isIri, base, c.datasets, node)
    + ServiceListQuads(isIri, base, c.dataServices, node)
  }

  // ----- Filling the buffer -----

  /** The quads of a catalog being written, before any reaches the store. */
  class GraphWrite {
    const name: string
    var quads: seq<Quad>

    constructor (name: string)
      ensures this.name == name && quads == [] && Elements() == {}
    {
      this.name := name;
      quads := [];
    }

    function Elements(): (qs: set<Quad>)
      reads this
    {
      set q | q in quads
    }

    method Insert(subject: string, pred: Iri, obj: RdfTerm)
      modifies this
      ensures quads == old(quads) + [Quad(Resource(subject), pred, obj)]
      ensures Elements() == old(Elements()) + {Quad(Resource(subject), pred, obj)}
    {
      quads := quads + [Quad(Resource(subject), pred, obj)];
    }

    method InsertOptional(subject: string, v: Vocab, obj: Option<RdfTerm>)
      modifies this
      ensures Elements() == old(Elements()) + OptionalQuad(subject, v, obj)
    {
      if obj.Some? {
        Insert(subject, Term(v), obj.value);
      }
    }

    method WriteConstraint(isIri: string -> bool, c: Constraint, node: string, index: nat, depth: nat)
      returns (ok: bool)
      modifies this
      ensures ok == Fits(c, depth)
      ensures ok ==> Elements() == old(Elements()) + ConstraintQuads(isIri, c, node, index)
      decreases c
    {
      hide ConstraintListQuads;
      if depth > MAX_CONSTRAINT_DEPTH {
        return false;
      }
      Insert(node, Term(SequenceIndex), IndexTerm(index));
      match c {
        case Atomic(left, operator, right) =>
          Insert(node, Term(LeftOperand), IriOrLiteral(isIri, left));
          Insert(node, Term(Operator), IriOrLiteral(isIri, operator));
          Insert(node, Term(RightOperand), TextTerm(right));
          ok := true;
        case Logical(combinator, children) =>
          Insert(node, Term(LogicalOperator), NamedNode(Term(Group(combinator))));
          ok := WriteConstraints(isIri, children, node, Group(combinator), depth + 1);
      }
    }

    /** The constraints below `parent`: a rule's own, or the children of a group. */
    method WriteConstraints(isIri: string -> bool, cs: seq<Constraint>, parent: string, link: Vocab, depth: nat)
      returns (ok: bool)
      modifies this
      ensures ok == forall c :: c in cs ==> Fits(c, depth)
      ensures ok ==> Elements() == old(Elements()) + ConstraintListQuads(isIri, cs, parent, link)
      decreases cs
    {
      hide ConstraintQuads, ConstraintListQuads, Fits;
      EmptyLists(isIri, "", parent, link, "");
      for i := 0 to |cs|
        invariant forall c :: c in cs[..i] ==> Fits(c, depth)
        invariant Elements() == old(Elements()) + ConstraintListQuads(isIri, cs[..i], parent, link)
      {
        var child := ConstraintIri(parent, i);
        Insert(parent, Term(link), Resource(child));
        var written := WriteConstraint(isIri, cs[i], child, i, depth);
        if !written {
          return false;
        }
        ConstraintListExtended(isIri, cs, parent, link, i);
      }
      assert cs[..|cs|] == cs;
      ok := true;
    }

    method WriteRule(isIri: string -> bool, rule: Rule, node: string, index: nat) returns (ok: bool)
      modifies this
      ensures ok == RuleFits(rule)
      ensures ok ==> Elements() == old(Elements()) + RuleQuads(isIri, rule, node, index)
    {
      hide ConstraintListQuads, Fits;
      Insert(node, Term(SequenceIndex), IndexTerm(index));
      Insert(node, Term(Action), IriOrLiteral(isIri, rule.action));
      // A rule's own constraints are at depth 0.
      ok := WriteConstraints(isIri, rule.constraints, node, ConstraintLink, 0);
    }

    method WriteRules(isIri: string -> bool, rules: seq<Rule>, policy: string, link: Vocab, segment: string)
      returns (ok: bool)
      modifies this
      ensures ok == RulesFit(rules)
      ensures ok ==> Elements() == old(Elements()) + RuleListQuads(isIri, rules, policy, link, segment)
    {
      hide RuleQuads, RuleListQuads;
      EmptyLists(isIri, "", policy, link, segment);
      for i := 0 to |rules|
        invariant RulesFit(rules[..i])
        invariant Elements() == old(Elements()) + RuleListQuads(isIri, rules[..i], policy, link, segment)
      {
        var node := RuleIri(policy, segment, i);
        Insert(policy, Term(link), Resource(node));
        var written := WriteRule(isIri, rules[i], node, i);
        if !written {
          return false;
        }
        RuleListExtended(isIri, rules, policy, link, segment, i);
      }
      assert rules[..|rules|] == rules;
      ok := true;
    }

    method WritePolicy(isIri: string -> bool, policy: Policy, node: string, index: nat) returns (ok: bool)
      modifies this
      ensures ok == PolicyFits(policy)
      ensures ok ==> Elements() == old(Elements()) + PolicyQuads(isIri, policy, node, index)
    {
      hide RuleListQuads, PolicyFits, OptionalQuad, OptionalText, OptionalIriOrLiteral;
      Insert(node, Term(RdfType), NamedNode(Term(PolicyClass(policy.kind))));
      Insert(node, Term(SequenceIndex), IndexTerm(index));
      InsertOptional(node, PolicyId, OptionalText(policy.id));
      InsertOptional(node, Assigner, OptionalIriOrLiteral(isIri, policy.assigner));
      InsertOptional(node, Assignee, OptionalIriOrLiteral(isIri, policy.assignee));
      ok := WritePolicyRules(isIri, policy, node);
    }

    method WritePolicyRules(isIri: string -> bool, policy: Policy, node: string) returns (ok: bool)
      modifies this
      ensures ok == PolicyFits(policy)
      ensures ok ==>
                Elements() == old(Elements())
                              + RuleListQuads(isIri, policy.permissions, node, Permission, "permissions")
                              + RuleListQuads(isIri, policy.prohibitions, node, Prohibition, "prohibitions")
                              + RuleListQuads(isIri, policy.obligations, node, Obligation, "obligations")
    {
      hide RuleListQuads, RulesFit, Elements;
      ok := WriteRules(isIri, policy.permissions, node, Permission, "permissions");
      if ok {
        ok := WriteRules(isIri, policy.prohibitions, node, Prohibition, "prohibitions");
      }
      if ok {
        ok := WriteRules(isIri, policy.obligations, node, Obligation, "obligations");
      }
    }

    method WriteProperties(isIri: string -> bool, properties: map<string, string>, node: string)
      modifies this
      ensures Elements() == old(Elements()) + PropertyQuads(isIri, properties, node)
    {
      var rest := properties.Keys;
      while rest != {}
        invariant rest <= properties.Keys
        invariant Elements() == old(Elements()) +
                                set key | key in properties && key !in rest :: PropertyQuad(isIri, node, key, properties[key])
        decreases rest
      {
        var key :| key in rest;
        Insert(node, PropertyPredicate(isIri, key), TextTerm(properties[key]));
        rest := rest - {key};
      }
    }

    method WriteDistributions(base: string, ds: seq<Distribution>, dataset: string)
      modifies this
      ensures Elements() == old(Elements()) + DistributionListQuads(base, ds, dataset)
    {
      hide DistributionQuads, DistributionListQuads;
      EmptyLists(s => false, base, dataset, DistributionLink, "");
      for i := 0 to |ds|
        invariant Elements() == old(Elements()) + DistributionListQuads(base, ds[..i], dataset)
      {
        var node := DistributionIri(dataset, i);
        Insert(dataset, Term(DistributionLink), Resource(node));
        WriteDistribution(base, ds[i], node, i);
        DistributionListExtended(base, ds, dataset, i);
      }
      assert ds[..|ds|] == ds;
    }

    method WriteDistribution(base: string, d: Distribution, node: string, index: nat)
      modifies this
      ensures Elements() == old(Elements()) + DistributionQuads(base, d, node, index)
    {
      Insert(node, Term(RdfType), NamedNode(Term(DistributionClass)));
      Insert(node, Term(SequenceIndex), IndexTerm(index));
      Insert(node, Term(Format), TextTerm(d.format));
      Insert(node, Term(AccessService), Resource(ServiceIri(base, d.accessService)));
    }

    method WritePolicies(isIri: string -> bool, policies: seq<Policy>, dataset: string) returns (ok: bool)
      modifies this
      ensures ok == forall policy :: policy in policies ==> PolicyFits(policy)
      ensures ok ==> Elements() == old(Elements()) + PolicyListQuads(isIri, policies, dataset)
    {
      hide PolicyQuads, PolicyListQuads, PolicyFits;
      EmptyLists(isIri, "", dataset, HasPolicy, "");
      for i := 0 to |policies|
        invariant forall policy :: policy in policies[..i] ==> PolicyFits(policy)
        invariant Elements() == old(Elements()) + PolicyListQuads(isIri, policies[..i], dataset)
      {
        var node := PolicyIri(dataset, i);
        Insert(dataset, Term(HasPolicy), Resource(node));
        var written := WritePolicy(isIri, policies[i], node, i);
        if !written {
          return false;
        }
        PolicyListExtended(isIri, policies, dataset, i);
      }
      assert policies[..|policies|] == policies;
      ok := true;
    }

    method WriteDataset(isIri: string -> bool, base: string, d: Dataset, catalog: string, index: nat) returns (ok: bool)
      modifies this
      ensures ok == DatasetFits(d)
      ensures ok ==>
                Elements() == old(Elements()) + ({Q(catalog, DatasetLink, Resource(DatasetIri(base, d.id)))}
                                                 + DatasetQuads(isIri, base, d, index))
    {
      hide PolicyListQuads, DistributionListQuads, PropertyQuads, PolicyFits, DatasetIri;
      var node := DatasetIri(base, d.id);
      Insert(catalog, Term(DatasetLink), Resource(node));
      Insert(node, Term(RdfType), NamedNode(Term(DatasetClass)));
      Insert(node, Term(SequenceIndex), IndexTerm(index));
      WriteProperties(isIri, d.properties, node);
      WriteDistributions(base, d.distributions, node);
      ok := WritePolicies(isIri, d.policies, node);
    }

    method WriteDatasets(isIri: string -> bool, base: string, ds: seq<Dataset>, catalog: string) returns (ok: bool)
      modifies this
      ensures ok == forall d :: d in ds ==> DatasetFits(d)
      ensures ok ==> Elements() == old(Elements()) + DatasetListQuads(isIri, base, ds, catalog)
    {
      hide DatasetQuads, DatasetListQuads, DatasetFits;
      EmptyLists(isIri, base, catalog, DatasetLink, "");
      for i := 0 to |ds|
        invariant forall d :: d in ds[..i] ==> DatasetFits(d)
        invariant Elements() == old(Elements()) + DatasetListQuads(isIri, base, ds[..i], catalog)
      {
        var written := WriteDataset(isIri, base, ds[i], catalog, i);
        if !written {
          return false;
        }
        DatasetListExtended(isIri, base, ds, catalog, i);
      }
      assert ds[..|ds|] == ds;
      ok := true;
    }

    method WriteServices(isIri: string -> bool, base: string, ss: seq<DataService>, catalog: string)
      modifies this
      ensures Elements() == old(Elements()) + ServiceListQuads(isIri, base, ss, catalog)
    {
      hide ServiceQuads, ServiceListQuads;
      EmptyLists(isIri, base, catalog, ServiceLink, "");
      for i := 0 to |ss|
        invariant Elements() == old(Elements()) + ServiceListQuads(isIri, base, ss[..i], catalog)
      {
        WriteService(isIri, base, ss[i], catalog, i);
        ServiceListExtended(isIri, base, ss, catalog, i);
      }
      assert ss[..|ss|] == ss;
    }

    /** Refuses the whole catalog when any constraint nests too deep. */
    method WriteCatalog(isIri: string -> bool, c: Catalog) returns (ok: bool)
      modifies this
      ensures ok == CatalogFits(c)
      ensures ok ==> Elements() == old(Elements()) + CatalogQuads(isIri, c)
    {
      hide DatasetListQuads, ServiceListQuads, PropertyQuads, DatasetFits;
      var base := NodeBase(c.originNode);
      var node := CatalogIri(base, c.id);
      Insert(node, Term(RdfType), NamedNode(Term(CatalogClass)));
      InsertOptional(node, ParticipantId, OptionalText(c.participantId));
      WriteProperties(isIri, c.properties, node);
      ok := WriteDatasets(isIri, base, c.datasets, node);
      if ok {
        WriteServices(isIri, base, c.dataServices, node);
      }
    }

    method WriteService(isIri: string -> bool, base: string, s: DataService, catalog: string, index: nat)
      modifies this
      ensures Elements() == old(Elements()) + ({Q(catalog, ServiceLink, Resource(ServiceIri(base, s.id)))}
                                               + ServiceQuads(isIri, base, s, index))
    {
      var node := ServiceIri(base, s.id);
      Insert(catalog, Term(ServiceLink), Resource(node));
      Insert(node, Term(RdfType), NamedNode(Term(DataServiceClass)));
      Insert(node, Term(SequenceIndex), IndexTerm(index));
      Insert(node, Term(EndpointUrl), IriOrLiteral(isIri, s.endpointUrl));
      InsertOptional(node, EndpointDescription, OptionalText(s.endpointDescription));
    }
  }

  // ----- No entry, and one more entry, of each list -----

  lemma EmptyLists(isIri: string -> bool, base: string, parent: string, link: Vocab, segment: string)
    ensures ConstraintListQuads(isIri, [], parent, link) == {}
    ensures RuleListQuads(isIri, [], parent, link, segment) == {}
    ensures PolicyListQuads(isIri, [], parent) == {}
    ensures DistributionListQuads(base, [], parent) == {}
    ensures DatasetListQuads(isIri, base, [], parent) == {}
    ensures ServiceListQuads(isIri, base, [], parent) == {}
  {
  }

  lemma ConstraintListExtended(isIri: string -> bool, cs: seq<Constraint>, parent: string, link: Vocab, i: nat)
    requires i < |cs|
    ensures ConstraintListQuads(isIri, cs[..i + 1], parent, link) ==
            ConstraintListQuads(isIri, cs[..i], parent, link)
            + ({Q(parent, link, Resource(ConstraintIri(parent, i)))}
               + ConstraintQuads(isIri, cs[i], ConstraintIri(parent, i), i))
  {
    hide ConstraintQuads;
    var nodes, parts := ConstraintIris(parent, i), ConstraintParts(isIri, cs[..i], parent);
    var node, part := ConstraintIri(parent, i), ConstraintQuads(isIri, cs[i], ConstraintIri(parent, i), i);
    assert ConstraintIris(parent, i + 1) == nodes + [node];
    assert ConstraintParts(isIri, cs[..i + 1], parent) == parts + [part];
    LinkedAppend(parent, link, nodes, parts, node, part);
  }

  lemma RuleListExtended(isIri: string -> bool, rules: seq<Rule>, policy: string, link: Vocab, segment: string, i: nat)
    requires i < |rules|
    ensures RuleListQuads(isIri, rules[..i + 1], policy, link, segment) ==
            RuleListQuads(isIri, rules[..i], policy, link, segment)
            + ({Q(policy, link, Resource(RuleIri(policy, segment, i)))}
               + RuleQuads(isIri, rules[i], RuleIri(policy, segment, i), i))
  {
    hide RuleQuads;
    var nodes, parts := RuleIris(policy, segment, i), RuleParts(isIri, rules[..i], policy, segment);
    var node, part := RuleIri(policy, segment, i), RuleQuads(isIri, rules[i], RuleIri(policy, segment, i), i);
    assert RuleIris(policy, segment, i + 1) == nodes + [node];
    assert RuleParts(isIri, rules[..i + 1], policy, segment) == parts + [part];
    LinkedAppend(policy, link, nodes, parts, node, part);
  }

  lemma PolicyListExtended(isIri: string -> bool, policies: seq<Policy>, dataset: string, i: nat)
    requires i < |policies|
    ensures PolicyListQuads(isIri, policies[..i + 1], dataset) ==
            PolicyListQuads(isIri, policies[..i], dataset)
            + ({Q(dataset, HasPolicy, Resource(PolicyIri(dataset, i)))}
               + PolicyQuads(isIri, policies[i], PolicyIri(dataset, i), i))
  {
    hide PolicyQuads;
    var nodes, parts := PolicyIris(dataset, i), PolicyParts(isIri, policies[..i], dataset);
    var node, part := PolicyIri(dataset, i), PolicyQuads(isIri, policies[i], PolicyIri(dataset, i), i);
    assert PolicyIris(dataset, i + 1) == nodes + [node];
    assert PolicyParts(isIri, policies[..i + 1], dataset) == parts + [part];
    LinkedAppend(dataset, HasPolicy, nodes, parts, node, part);
  }

  lemma DistributionListExtended(base: string, ds: seq<Distribution>, dataset: string, i: nat)
    requires i < |ds|
    ensures DistributionListQuads(base, ds[..i + 1], dataset) ==
            DistributionListQuads(base, ds[..i], dataset)
            + ({Q(dataset, DistributionLink, Resource(DistributionIri(dataset, i)))}
               + DistributionQuads(base, ds[i], DistributionIri(dataset, i), i))
  {
    hide DistributionQuads;
    var nodes, parts := DistributionIris(dataset, i), DistributionParts(base, ds[..i], dataset);
    var node, part := DistributionIri(dataset, i), DistributionQuads(base, ds[i], DistributionIri(dataset, i), i);
    assert DistributionIris(dataset, i + 1) == nodes + [node];
    assert DistributionParts(base, ds[..i + 1], dataset) == parts + [part];
    LinkedAppend(dataset, DistributionLink, nodes, parts, node, part);
  }

  lemma DatasetListExtended(isIri: string -> bool, base: string, ds: seq<Dataset>, catalog: string, i: nat)
    requires i < |ds|
    ensures DatasetListQuads(isIri, base, ds[..i + 1], catalog) ==
            DatasetListQuads(isIri, base, ds[..i], catalog)
            + ({Q(catalog, DatasetLink, Resource(DatasetIri(base, ds[i].id)))}
               + DatasetQuads(isIri, base, ds[i], i))
  {
    hide DatasetQuads;
    var nodes, parts := DatasetIris(base, ds[..i]), DatasetParts(isIri, base, ds[..i]);
    var node, part := DatasetIri(base, ds[i].id), DatasetQuads(isIri, base, ds[i], i);
    assert DatasetIris(base, ds[..i + 1]) == nodes + [node];
    assert DatasetParts(isIri, base, ds[..i + 1]) == parts + [part];
    LinkedAppend(catalog, DatasetLink, nodes, parts, node, part);
  }

  lemma ServiceListExtended(isIri: string -> bool, base: string, ss: seq<DataService>, catalog: string, i: nat)
    requires i < |ss|
    ensures ServiceListQuads(isIri, base, ss[..i + 1], catalog) ==
            ServiceListQuads(isIri, base, ss[..i], catalog)
            + ({Q(catalog, ServiceLink, Resource(ServiceIri(base, ss[i].id)))}
               + ServiceQuads(isIri, base, ss[i], i))
  {
    hide ServiceQuads;
    var nodes, parts := ServiceIris(base, ss[..i]), ServiceParts(isIri, base, ss[..i]);
    var node, part := ServiceIri(base, ss[i].id), ServiceQuads(isIri, base, ss[i], i);
    assert ServiceIris(base, ss[..i + 1]) == nodes + [node];
    assert ServiceParts(isIri, base, ss[..i + 1]) == parts + [part];
    LinkedAppend(catalog, ServiceLink, nodes, parts, node, part);
  }
}
