/** What a stored catalog says in RDF (the module documentation of
    `oxigraph_backend/mod.rs`): every statement about each resource, by the IRI
    of its predicate, and no others. */
module Statements {
  import opened Text
  import opened CatalogCore
  import opened Vocabulary
  import opened Write
  import opened Subtrees
  import opened Visibility

  // ----- No two terms share a spelling -----

  datatype Namespace = Rdf | Dcat | Dct | Internal | Odrl

  function Prefix(ns: Namespace): (s: string) {
    match ns
    case Rdf => RDF_TYPE_IRI
    case Dcat => DCAT_NS
    case Dct => DCT_NS
    case Internal => INTERNAL_NS
    case Odrl => ODRL_NS
  }

  function NamespaceOf(v: Vocab): (ns: Namespace) {
    match v
    case RdfType => Rdf
    case Format => Dct
    case ParticipantId | SequenceIndex | LogicalOperator | PolicyId => Internal
    case CatalogClass | DatasetClass | DistributionClass | DataServiceClass | DatasetLink | ServiceLink | DistributionLink
      | AccessService | EndpointUrl | EndpointDescription => Dcat
    case _ => Odrl
  }

  function Local(v: Vocab): (s: string) {
    match v
    case RdfType => ""
    case CatalogClass => "Catalog"
    case DatasetClass => "Dataset"
    case DistributionClass => "Distribution"
    case DataServiceClass => "DataService"
    case DatasetLink => "dataset"
    case ServiceLink => "service"
    case DistributionLink => "distribution"
    case AccessService => "accessService"
    case EndpointUrl => "endpointURL"
    case EndpointDescription => "endpointDescription"
    case Format => "format"
    case ParticipantId => "participantId"
    case SequenceIndex => "sequenceIndex"
    case LogicalOperator => "logicalOperator"
    case PolicyId => "policyId"
    case HasPolicy => "hasPolicy"
    case Permission => "permission"
    case Prohibition => "prohibition"
    case Obligation => "obligation"
    case Action => "action"
    case ConstraintLink => "constraint"
    case LeftOperand => "leftOperand"
    case Operator => "operator"
    case RightOperand => "rightOperand"
    case Assigner => "assigner"
    case Assignee => "assignee"
    case Group(And) => "and"
    case Group(Or) => "or"
    case Group(Xone) => "xone"
    case Group(AndSequence) => "andSequence"
    case PolicyClass(Set) => "Set"
    case PolicyClass(Offer) => "Offer"
    case PolicyClass(Agreement) => "Agreement"
  }

  lemma SpellingParts(v: Vocab)
    ensures Prefix(NamespaceOf(v)) <= Spelling(v) && Spelling(v) == Prefix(NamespaceOf(v)) + Local(v)
  {
    hide RDF_TYPE_IRI, DCAT_NS, DCT_NS, ODRL_NS, INTERNAL_NS;
    assert RDF_TYPE_IRI + "" == RDF_TYPE_IRI;
  }

  lemma NamespacesApart(s: string, a: Namespace, b: Namespace)
    requires Prefix(a) <= s && Prefix(b) <= s
    ensures a == b
  {
    assert RDF_TYPE_IRI[4] == ':' && DCAT_NS[4] == ':' && DCT_NS[4] == ':' && ODRL_NS[4] == ':' && INTERNAL_NS[4] == 's';
    assert RDF_TYPE_IRI[7] == 'w' && DCAT_NS[7] == 'w' && DCT_NS[7] == 'p' && ODRL_NS[7] == 'w';
    assert RDF_TYPE_IRI[18] == '1' && DCAT_NS[18] == 'n' && ODRL_NS[18] == 'n';
    assert DCAT_NS[21] == 'd' && ODRL_NS[21] == 'o';
    hide RDF_TYPE_IRI, DCAT_NS, DCT_NS, ODRL_NS, INTERNAL_NS;
  }

  /** Length, first and last character of a local name. */
  datatype Mark = Mark(length: nat, first: char, last: char)

  function MarkOf(v: Vocab): (m: Mark) {
    match v
    case RdfType => Mark(0, ' ', ' ')
    case CatalogClass => Mark(7, 'C', 'g')
    case DatasetClass => Mark(7, 'D', 't')
    case DistributionClass => Mark(12, 'D', 'n')
    case DataServiceClass => Mark(11, 'D', 'e')
    case DatasetLink => Mark(7, 'd', 't')
    case ServiceLink => Mark(7, 's', 'e')
    case DistributionLink => Mark(12, 'd', 'n')
    case AccessService => Mark(13, 'a', 'e')
    case EndpointUrl => Mark(11, 'e', 'L')
    case EndpointDescription => Mark(19, 'e', 'n')
    case Format => Mark(6, 'f', 't')
    case ParticipantId => Mark(13, 'p', 'd')
    case SequenceIndex => Mark(13, 's', 'x')
    case LogicalOperator => Mark(15, 'l', 'r')
    case PolicyId => Mark(8, 'p', 'd')
    case HasPolicy => Mark(9, 'h', 'y')
    case Permission => Mark(10, 'p', 'n')
    case Prohibition => Mark(11, 'p', 'n')
    case Obligation => Mark(10, 'o', 'n')
    case Action => Mark(6, 'a', 'n')
    case ConstraintLink => Mark(10, 'c', 't')
    case LeftOperand => Mark(11, 'l', 'd')
    case Operator => Mark(8, 'o', 'r')
    case RightOperand => Mark(12, 'r', 'd')
    case Assigner => Mark(8, 'a', 'r')
    case Assignee => Mark(8, 'a', 'e')
    case Group(And) => Mark(3, 'a', 'd')
    case Group(Or) => Mark(2, 'o', 'r')
    case Group(Xone) => Mark(4, 'x', 'e')
    case Group(AndSequence) => Mark(11, 'a', 'e')
    case PolicyClass(Set) => Mark(3, 'S', 't')
    case PolicyClass(Offer) => Mark(5, 'O', 'r')
    case PolicyClass(Agreement) => Mark(9, 'A', 't')
  }

  predicate HasMark(s: string, m: Mark) {
    |s| == m.length && (s != "" ==> s[0] == m.first && s[|s| - 1] == m.last)
  }

  lemma LocalHasMark(v: Vocab)
    ensures HasMark(Local(v), MarkOf(v))
  {
    hide RDF_TYPE_IRI, DCAT_NS, DCT_NS, ODRL_NS, INTERNAL_NS;
  }

  lemma MarksDiffer(v: Vocab, w: Vocab)
    requires NamespaceOf(v) == NamespaceOf(w) && MarkOf(v).length == MarkOf(w).length
    requires MarkOf(v).length > 0 ==> MarkOf(v).first == MarkOf(w).first && MarkOf(v).last == MarkOf(w).last
    ensures v == w
  {
  }

  lemma SpellingsDiffer(v: Vocab, w: Vocab)
    requires Spelling(v) == Spelling(w)
    ensures v == w
  {
    SpellingParts(v);
    SpellingParts(w);
    LocalHasMark(v);
    LocalHasMark(w);
    hide Spelling, Local, MarkOf, Prefix;
    NamespacesApart(Spelling(v), NamespaceOf(v), NamespaceOf(w));
    var prefix := Prefix(NamespaceOf(v));
    assert Local(v) == Spelling(v)[|prefix|..] == Local(w);
    MarksDiffer(v, w);
  }

  lemma InVocabulary(v: Vocab)
    ensures v in VOCABULARY
  {
    match v {
      case RdfType => assert VOCABULARY[0] == RdfType;
      case CatalogClass => assert VOCABULARY[1] == CatalogClass;
      case DatasetClass => assert VOCABULARY[2] == DatasetClass;
      case DistributionClass => assert VOCABULARY[3] == DistributionClass;
      case DataServiceClass => assert VOCABULARY[4] == DataServiceClass;
      case DatasetLink => assert VOCABULARY[5] == DatasetLink;
      case ServiceLink => assert VOCABULARY[6] == ServiceLink;
      case DistributionLink => assert VOCABULARY[7] == DistributionLink;
      case AccessService => assert VOCABULARY[8] == AccessService;
      case EndpointUrl => assert VOCABULARY[9] == EndpointUrl;
      case EndpointDescription => assert VOCABULARY[10] == EndpointDescription;
      case Format => assert VOCABULARY[11] == Format;
      case ParticipantId => assert VOCABULARY[12] == ParticipantId;
      case SequenceIndex => assert VOCABULARY[13] == SequenceIndex;
      case LogicalOperator => assert VOCABULARY[14] == LogicalOperator;
      case PolicyId => assert VOCABULARY[15] == PolicyId;
      case HasPolicy => assert VOCABULARY[16] == HasPolicy;
      case Permission => assert VOCABULARY[17] == Permission;
      case Prohibition => assert VOCABULARY[18] == Prohibition;
      case Obligation => assert VOCABULARY[19] == Obligation;
      case Action => assert VOCABULARY[20] == Action;
      case ConstraintLink => assert VOCABULARY[21] == ConstraintLink;
      case LeftOperand => assert VOCABULARY[22] == LeftOperand;
      case Operator => assert VOCABULARY[23] == Operator;
      case RightOperand => assert VOCABULARY[24] == RightOperand;
      case Assigner => assert VOCABULARY[25] == Assigner;
      case Assignee => assert VOCABULARY[26] == Assignee;
      case Group(And) => assert VOCABULARY[27] == Group(And);
      case Group(Or) => assert VOCABULARY[28] == Group(Or);
      case Group(Xone) => assert VOCABULARY[29] == Group(Xone);
      case Group(AndSequence) => assert VOCABULARY[30] == Group(AndSequence);
      case PolicyClass(Set) => assert VOCABULARY[31] == PolicyClass(Set);
      case PolicyClass(Offer) => assert VOCABULARY[32] == PolicyClass(Offer);
      case PolicyClass(Agreement) => assert VOCABULARY[33] == PolicyClass(Agreement);
    }
  }

  lemma {:induction false} FindTermFinds(terms: seq<Vocab>, v: Vocab)
    requires v in terms
    ensures FindTerm(terms, Spelling(v)) == Term(v)
  {
    hide Spelling;
    if Spelling(terms[0]) == Spelling(v) {
      SpellingsDiffer(terms[0], v);
    } else {
      FindTermFinds(terms[1..], v);
    }
  }

  /** A predicate is the term `v` exactly when it is spelled so. */
  lemma TermIsSpelled(p: string, v: Vocab)
    ensures IriOf(p) == Term(v) <==> p == Spelling(v)
  {
    InVocabulary(v);
    FindTermFinds(VOCABULARY, v);
    hide Spelling, FindTerm, VOCABULARY;
    assert Spell(IriOf(p)) == p;
  }

  // ----- What is said about each resource -----

  /** `qs` says of `node` that its `p` is `o`. */
  ghost predicate Said(qs: set<Quad>, node: string, p: string, o: RdfTerm) {
    Quad(Resource(node), IriOf(p), o) in qs
  }

  /** `o` is entry `i` of the list kept at `area`, for some `i` below `count`. */
  ghost predicate IsEntry(area: string, count: nat, o: RdfTerm) {
    exists i: nat :: i < count && o == Resource(area + "/" + Decimal(i))
  }

  lemma NumberedEntries(area: string, nodes: seq<string>, o: RdfTerm)
    requires forall i :: 0 <= i < |nodes| ==> nodes[i] == area + "/" + Decimal(i)
    ensures OneOf(nodes, o) <==> IsEntry(area, |nodes|, o)
  {
    if i: nat :| i < |nodes| && o == Resource(area + "/" + Decimal(i)) {
      assert nodes[i] == area + "/" + Decimal(i);
    }
  }

  lemma EntrySaid(parent: string, link: Vocab, area: string, nodes: seq<string>, parts: seq<set<Quad>>, i: nat, p: string, o: RdfTerm)
    requires Siblings(area, nodes, parts) && !Under(area, parent) && i < |nodes|
    ensures Said(Linked(parent, link, nodes, parts), nodes[i], p, o) <==> Said(parts[i], nodes[i], p, o)
  {
    hide IriOf, Spelling;
    var q := Quad(Resource(nodes[i]), IriOf(p), o);
    assert Under(nodes[i], nodes[i]) && InSubtree(q, nodes[i]);
    NotUnderBelow(area, nodes[i]);
    assert nodes[i] != parent;
    if q in Linked(parent, link, nodes, parts) {
      var j :| 0 <= j < |parts| && q in parts[j];
      assert InSubtree(q, nodes[j]);
      assert j == i;
    }
  }

  /** A list says of its parent that its entries are linked, and of each entry
      what that entry's own part says. */
  lemma ListSaid(parent: string, link: Vocab, area: string, nodes: seq<string>, parts: seq<set<Quad>>, p: string, o: RdfTerm)
    requires Siblings(area, nodes, parts) && !Under(area, parent)
    ensures Said(Linked(parent, link, nodes, parts), parent, p, o) <==> p == Spelling(link) && OneOf(nodes, o)
    ensures forall i :: 0 <= i < |nodes| ==> (Said(Linked(parent, link, nodes, parts), nodes[i], p, o) <==> Said(parts[i], nodes[i], p, o))
  {
    TermIsSpelled(p, link);
    LinkedOwn(parent, link, area, nodes, parts);
    hide IriOf, Spelling, Linked, Siblings, OneOf, Under;
    forall i | 0 <= i < |nodes| ensures Said(Linked(parent, link, nodes, parts), nodes[i], p, o) <==> Said(parts[i], nodes[i], p, o) {
      EntrySaid(parent, link, area, nodes, parts, i, p, o);
    }
  }

  lemma ConstraintsSaid(isIri: string -> bool, cs: seq<Constraint>, parent: string, link: Vocab, p: string, o: RdfTerm)
    ensures Said(ConstraintListQuads(isIri, cs, parent, link), parent, p, o) <==>
            p == Spelling(link) && IsEntry(parent + "/constraints", |cs|, o)
    ensures forall i :: 0 <= i < |cs| ==>
              var node := parent + "/constraints/" + Decimal(i);
              Said(ConstraintListQuads(isIri, cs, parent, link), node, p, o) <==> Said(ConstraintQuads(isIri, cs[i], node, i), node, p, o)
  {
    hide Said, Spelling, Linked, IsEntry, ConstraintQuads;
    var area := parent + "/constraints";
    var nodes, parts := ConstraintIris(parent, |cs|), ConstraintParts(isIri, cs, parent);
    assert area + "/" == parent + "/constraints/";
    ConstraintSiblings(isIri, cs, parent);
    UnderArea(parent, "/constraints");
    ListSaid(parent, link, area, nodes, parts, p, o);
    NumberedEntries(area, nodes, o);
    assert ConstraintListQuads(isIri, cs, parent, link) == Linked(parent, link, nodes, parts);
  }

  /** A leaf: its position and its three operands. A group: its position, its
      kind and its children, linked by that kind. */
  lemma ConstraintSaid(isIri: string -> bool, c: Constraint, node: string, index: nat, p: string, o: RdfTerm)
    ensures Said(ConstraintQuads(isIri, c, node, index), node, p, o) <==>
            || (p == INTERNAL_NS + "sequenceIndex" && o == IndexTerm(index))
            || match c
               case Atomic(left, operator, right) =>
                 || (p == ODRL_NS + "leftOperand" && o == IriOrLiteral(isIri, left))
                 || (p == ODRL_NS + "operator" && o == IriOrLiteral(isIri, operator))
                 || (p == ODRL_NS + "rightOperand" && o == TextTerm(right))
               case Logical(combinator, children) =>
                 || (p == INTERNAL_NS + "logicalOperator" && o == NamedNode(IriOf(ODRL_NS + GroupKey(combinator))))
                 || (p == ODRL_NS + GroupKey(combinator) && IsEntry(node + "/constraints", |children|, o))
  {
    hide *;
    match c {
      case Atomic(_, _, _) => LeafSaid(isIri, c, node, index, p, o);
      case Logical(combinator, children) => GroupSaid(isIri, combinator, children, node, index, p, o);
    }
  }

  /** A set of one quad says one thing. */
  lemma OneSaid(node: string, v: Vocab, text: string, t: RdfTerm, p: string, o: RdfTerm)
    requires Spelling(v) == text
    ensures Said({Q(node, v, t)}, node, p, o) <==> p == text && o == t
  {
    TermIsSpelled(p, v);
    hide IriOf, Spelling;
  }

  lemma RuleSpellings()
    ensures Spelling(SequenceIndex) == INTERNAL_NS + "sequenceIndex" && Spelling(Action) == ODRL_NS + "action"
    ensures Spelling(LeftOperand) == ODRL_NS + "leftOperand" && Spelling(Operator) == ODRL_NS + "operator"
            && Spelling(RightOperand) == ODRL_NS + "rightOperand" && Spelling(ConstraintLink) == ODRL_NS + "constraint"
  {
    hide INTERNAL_NS, ODRL_NS;
  }

  lemma PolicySpellings(kind: PolicyKind)
    ensures Spelling(RdfType) == RDF_TYPE_IRI && Spelling(PolicyId) == INTERNAL_NS + "policyId"
    ensures Spelling(Assigner) == ODRL_NS + "assigner" && Spelling(Assignee) == ODRL_NS + "assignee"
    ensures Spelling(PolicyClass(kind)) == ODRL_NS + match kind case Set => "Set" case Offer => "Offer" case Agreement => "Agreement"
  {
    hide INTERNAL_NS, ODRL_NS, RDF_TYPE_IRI;
  }

  lemma LeafParts(isIri: string -> bool, c: Constraint, node: string, index: nat)
    requires c.Atomic?
    ensures ConstraintQuads(isIri, c, node, index) ==
            {Q(node, SequenceIndex, IndexTerm(index))} + {Q(node, LeftOperand, IriOrLiteral(isIri, c.leftOperand))}
            + {Q(node, Operator, IriOrLiteral(isIri, c.operator))} + {Q(node, RightOperand, TextTerm(c.rightOperand))}
  {
    hide IriOrLiteral, TextTerm, IndexTerm, Q;
  }

  lemma LeafSaid(isIri: string -> bool, c: Constraint, node: string, index: nat, p: string, o: RdfTerm)
    requires c.Atomic?
    ensures Said(ConstraintQuads(isIri, c, node, index), node, p, o) <==>
            || (p == INTERNAL_NS + "sequenceIndex" && o == IndexTerm(index))
            || (p == ODRL_NS + "leftOperand" && o == IriOrLiteral(isIri, c.leftOperand))
            || (p == ODRL_NS + "operator" && o == IriOrLiteral(isIri, c.operator))
            || (p == ODRL_NS + "rightOperand" && o == TextTerm(c.rightOperand))
  {
    hide *;
    RuleSpellings();
    LeafParts(isIri, c, node, index);
    var at, left := {Q(node, SequenceIndex, IndexTerm(index))}, {Q(node, LeftOperand, IriOrLiteral(isIri, c.leftOperand))};
    var operator, right := {Q(node, Operator, IriOrLiteral(isIri, c.operator))}, {Q(node, RightOperand, TextTerm(c.rightOperand))};
    OneSaid(node, SequenceIndex, INTERNAL_NS + "sequenceIndex", IndexTerm(index), p, o);
    OneSaid(node, LeftOperand, ODRL_NS + "leftOperand", IriOrLiteral(isIri, c.leftOperand), p, o);
    OneSaid(node, Operator, ODRL_NS + "operator", IriOrLiteral(isIri, c.operator), p, o);
    OneSaid(node, RightOperand, ODRL_NS + "rightOperand", TextTerm(c.rightOperand), p, o);
    SaidTogether(at, left, node, p, o);
    SaidTogether(at + left, operator, node, p, o);
    SaidTogether(at + left + operator, right, node, p, o);
  }

  function GroupKey(combinator: Combinator): (key: string) {
    match combinator
    case And => "and"
    case Or => "or"
    case Xone => "xone"
    case AndSequence => "andSequence"
  }

  function GroupOwnQuads(combinator: Combinator, node: string, index: nat): (qs: set<Quad>) {
    {Q(node, SequenceIndex, IndexTerm(index)), Q(node, LogicalOperator, NamedNode(Term(Group(combinator))))}
  }

  lemma GroupParts(isIri: string -> bool, combinator: Combinator, children: seq<Constraint>, node: string, index: nat)
    ensures ConstraintQuads(isIri, Logical(combinator, children), node, index) ==
            GroupOwnQuads(combinator, node, index) + ConstraintListQuads(isIri, children, node, Group(combinator))
  {
    hide ConstraintListQuads;
  }

  lemma GroupIsSpelled(combinator: Combinator)
    ensures Spelling(Group(combinator)) == ODRL_NS + GroupKey(combinator)
    ensures IriOf(ODRL_NS + GroupKey(combinator)) == Term(Group(combinator))
  {
    TermIsSpelled(ODRL_NS + GroupKey(combinator), Group(combinator));
    hide IriOf, ODRL_NS;
  }

  lemma GroupOwnSaid(combinator: Combinator, node: string, index: nat, p: string, o: RdfTerm)
    ensures Said(GroupOwnQuads(combinator, node, index), node, p, o) <==>
            || (p == INTERNAL_NS + "sequenceIndex" && o == IndexTerm(index))
            || (p == INTERNAL_NS + "logicalOperator" && o == NamedNode(IriOf(ODRL_NS + GroupKey(combinator))))
  {
    TermIsSpelled(p, SequenceIndex);
    TermIsSpelled(p, LogicalOperator);
    GroupIsSpelled(combinator);
    hide IriOf, INTERNAL_NS, ODRL_NS, GroupKey, IndexTerm;
  }

  lemma GroupSaid(isIri: string -> bool, combinator: Combinator, children: seq<Constraint>, node: string, index: nat, p: string, o: RdfTerm)
    ensures Said(ConstraintQuads(isIri, Logical(combinator, children), node, index), node, p, o) <==>
            || (p == INTERNAL_NS + "sequenceIndex" && o == IndexTerm(index))
            || (p == INTERNAL_NS + "logicalOperator" && o == NamedNode(IriOf(ODRL_NS + GroupKey(combinator))))
            || (p == ODRL_NS + GroupKey(combinator) && IsEntry(node + "/constraints", |children|, o))
  {
    hide *;
    GroupParts(isIri, combinator, children, node, index);
    GroupOwnSaid(combinator, node, index, p, o);
    GroupIsSpelled(combinator);
    ConstraintsSaid(isIri, children, node, Group(combinator), p, o);
    SaidTogether(GroupOwnQuads(combinator, node, index), ConstraintListQuads(isIri, children, node, Group(combinator)), node, p, o);
  }

  lemma RuleSaid(isIri: string -> bool, rule: Rule, node: string, index: nat, p: string, o: RdfTerm)
    ensures Said(RuleQuads(isIri, rule, node, index), node, p, o) <==>
            || (p == INTERNAL_NS + "sequenceIndex" && o == IndexTerm(index))
            || (p == ODRL_NS + "action" && o == IriOrLiteral(isIri, rule.action))
            || (p == ODRL_NS + "constraint" && IsEntry(node + "/constraints", |rule.constraints|, o))
  {
    hide *;
    RuleSpellings();
    var at, action := {Q(node, SequenceIndex, IndexTerm(index))}, {Q(node, Action, IriOrLiteral(isIri, rule.action))};
    var constraints := ConstraintListQuads(isIri, rule.constraints, node, ConstraintLink);
    RuleQuadsAre(isIri, rule, node, index);
    OneSaid(node, SequenceIndex, INTERNAL_NS + "sequenceIndex", IndexTerm(index), p, o);
    OneSaid(node, Action, ODRL_NS + "action", IriOrLiteral(isIri, rule.action), p, o);
    ConstraintsSaid(isIri, rule.constraints, node, ConstraintLink, p, o);
    SaidTogether(at, action, node, p, o);
    SaidTogether(at + action, constraints, node, p, o);
  }

  lemma RuleQuadsAre(isIri: string -> bool, rule: Rule, node: string, index: nat)
    ensures RuleQuads(isIri, rule, node, index) ==
            {Q(node, SequenceIndex, IndexTerm(index))} + {Q(node, Action, IriOrLiteral(isIri, rule.action))}
            + ConstraintListQuads(isIri, rule.constraints, node, ConstraintLink)
  {
    hide IriOrLiteral, IndexTerm, Q, ConstraintListQuads;
  }

  lemma RulesSaid(isIri: string -> bool, rules: seq<Rule>, policy: string, link: Vocab, segment: string, p: string, o: RdfTerm)
    ensures Said(RuleListQuads(isIri, rules, policy, link, segment), policy, p, o) <==>
            p == Spelling(link) && IsEntry(policy + "/" + segment, |rules|, o)
    ensures forall i :: 0 <= i < |rules| ==>
              var node := policy + "/" + segment + "/" + Decimal(i);
              Said(RuleListQuads(isIri, rules, policy, link, segment), node, p, o) <==> Said(RuleQuads(isIri, rules[i], node, i), node, p, o)
  {
    hide Said, Spelling, Linked, IsEntry, RuleQuads;
    var nodes, parts := RuleIris(policy, segment, |rules|), RuleParts(isIri, rules, policy, segment);
    RuleSiblings(isIri, rules, policy, segment);
    UnderArea(policy, "/" + segment);
    assert policy + ("/" + segment) == policy + "/" + segment;
    ListSaid(policy, link, policy + "/" + segment, nodes, parts, p, o);
    NumberedEntries(policy + "/" + segment, nodes, o);
  }

  /** A policy: its class, position, id and parties where it has them, and its
      rules, each list under its own link. */
  lemma PolicySaid(isIri: string -> bool, policy: Policy, node: string, index: nat, p: string, o: RdfTerm)
    ensures Said(PolicyQuads(isIri, policy, node, index), node, p, o) <==>
            || (p == RDF_TYPE_IRI
                && o == NamedNode(IriOf(ODRL_NS + match policy.kind case Set => "Set" case Offer => "Offer" case Agreement => "Agreement")))
            || (p == INTERNAL_NS + "sequenceIndex" && o == IndexTerm(index))
            || (p == INTERNAL_NS + "policyId" && policy.id.Some? && o == TextTerm(policy.id.value))
            || (p == ODRL_NS + "assigner" && policy.assigner.Some? && o == IriOrLiteral(isIri, policy.assigner.value))
            || (p == ODRL_NS + "assignee" && policy.assignee.Some? && o == IriOrLiteral(isIri, policy.assignee.value))
            || (p == ODRL_NS + "permission" && IsEntry(node + "/permissions", |policy.permissions|, o))
            || (p == ODRL_NS + "prohibition" && IsEntry(node + "/prohibitions", |policy.prohibitions|, o))
            || (p == ODRL_NS + "obligation" && IsEntry(node + "/obligations", |policy.obligations|, o))
  {
    hide *;
    RuleLinks(node);
    RulesSaid(isIri, policy.permissions, node, Permission, "permissions", p, o);
    RulesSaid(isIri, policy.prohibitions, node, Prohibition, "prohibitions", p, o);
    RulesSaid(isIri, policy.obligations, node, Obligation, "obligations", p, o);
    PolicyOwnSaid(isIri, policy, node, index, p, o);
    var own := PolicyOwnQuads(isIri, policy, node, index);
    var permissions := RuleListQuads(isIri, policy.permissions, node, Permission, "permissions");
    var prohibitions := RuleListQuads(isIri, policy.prohibitions, node, Prohibition, "prohibitions");
    var obligations := RuleListQuads(isIri, policy.obligations, node, Obligation, "obligations");
    PolicyQuadsAre(isIri, policy, node, index);
    SaidTogether(own, permissions, node, p, o);
    SaidTogether(own + permissions, prohibitions, node, p, o);
    SaidTogether(own + permissions + prohibitions, obligations, node, p, o);
  }

  lemma RuleLinks(node: string)
    ensures Spelling(Permission) == ODRL_NS + "permission" && Spelling(Prohibition) == ODRL_NS + "prohibition"
            && Spelling(Obligation) == ODRL_NS + "obligation"
    ensures node + "/" + "permissions" == node + "/permissions" && node + "/" + "prohibitions" == node + "/prohibitions"
            && node + "/" + "obligations" == node + "/obligations"
  {
    hide ODRL_NS;
  }

  lemma PolicyQuadsAre(isIri: string -> bool, policy: Policy, node: string, index: nat)
    ensures PolicyQuads(isIri, policy, node, index) ==
            PolicyOwnQuads(isIri, policy, node, index)
            + RuleListQuads(isIri, policy.permissions, node, Permission, "permissions")
            + RuleListQuads(isIri, policy.prohibitions, node, Prohibition, "prohibitions")
            + RuleListQuads(isIri, policy.obligations, node, Obligation, "obligations")
  {
    hide PolicyOwnQuads, RuleListQuads;
  }

  lemma SaidTogether(a: set<Quad>, b: set<Quad>, node: string, p: string, o: RdfTerm)
    ensures Said(a + b, node, p, o) <==> Said(a, node, p, o) || Said(b, node, p, o)
  {
  }

  lemma PolicyOwnSaid(isIri: string -> bool, policy: Policy, node: string, index: nat, p: string, o: RdfTerm)
    ensures Said(PolicyOwnQuads(isIri, policy, node, index), node, p, o) <==>
            || (p == RDF_TYPE_IRI
                && o == NamedNode(IriOf(ODRL_NS + match policy.kind case Set => "Set" case Offer => "Offer" case Agreement => "Agreement")))
            || (p == INTERNAL_NS + "sequenceIndex" && o == IndexTerm(index))
            || (p == INTERNAL_NS + "policyId" && policy.id.Some? && o == TextTerm(policy.id.value))
            || (p == ODRL_NS + "assigner" && policy.assigner.Some? && o == IriOrLiteral(isIri, policy.assigner.value))
            || (p == ODRL_NS + "assignee" && policy.assignee.Some? && o == IriOrLiteral(isIri, policy.assignee.value))
  {
    hide *;
    RuleSpellings();
    PolicySpellings(policy.kind);
    TermIsSpelled(Spelling(PolicyClass(policy.kind)), PolicyClass(policy.kind));
    PolicyOwnQuadsAre(isIri, policy, node, index);
    var kind, at := {Q(node, RdfType, NamedNode(Term(PolicyClass(policy.kind))))}, {Q(node, SequenceIndex, IndexTerm(index))};
    var id := OptionalQuad(node, PolicyId, OptionalText(policy.id));
    var assigner := OptionalQuad(node, Assigner, OptionalIriOrLiteral(isIri, policy.assigner));
    var assignee := OptionalQuad(node, Assignee, OptionalIriOrLiteral(isIri, policy.assignee));
    OneSaid(node, RdfType, RDF_TYPE_IRI, NamedNode(Term(PolicyClass(policy.kind))), p, o);
    OneSaid(node, SequenceIndex, INTERNAL_NS + "sequenceIndex", IndexTerm(index), p, o);
    OptionalTextSaid(node, PolicyId, INTERNAL_NS + "policyId", policy.id, p, o);
    OptionalIriSaid(isIri, node, Assigner, ODRL_NS + "assigner", policy.assigner, p, o);
    OptionalIriSaid(isIri, node, Assignee, ODRL_NS + "assignee", policy.assignee, p, o);
    SaidTogether(kind, at, node, p, o);
    SaidTogether(kind + at, id, node, p, o);
    SaidTogether(kind + at + id, assigner, node, p, o);
    SaidTogether(kind + at + id + assigner, assignee, node, p, o);
  }

  lemma PolicyOwnQuadsAre(isIri: string -> bool, policy: Policy, node: string, index: nat)
    ensures PolicyOwnQuads(isIri, policy, node, index) ==
            {Q(node, RdfType, NamedNode(Term(PolicyClass(policy.kind))))} + {Q(node, SequenceIndex, IndexTerm(index))}
            + OptionalQuad(node, PolicyId, OptionalText(policy.id))
            + OptionalQuad(node, Assigner, OptionalIriOrLiteral(isIri, policy.assigner))
            + OptionalQuad(node, Assignee, OptionalIriOrLiteral(isIri, policy.assignee))
  {
    hide Q, IndexTerm, OptionalQuad, OptionalText, OptionalIriOrLiteral;
  }

  lemma OptionalTextSaid(node: string, v: Vocab, text: string, value: Option<string>, p: string, o: RdfTerm)
    requires Spelling(v) == text
    ensures Said(OptionalQuad(node, v, OptionalText(value)), node, p, o) <==> p == text && value.Some? && o == TextTerm(value.value)
  {
    hide IriOf, Spelling, TextTerm;
    if value.Some? {
      OneSaid(node, v, text, TextTerm(value.value), p, o);
    }
  }

  lemma OptionalIriSaid(isIri: string -> bool, node: string, v: Vocab, text: string, value: Option<string>, p: string, o: RdfTerm)
    requires Spelling(v) == text
    ensures Said(OptionalQuad(node, v, OptionalIriOrLiteral(isIri, value)), node, p, o) <==>
            p == text && value.Some? && o == IriOrLiteral(isIri, value.value)
  {
    hide IriOf, Spelling, IriOrLiteral;
    if value.Some? {
      OneSaid(node, v, text, IriOrLiteral(isIri, value.value), p, o);
    }
  }

  lemma DistributionSaid(base: string, d: Distribution, node: string, index: nat, p: string, o: RdfTerm)
    ensures Said(DistributionQuads(base, d, node, index), node, p, o) <==>
            || (p == RDF_TYPE_IRI && o == NamedNode(IriOf(DCAT_NS + "Distribution")))
            || (p == INTERNAL_NS + "sequenceIndex" && o == IndexTerm(index))
            || (p == DCT_NS + "format" && o == TextTerm(d.format))
            || (p == DCAT_NS + "accessService" && o == Resource(ServiceIri(base, d.accessService)))
  {
    TermIsSpelled(p, RdfType);
    TermIsSpelled(p, SequenceIndex);
    TermIsSpelled(p, Format);
    TermIsSpelled(p, AccessService);
    TermIsSpelled(Spelling(DistributionClass), DistributionClass);
    hide IriOf, INTERNAL_NS, DCAT_NS, DCT_NS, RDF_TYPE_IRI, TextTerm, IndexTerm, ServiceIri;
  }

  lemma ServiceSaid(isIri: string -> bool, base: string, s: DataService, index: nat, p: string, o: RdfTerm)
    ensures Said(ServiceQuads(isIri, base, s, index), ServiceIri(base, s.id), p, o) <==>
            || (p == RDF_TYPE_IRI && o == NamedNode(IriOf(DCAT_NS + "DataService")))
            || (p == INTERNAL_NS + "sequenceIndex" && o == IndexTerm(index))
            || (p == DCAT_NS + "endpointURL" && o == IriOrLiteral(isIri, s.endpointUrl))
            || (p == DCAT_NS + "endpointDescription" && s.endpointDescription.Some? && o == TextTerm(s.endpointDescription.value))
  {
    TermIsSpelled(p, RdfType);
    TermIsSpelled(p, SequenceIndex);
    TermIsSpelled(p, EndpointUrl);
    TermIsSpelled(p, EndpointDescription);
    TermIsSpelled(Spelling(DataServiceClass), DataServiceClass);
    hide IriOf, IriOrLiteral, INTERNAL_NS, DCAT_NS, RDF_TYPE_IRI, TextTerm, IndexTerm, ServiceIri;
  }

  /** A property: its key where that is an IRI, a private predicate otherwise. */
  ghost predicate PropertySaid(isIri: string -> bool, properties: map<string, string>, p: string, o: RdfTerm) {
    exists key :: key in properties && o == TextTerm(properties[key])
                  && p == if isIri(key) then key else INTERNAL_NS + "property/" + Encode(key)
  }

  /** No vocabulary term lies among the private predicates of properties. */
  lemma PrivateIsPlain(rest: string)
    ensures IriOf(INTERNAL_NS + "property/" + rest) == Plain(INTERNAL_NS + "property/" + rest)
  {
    hide IriOf, Spelling, INTERNAL_NS;
    var p := INTERNAL_NS + "property/" + rest;
    var iri := IriOf(p);
    assert Spell(iri) == p && p == INTERNAL_NS + ("property/" + rest);
    if iri.Term? {
      NotPrivate(iri.term, "property/" + rest);
    }
  }

  lemma InternalLocals(v: Vocab)
    requires NamespaceOf(v) == Internal
    ensures |Local(v)| > 1 && !(Local(v)[0] == 'p' && Local(v)[1] == 'r')
  {
    assert "participantId"[1] == 'a' && "policyId"[1] == 'o' && "sequenceIndex"[0] == 's' && "logicalOperator"[0] == 'l';
  }

  lemma NotPrivate(v: Vocab, tail: string)
    requires |tail| >= 2 && tail[0] == 'p' && tail[1] == 'r'
    ensures Spelling(v) != INTERNAL_NS + tail
  {
    assert (INTERNAL_NS + tail)[|INTERNAL_NS|..] == tail;
    SpellingParts(v);
    hide Spelling, Local, INTERNAL_NS;
    if INTERNAL_NS <= Spelling(v) {
      NamespacesApart(Spelling(v), NamespaceOf(v), Internal);
      InternalLocals(v);
      assert Spelling(v)[|INTERNAL_NS|..] == Local(v);
    }
  }

  lemma PropertiesSaid(isIri: string -> bool, properties: map<string, string>, node: string, p: string, o: RdfTerm)
    ensures Said(PropertyQuads(isIri, properties, node), node, p, o) <==> PropertySaid(isIri, properties, p, o)
  {
    PrivatePrefix();
    forall key | key in properties
      ensures PropertyPredicate(isIri, key) == IriOf(if isIri(key) then key else INTERNAL_NS + "property/" + Encode(key))
    {
      PrivateIsPlain(Encode(key));
    }
    hide IriOf, TextTerm, Encode, INTERNAL_NS, INTERNAL_PROPERTY_PREFIX, PropertyPredicate;
    assert forall s :: Spell(IriOf(s)) == s;
    if key :| key in properties && o == TextTerm(properties[key]) && p == if isIri(key) then key else INTERNAL_NS + "property/" + Encode(key) {
      assert PropertyQuad(isIri, node, key, properties[key]) in PropertyQuads(isIri, properties, node);
    }
  }

  lemma PrivatePrefix()
    ensures INTERNAL_PROPERTY_PREFIX == INTERNAL_NS + "property/"
  {
  }

  lemma DistributionsSaid(base: string, ds: seq<Distribution>, dataset: string, p: string, o: RdfTerm)
    ensures Said(DistributionListQuads(base, ds, dataset), dataset, p, o) <==>
            p == DCAT_NS + "distribution" && IsEntry(dataset + "/distributions", |ds|, o)
  {
    var nodes, parts := DistributionIris(dataset, |ds|), DistributionParts(base, ds, dataset);
    var area := dataset + "/distributions";
    assert area + "/" == dataset + "/distributions/" && Spelling(DistributionLink) == DCAT_NS + "distribution";
    hide Said, Spelling, Linked, IsEntry, DistributionQuads, DCAT_NS;
    DistributionSiblings(base, ds, dataset);
    UnderArea(dataset, "/distributions");
    ListSaid(dataset, DistributionLink, area, nodes, parts, p, o);
    NumberedEntries(area, nodes, o);
  }

  lemma PoliciesSaid(isIri: string -> bool, policies: seq<Policy>, dataset: string, p: string, o: RdfTerm)
    ensures Said(PolicyListQuads(isIri, policies, dataset), dataset, p, o) <==>
            p == ODRL_NS + "hasPolicy" && IsEntry(dataset + "/policies", |policies|, o)
  {
    var nodes, parts := PolicyIris(dataset, |policies|), PolicyParts(isIri, policies, dataset);
    var area := dataset + "/policies";
    assert area + "/" == dataset + "/policies/" && Spelling(HasPolicy) == ODRL_NS + "hasPolicy";
    hide Said, Spelling, Linked, IsEntry, PolicyQuads, ODRL_NS;
    PolicySiblings(isIri, policies, dataset);
    UnderArea(dataset, "/policies");
    ListSaid(dataset, HasPolicy, area, nodes, parts, p, o);
    NumberedEntries(area, nodes, o);
  }

  function DatasetOwn(isIri: string -> bool, d: Dataset, node: string, index: nat): (qs: set<Quad>) {
    {Q(node, RdfType, NamedNode(Term(DatasetClass))), Q(node, SequenceIndex, IndexTerm(index))}
  }

  lemma DatasetOwnSaid(isIri: string -> bool, d: Dataset, node: string, index: nat, p: string, o: RdfTerm)
    ensures Said(DatasetOwn(isIri, d, node, index), node, p, o) <==>
            || (p == RDF_TYPE_IRI && o == NamedNode(IriOf(DCAT_NS + "Dataset")))
            || (p == INTERNAL_NS + "sequenceIndex" && o == IndexTerm(index))
  {
    TermIsSpelled(p, RdfType);
    TermIsSpelled(p, SequenceIndex);
    TermIsSpelled(Spelling(DatasetClass), DatasetClass);
    hide IriOf, INTERNAL_NS, DCAT_NS, RDF_TYPE_IRI, IndexTerm;
  }

  lemma DatasetQuadsAre(isIri: string -> bool, base: string, d: Dataset, index: nat)
    ensures var node := DatasetIri(base, d.id);
            DatasetQuads(isIri, base, d, index) ==
            DatasetOwn(isIri, d, node, index) + PropertyQuads(isIri, d.properties, node)
            + DistributionListQuads(base, d.distributions, node) + PolicyListQuads(isIri, d.policies, node)
  {
    hide PropertyQuads, DistributionListQuads, PolicyListQuads, DatasetIri;
  }

  /** A dataset: its class and position, its properties, its distributions and
      its policies. */
  lemma DatasetSaid(isIri: string -> bool, base: string, d: Dataset, index: nat, p: string, o: RdfTerm)
    ensures var node := DatasetIri(base, d.id);
            Said(DatasetQuads(isIri, base, d, index), node, p, o) <==>
            || (p == RDF_TYPE_IRI && o == NamedNode(IriOf(DCAT_NS + "Dataset")))
            || (p == INTERNAL_NS + "sequenceIndex" && o == IndexTerm(index))
            || PropertySaid(isIri, d.properties, p, o)
            || (p == DCAT_NS + "distribution" && IsEntry(node + "/distributions", |d.distributions|, o))
            || (p == ODRL_NS + "hasPolicy" && IsEntry(node + "/policies", |d.policies|, o))
  {
    hide *;
    var node := DatasetIri(base, d.id);
    var own, properties := DatasetOwn(isIri, d, node, index), PropertyQuads(isIri, d.properties, node);
    var distributions, policies := DistributionListQuads(base, d.distributions, node), PolicyListQuads(isIri, d.policies, node);
    DatasetQuadsAre(isIri, base, d, index);
    DatasetOwnSaid(isIri, d, node, index, p, o);
    PropertiesSaid(isIri, d.properties, node, p, o);
    DistributionsSaid(base, d.distributions, node, p, o);
    PoliciesSaid(isIri, d.policies, node, p, o);
    SaidTogether(own, properties, node, p, o);
    SaidTogether(own + properties, distributions, node, p, o);
    SaidTogether(own + properties + distributions, policies, node, p, o);
  }

  lemma CatalogOwnSaid(isIri: string -> bool, c: Catalog, node: string, p: string, o: RdfTerm)
    ensures Said(CatalogOwnQuads(isIri, c, node), node, p, o) <==>
            || (p == RDF_TYPE_IRI && o == NamedNode(IriOf(DCAT_NS + "Catalog")))
            || (p == INTERNAL_NS + "participantId" && c.participantId.Some? && o == TextTerm(c.participantId.value))
            || PropertySaid(isIri, c.properties, p, o)
  {
    TermIsSpelled(p, RdfType);
    TermIsSpelled(p, ParticipantId);
    TermIsSpelled(Spelling(CatalogClass), CatalogClass);
    PropertiesSaid(isIri, c.properties, node, p, o);
    hide IriOf, INTERNAL_NS, DCAT_NS, RDF_TYPE_IRI, TextTerm, PropertyQuads, PropertySaid;
  }

  /** The links of a list whose parts say nothing of its parent. */
  lemma LinksSaid(parent: string, link: Vocab, nodes: seq<string>, parts: seq<set<Quad>>, p: string, o: RdfTerm)
    requires |nodes| == |parts|
    requires forall i :: 0 <= i < |parts| ==> AllBelow(parts[i], nodes[i]) && !Under(nodes[i], parent)
    ensures Said(Linked(parent, link, nodes, parts), parent, p, o) <==> p == Spelling(link) && OneOf(nodes, o)
  {
    TermIsSpelled(p, link);
    hide IriOf, Spelling;
    var q := Quad(Resource(parent), IriOf(p), o);
    forall i, x | 0 <= i < |parts| && x in parts[i] ensures x.subject != Resource(parent) {
      assert InSubtree(x, nodes[i]);
    }
    if p == Spelling(link) && OneOf(nodes, o) {
      var i :| 0 <= i < |nodes| && o == Resource(nodes[i]);
      assert q == Q(parent, link, Resource(nodes[i]));
    }
  }

  lemma CatalogIsNotBelow(node: string, catalog: string, id: string)
    ensures !Under(DatasetResourceIri(node, id), CatalogIri(NodeBase(node), catalog))
    ensures !Under(ServiceResourceIri(node, id), CatalogIri(NodeBase(node), catalog))
  {
    CatalogIsUngated(node, catalog);
    hide *;
    if Under(DatasetResourceIri(node, id), CatalogIri(NodeBase(node), catalog)) {
      DatasetOwnsItsSubtree(node, id, CatalogIri(NodeBase(node), catalog));
    }
    if Under(ServiceResourceIri(node, id), CatalogIri(NodeBase(node), catalog)) {
      ServiceOwnsItsSubtree(node, id, CatalogIri(NodeBase(node), catalog));
    }
  }

  lemma DatasetNodes(c: Catalog, o: RdfTerm)
    ensures OneOf(DatasetIris(NodeBase(c.originNode), c.datasets), o) <==>
            exists d :: d in c.datasets && o == Resource(DatasetResourceIri(c.originNode, d.id))
  {
    hide NodeBase, DatasetIri;
    var nodes := DatasetIris(NodeBase(c.originNode), c.datasets);
    forall i | 0 <= i < |nodes| ensures nodes[i] == DatasetResourceIri(c.originNode, c.datasets[i].id) && c.datasets[i] in c.datasets {
    }
  }

  lemma ServiceNodes(c: Catalog, o: RdfTerm)
    ensures OneOf(ServiceIris(NodeBase(c.originNode), c.dataServices), o) <==>
            exists s :: s in c.dataServices && o == Resource(ServiceResourceIri(c.originNode, s.id))
  {
    hide NodeBase, ServiceIri;
    var nodes := ServiceIris(NodeBase(c.originNode), c.dataServices);
    forall i | 0 <= i < |nodes| ensures nodes[i] == ServiceResourceIri(c.originNode, c.dataServices[i].id) && c.dataServices[i] in c.dataServices {
    }
  }

  lemma DatasetLinksSaid(isIri: string -> bool, c: Catalog, p: string, o: RdfTerm)
    ensures var base := NodeBase(c.originNode);
            Said(DatasetListQuads(isIri, base, c.datasets, CatalogIri(base, c.id)), CatalogIri(base, c.id), p, o) <==>
            p == DCAT_NS + "dataset" && exists d :: d in c.datasets && o == Resource(DatasetResourceIri(c.originNode, d.id))
  {
    var base := NodeBase(c.originNode);
    var node := CatalogIri(base, c.id);
    var nodes, parts := DatasetIris(base, c.datasets), DatasetParts(isIri, base, c.datasets);
    assert Spelling(DatasetLink) == DCAT_NS + "dataset";
    hide NodeBase, CatalogIri, DatasetIri, DatasetQuads, Spelling, DCAT_NS, Said, Linked, Under;
    forall i | 0 <= i < |parts| ensures AllBelow(parts[i], nodes[i]) && !Under(nodes[i], node) {
      DatasetBelow(isIri, base, c.datasets[i], i);
      CatalogIsNotBelow(c.originNode, c.id, c.datasets[i].id);
    }
    hide *;
    LinksSaid(node, DatasetLink, nodes, parts, p, o);
    DatasetNodes(c, o);
  }

  lemma ServiceLinksSaid(isIri: string -> bool, c: Catalog, p: string, o: RdfTerm)
    ensures var base := NodeBase(c.originNode);
            Said(ServiceListQuads(isIri, base, c.dataServices, CatalogIri(base, c.id)), CatalogIri(base, c.id), p, o) <==>
            p == DCAT_NS + "service" && exists s :: s in c.dataServices && o == Resource(ServiceResourceIri(c.originNode, s.id))
  {
    var base := NodeBase(c.originNode);
    var node := CatalogIri(base, c.id);
    var nodes, parts := ServiceIris(base, c.dataServices), ServiceParts(isIri, base, c.dataServices);
    assert Spelling(ServiceLink) == DCAT_NS + "service";
    hide NodeBase, CatalogIri, ServiceIri, ServiceQuads, Spelling, DCAT_NS, Said, Linked, Under;
    forall i | 0 <= i < |parts| ensures AllBelow(parts[i], nodes[i]) && !Under(nodes[i], node) {
      ServiceBelow(isIri, base, c.dataServices[i], i);
      CatalogIsNotBelow(c.originNode, c.id, c.dataServices[i].id);
    }
    hide *;
    LinksSaid(node, ServiceLink, nodes, parts, p, o);
    ServiceNodes(c, o);
  }

  lemma CatalogQuadsAre(isIri: string -> bool, c: Catalog)
    ensures var base := NodeBase(c.originNode);
            var node := CatalogIri(base, c.id);
            CatalogQuads(isIri, c) ==
            CatalogOwnQuads(isIri, c, node) + DatasetListQuads(isIri, base, c.datasets, node) + ServiceListQuads(isIri, base, c.dataServices, node)
  {
    hide NodeBase, CatalogIri, CatalogOwnQuads, DatasetListQuads, ServiceListQuads;
  }

  /** A catalog: its class, its participant where known, its properties, its
      datasets and its services. */
  lemma CatalogSaid(isIri: string -> bool, c: Catalog, p: string, o: RdfTerm)
    ensures Said(CatalogQuads(isIri, c), CatalogIri(NodeBase(c.originNode), c.id), p, o) <==>
            || (p == RDF_TYPE_IRI && o == NamedNode(IriOf(DCAT_NS + "Catalog")))
            || (p == INTERNAL_NS + "participantId" && c.participantId.Some? && o == TextTerm(c.participantId.value))
            || PropertySaid(isIri, c.properties, p, o)
            || (p == DCAT_NS + "dataset" && exists d :: d in c.datasets && o == Resource(DatasetResourceIri(c.originNode, d.id)))
            || (p == DCAT_NS + "service" && exists s :: s in c.dataServices && o == Resource(ServiceResourceIri(c.originNode, s.id)))
  {
    hide *;
    var base := NodeBase(c.originNode);
    var node := CatalogIri(base, c.id);
    var own := CatalogOwnQuads(isIri, c, node);
    var datasets, services := DatasetListQuads(isIri, base, c.datasets, node), ServiceListQuads(isIri, base, c.dataServices, node);
    CatalogQuadsAre(isIri, c);
    CatalogOwnSaid(isIri, c, node, p, o);
    DatasetLinksSaid(isIri, c, p, o);
    ServiceLinksSaid(isIri, c, p, o);
    SaidTogether(own, datasets, node, p, o);
    SaidTogether(own + datasets, services, node, p, o);
  }
}
