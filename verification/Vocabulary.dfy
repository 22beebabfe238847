/** RDF terms, the fixed vocabulary, and the IRIs minted for harvested
    resources (`vocab.rs`, `iris.rs`). */
module Vocabulary {
  import opened Text
  import opened CatalogCore

  const NODE_NS := "https://federated-catalog-rs.internal/nodes/"
  const INTERNAL_NS := "https://federated-catalog-rs.internal/ns#"
  const INTERNAL_PROPERTY_PREFIX := "https://federated-catalog-rs.internal/ns#property/"
  const DCAT_NS := "http://www.w3.org/ns/dcat#"
  const DCT_NS := "http://purl.org/dc/terms/"
  const RDF_TYPE_IRI := "http://www.w3.org/1999/02/22-rdf-syntax-ns#type"

  datatype Vocab =
    | RdfType
    | CatalogClass | DatasetClass | DistributionClass | DataServiceClass
    | DatasetLink | ServiceLink | DistributionLink | AccessService
    | EndpointUrl | EndpointDescription | Format
    | ParticipantId | SequenceIndex | LogicalOperator | PolicyId
    | HasPolicy | Permission | Prohibition | Obligation | Action | ConstraintLink
    | LeftOperand | Operator | RightOperand | Assigner | Assignee
    | Group(combinator: Combinator)
    | PolicyClass(kind: PolicyKind)

  function KindName(kind: PolicyKind): (name: string) {
    match kind
    case Set => "Set"
    case Offer => "Offer"
    case Agreement => "Agreement"
  }

  function Spelling(v: Vocab): (iri: string) {
    match v
    case RdfType => RDF_TYPE_IRI
    case CatalogClass => DCAT_NS + "Catalog"
    case DatasetClass => DCAT_NS + "Dataset"
    case DistributionClass => DCAT_NS + "Distribution"
    case DataServiceClass => DCAT_NS + "DataService"
    case DatasetLink => DCAT_NS + "dataset"
    case ServiceLink => DCAT_NS + "service"
    case DistributionLink => DCAT_NS + "distribution"
    case AccessService => DCAT_NS + "accessService"
    case EndpointUrl => DCAT_NS + "endpointURL"
    case EndpointDescription => DCAT_NS + "endpointDescription"
    case Format => DCT_NS + "format"
    case ParticipantId => INTERNAL_NS + "participantId"
    case SequenceIndex => INTERNAL_NS + "sequenceIndex"
    case LogicalOperator => INTERNAL_NS + "logicalOperator"
    case PolicyId => INTERNAL_NS + "policyId"
    case HasPolicy => ODRL_NS + "hasPolicy"
    case Permission => ODRL_NS + "permission"
    case Prohibition => ODRL_NS + "prohibition"
    case Obligation => ODRL_NS + "obligation"
    case Action => ODRL_NS + "action"
    case ConstraintLink => ODRL_NS + "constraint"
    case LeftOperand => ODRL_NS + "leftOperand"
    case Operator => ODRL_NS + "operator"
    case RightOperand => ODRL_NS + "rightOperand"
    case Assigner => ODRL_NS + "assigner"
    case Assignee => ODRL_NS + "assignee"
    case Group(c) => ODRL_NS + CombinatorName(c)
    case PolicyClass(kind) => ODRL_NS + KindName(kind)
  }

  const VOCABULARY: seq<Vocab> :=
    [ RdfType, CatalogClass, DatasetClass, DistributionClass, DataServiceClass,
      DatasetLink, ServiceLink, DistributionLink, AccessService,
      EndpointUrl, EndpointDescription, Format,
      ParticipantId, SequenceIndex, LogicalOperator, PolicyId,
      HasPolicy, Permission, Prohibition, Obligation, Action, ConstraintLink,
      LeftOperand, Operator, RightOperand, Assigner, Assignee,
      Group(And), Group(Or), Group(Xone), Group(AndSequence),
      PolicyClass(Set), PolicyClass(Offer), PolicyClass(Agreement) ]

  /** An IRI, kept as its vocabulary term when it spells one, so that two
      IRIs are equal exactly when their spellings are. */
  datatype Iri = Term(term: Vocab) | Plain(text: string)

  function Spell(iri: Iri): (s: string) {
    match iri
    case Term(v) => Spelling(v)
    case Plain(text) => text
  }

  function FindTerm(terms: seq<Vocab>, s: string): (iri: Iri)
    ensures Spell(iri) == s
  {
    if terms == [] then Plain(s)
    else if Spelling(terms[0]) == s then Term(terms[0])
    else FindTerm(terms[1..], s)
  }

  /** The IRI spelled `s`. */
  function IriOf(s: string): (iri: Iri)
    ensures Spell(iri) == s
  {
    FindTerm(VOCABULARY, s)
  }

  datatype LiteralType = XsdString | XsdInteger

  datatype RdfTerm =
    | NamedNode(iri: Iri)
    | BlankNode(name: string)
    | Literal(value: string, literalType: LiteralType)

  /** One triple of a named graph. */
  datatype Quad = Quad(subject: RdfTerm, pred: Iri, obj: RdfTerm)

  // ----- Minted IRIs -----

  function NodeBase(node: string): (iri: string) {
    NODE_NS + Encode(node)
  }

  function CatalogIri(base: string, id: string): (iri: string) {
    base + "/catalogs/" + Encode(id)
  }

  function DatasetIri(base: string, id: string): (iri: string) {
    base + "/datasets/" + Encode(id)
  }

  function ServiceIri(base: string, id: string): (iri: string) {
    base + "/services/" + Encode(id)
  }

  function DistributionIri(dataset: string, index: nat): (iri: string) {
    dataset + "/distributions/" + Decimal(index)
  }

  function PolicyIri(dataset: string, index: nat): (iri: string) {
    dataset + "/policies/" + Decimal(index)
  }

  function RuleIri(policy: string, segment: string, index: nat): (iri: string) {
    policy + "/" + segment + "/" + Decimal(index)
  }

  function ConstraintIri(parent: string, index: nat): (iri: string) {
    parent + "/constraints/" + Decimal(index)
  }

  /** A resource this store mints. */
  function Resource(iri: string): (t: RdfTerm) {
    NamedNode(Plain(iri))
  }

  function DatasetResourceIri(node: string, id: string): (iri: string) {
    DatasetIri(NodeBase(node), id)
  }

  function ServiceResourceIri(node: string, id: string): (iri: string) {
    ServiceIri(NodeBase(node), id)
  }

  // ----- Terms -----

  function TextTerm(s: string): (t: RdfTerm) {
    Literal(s, XsdString)
  }

  function IndexTerm(index: nat): (t: RdfTerm) {
    Literal(Decimal(index), XsdInteger)
  }

  /** `value` as an IRI where it parses as one, as a plain literal otherwise. */
  function IriOrLiteral(isIri: string -> bool, value: string): (t: RdfTerm) {
    if isIri(value) then NamedNode(IriOf(value)) else TextTerm(value)
  }

  function TermAsString(t: RdfTerm): (r: Result<string>) {
    match t
    case NamedNode(iri) => Ok(Spell(iri))
    case Literal(value, _) => Ok(value)
    case BlankNode(_) => Err
  }

  /** The predicate of one generic property: the key itself where it is an IRI. */
  function PropertyPredicate(isIri: string -> bool, key: string): (iri: Iri) {
    if isIri(key) then IriOf(key) else Plain(INTERNAL_PROPERTY_PREFIX + Encode(key))
  }

  function DecodePropertyKey(pred: Iri): (key: string) {
    var s := Spell(pred);
    if INTERNAL_PROPERTY_PREFIX <= s then
      var rest := s[|INTERNAL_PROPERTY_PREFIX|..];
      match Decode(rest)
      case Some(key) => key
      case None => rest
    else s
  }

  /** The text after `prefix`, percent-decoded. */
  function StripPrefixDecode(iri: string, prefix: string): (r: Result<string>) {
    if prefix <= iri then
      match Decode(iri[|prefix|..])
      case Some(s) => Ok(s)
      case None => Err
    else Err
  }

  lemma StripPrefixDecodeOfEncode(prefix: string, s: string)
    ensures StripPrefixDecode(prefix + Encode(s), prefix) == Ok(s)
  {
    assert (prefix + Encode(s))[|prefix|..] == Encode(s);
    DecodeOfEncode(s);
  }
}
