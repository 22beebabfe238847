/** Rebuilding a catalog from the quads of its named graph (`read.rs`). A graph
    is read as a sequence: its quads in whatever order the store gives them. */
module Read {
  import opened Text
  import opened CatalogCore
  import opened Vocabulary

  // ----- Lookups -----

  /** The objects of `(subject, v, ?)`, in store order. */
  function Objects(g: seq<Quad>, subject: Iri, v: Vocab): (os: seq<RdfTerm>) {
    if g == [] then []
    else
      var last := g[|g| - 1];
      Objects(g[..|g| - 1], subject, v)
      + if last.subject == NamedNode(subject) && last.pred == Term(v) then [last.obj] else []
  }

  function FirstObject(g: seq<Quad>, subject: Iri, v: Vocab): (o: Option<RdfTerm>) {
    var os := Objects(g, subject, v);
    if os == [] then None else Some(os[0])
  }

  function OptionalString(g: seq<Quad>, subject: Iri, v: Vocab): (r: Result<Option<string>>) {
    match FirstObject(g, subject, v)
    case None => Ok(None)
    case Some(t) =>
      var s :- TermAsString(t);
      Ok(Some(s))
  }

  function RequiredString(g: seq<Quad>, subject: Iri, v: Vocab): (r: Result<string>) {
    match FirstObject(g, subject, v)
    case None => Err
    case Some(t) => TermAsString(t)
  }

  function SequenceIndexAt(g: seq<Quad>, subject: Iri): (r: Result<nat>) {
    match FirstObject(g, subject, SequenceIndex)
    case Some(Literal(value, _)) =>
      (match ParseNat(value)
       case Some(n) => Ok(n)
       case None => Err)
    case _ => Err
  }

  // ----- Ordered lists -----

  datatype Indexed<+T> = Indexed(index: nat, value: T)

  /** The entry each of `ts` leads to, or an error when any of them fails. */
  function Traverse<T>(ts: seq<RdfTerm>, load: Iri -> Result<Indexed<T>>): (r: Result<seq<Indexed<T>>>) {
    if ts == [] then Ok([])
    else if !ts[0].NamedNode? then Err
    else
      var entry :- load(ts[0].iri);
      var rest :- Traverse(ts[1..], load);
      Ok([entry] + rest)
  }

  function InsertByIndex<T>(entry: Indexed<T>, sorted: seq<Indexed<T>>): (r: seq<Indexed<T>>) {
    if sorted == [] || entry.index <= sorted[0].index then [entry] + sorted
    else [sorted[0]] + InsertByIndex(entry, sorted[1..])
  }

  /** A stable sort on the index. */
  function SortByIndex<T>(entries: seq<Indexed<T>>): (r: seq<Indexed<T>>) {
    if entries == [] then [] else InsertByIndex(entries[0], SortByIndex(entries[1..]))
  }

  function Values<T>(entries: seq<Indexed<T>>): (r: seq<T>) {
    seq(|entries|, i requires 0 <= i < |entries| => entries[i].value)
  }

  /** The list linked from `subject` by `v`, in `fcns:sequenceIndex` order. */
  function ListAt<T>(g: seq<Quad>, subject: Iri, v: Vocab, load: Iri -> Result<Indexed<T>>): (r: Result<seq<T>>) {
    var entries :- Traverse(Objects(g, subject, v), load);
    Ok(Values(SortByIndex(entries)))
  }

  // ----- What each resource decodes to -----

  /** The combinator of the group at `subject`: the one its marker names, which
      no other link may contradict, or without a marker the first in precedence
      order that links a child. */
  function CombinatorAt(g: seq<Quad>, subject: Iri): (r: Result<Combinator>) {
    match FirstObject(g, subject, LogicalOperator)
    case Some(marker) =>
      if exists c | c in COMBINATORS :: marker != NamedNode(Term(Group(c))) && Objects(g, subject, Group(c)) != [] then Err
      else if marker.NamedNode? && marker.iri.Term? && marker.iri.term.Group? then Ok(marker.iri.term.combinator)
      else Err
    case None => FirstLinked(g, subject, COMBINATORS)
  }

  function FirstLinked(g: seq<Quad>, subject: Iri, candidates: seq<Combinator>): (r: Result<Combinator>) {
    if candidates == [] then Err
    else if Objects(g, subject, Group(candidates[0])) != [] then Ok(candidates[0])
    else FirstLinked(g, subject, candidates[1..])
  }

  /** The group at `subject` links a child by `c`. */
  predicate LinksBy(g: seq<Quad>, subject: Iri, c: Combinator) {
    Objects(g, subject, Group(c)) != []
  }

  lemma InCombinators(c: Combinator)
    ensures c in COMBINATORS
  {
    match c {
      case Xone => assert COMBINATORS[0] == c;
      case Or => assert COMBINATORS[1] == c;
      case And => assert COMBINATORS[2] == c;
      case AndSequence => assert COMBINATORS[3] == c;
    }
  }

  /** A marker decides, and must be a combinator no other link contradicts. */
  lemma MarkedCombinator(g: seq<Quad>, subject: Iri, marker: RdfTerm, c: Combinator)
    requires FirstObject(g, subject, LogicalOperator) == Some(marker)
    ensures CombinatorAt(g, subject) == Ok(c) <==>
            marker == NamedNode(Term(Group(c))) && forall other :: other != c ==> !LinksBy(g, subject, other)
  {
    hide Objects, FirstObject, COMBINATORS;
    forall other ensures other in COMBINATORS {
      InCombinators(other);
    }
    if other: Combinator :| marker != NamedNode(Term(Group(other))) && LinksBy(g, subject, other) {
      assert other in COMBINATORS;
    }
  }

  /** Without a marker `xone` goes before `or`, `or` before `and`, and that
      before `andSequence`. */
  lemma UnmarkedCombinator(g: seq<Quad>, subject: Iri)
    requires FirstObject(g, subject, LogicalOperator) == None
    ensures CombinatorAt(g, subject) ==
            if LinksBy(g, subject, Xone) then Ok(Xone)
            else if LinksBy(g, subject, Or) then Ok(Or)
            else if LinksBy(g, subject, And) then Ok(And)
            else if LinksBy(g, subject, AndSequence) then Ok(AndSequence)
            else Err
  {
    hide Objects, FirstObject;
    assert COMBINATORS[1..] == [Or, And, AndSequence];
    assert [Or, And, AndSequence][1..] == [And, AndSequence] && [And, AndSequence][1..] == [AndSequence] && [AndSequence][1..] == [];
    assert FirstLinked(g, subject, []) == Err;
    assert FirstLinked(g, subject, [AndSequence]) == if LinksBy(g, subject, AndSequence) then Ok(AndSequence) else Err;
    assert FirstLinked(g, subject, [And, AndSequence]) ==
           if LinksBy(g, subject, And) then Ok(And) else FirstLinked(g, subject, [AndSequence]);
    assert FirstLinked(g, subject, [Or, And, AndSequence]) ==
           if LinksBy(g, subject, Or) then Ok(Or) else FirstLinked(g, subject, [And, AndSequence]);
  }

  function ConstraintAt(g: seq<Quad>, subject: Iri, depth: nat): (r: Result<Indexed<Constraint>>)
    decreases if depth > MAX_CONSTRAINT_DEPTH then 0 else MAX_CONSTRAINT_DEPTH + 1 - depth, 0
  {
    if depth > MAX_CONSTRAINT_DEPTH then Err
    else
      var index :- SequenceIndexAt(g, subject);
      match FirstObject(g, subject, LeftOperand)
      case Some(leftTerm) =>
        var left :- TermAsString(leftTerm);
        var operator :- RequiredString(g, subject, Operator);
        var right :- RequiredString(g, subject, RightOperand);
        Ok(Indexed(index, Atomic(left, operator, right)))
      case None =>
        var combinator :- CombinatorAt(g, subject);
        var children :- ListAt(g, subject, Group(combinator), ConstraintReader(g, depth + 1));
        Ok(Indexed(index, Logical(combinator, children)))
  }

  function ConstraintReader(g: seq<Quad>, depth: nat): (load: Iri -> Result<Indexed<Constraint>>)
    decreases if depth > MAX_CONSTRAINT_DEPTH then 0 else MAX_CONSTRAINT_DEPTH + 1 - depth, 1
  {
    subject => ConstraintAt(g, subject, depth)
  }

  function RuleAt(g: seq<Quad>, subject: Iri): (r: Result<Indexed<Rule>>) {
    var index :- SequenceIndexAt(g, subject);
    var action :- RequiredString(g, subject, Action);
    var constraints :- ListAt(g, subject, ConstraintLink, ConstraintReader(g, 0));
    Ok(Indexed(index, Rule(action, constraints)))
  }

  function RuleReader(g: seq<Quad>): (load: Iri -> Result<Indexed<Rule>>) {
    subject => RuleAt(g, subject)
  }

  function RulesAt(g: seq<Quad>, policy: Iri, link: Vocab): (r: Result<seq<Rule>>) {
    ListAt(g, policy, link, RuleReader(g))
  }

  function KindAt(g: seq<Quad>, subject: Iri): (r: Result<PolicyKind>) {
    match FirstObject(g, subject, RdfType)
    case Some(NamedNode(Term(PolicyClass(kind)))) => Ok(kind)
    case _ => Err
  }

  function PolicyAt(g: seq<Quad>, subject: Iri): (r: Result<Indexed<Policy>>) {
    var index :- SequenceIndexAt(g, subject);
    var kind :- KindAt(g, subject);
    var id :- OptionalString(g, subject, PolicyId);
    var assigner :- OptionalString(g, subject, Assigner);
    var assignee :- OptionalString(g, subject, Assignee);
    var permissions :- RulesAt(g, subject, Permission);
    var prohibitions :- RulesAt(g, subject, Prohibition);
    var obligations :- RulesAt(g, subject, Obligation);
    Ok(Indexed(index, Policy(id, kind, assigner, assignee, permissions, prohibitions, obligations)))
  }

  function PolicyReader(g: seq<Quad>): (load: Iri -> Result<Indexed<Policy>>) {
    subject => PolicyAt(g, subject)
  }

  function DistributionAt(g: seq<Quad>, base: string, subject: Iri): (r: Result<Indexed<Distribution>>) {
    var index :- SequenceIndexAt(g, subject);
    var format :- RequiredString(g, subject, Format);
    match FirstObject(g, subject, AccessService)
    case Some(NamedNode(iri)) =>
      var service :- StripPrefixDecode(Spell(iri), base + "/services/");
      Ok(Indexed(index, Distribution(format, service)))
    case _ => Err
  }

  function DistributionReader(g: seq<Quad>, base: string): (load: Iri -> Result<Indexed<Distribution>>) {
    subject => DistributionAt(g, base, subject)
  }

  function DataServiceAt(g: seq<Quad>, base: string, subject: Iri): (r: Result<Indexed<DataService>>) {
    var id :- StripPrefixDecode(Spell(subject), base + "/services/");
    var index :- SequenceIndexAt(g, subject);
    var url :- RequiredString(g, subject, EndpointUrl);
    var description :- OptionalString(g, subject, EndpointDescription);
    Ok(Indexed(index, DataService(id, url, description)))
  }

  function DataServiceReader(g: seq<Quad>, base: string): (load: Iri -> Result<Indexed<DataService>>) {
    subject => DataServiceAt(g, base, subject)
  }

  /** Every quad of `subject` whose predicate is not reserved, as a property. */
  function PropertiesAt(g: seq<Quad>, subject: Iri, reserved: set<Vocab>): (r: Result<map<string, string>>) {
    if g == [] then Ok(map[])
    else
      var last := g[|g| - 1];
      var before :- PropertiesAt(g[..|g| - 1], subject, reserved);
      if IsProperty(last, subject, reserved) then
        var value :- TermAsString(last.obj);
        Ok(before[DecodePropertyKey(last.pred) := value])
      else Ok(before)
  }

  predicate IsProperty(q: Quad, subject: Iri, reserved: set<Vocab>) {
    q.subject == NamedNode(subject) && !(q.pred.Term? && q.pred.term in reserved)
  }

  const DATASET_RESERVED: set<Vocab> := {RdfType, SequenceIndex, DistributionLink, HasPolicy}
  const CATALOG_RESERVED: set<Vocab> := {RdfType, ParticipantId, DatasetLink, ServiceLink}

  function DatasetAt(g: seq<Quad>, base: string, subject: Iri): (r: Result<Indexed<Dataset>>) {
    var id :- StripPrefixDecode(Spell(subject), base + "/datasets/");
    var index :- SequenceIndexAt(g, subject);
    var distributions :- ListAt(g, subject, DistributionLink, DistributionReader(g, base));
    var policies :- ListAt(g, subject, HasPolicy, PolicyReader(g));
    var properties :- PropertiesAt(g, subject, DATASET_RESERVED);
    Ok(Indexed(index, Dataset(id, properties, distributions, policies)))
  }

  function DatasetReader(g: seq<Quad>, base: string): (load: Iri -> Result<Indexed<Dataset>>) {
    subject => DatasetAt(g, base, subject)
  }

  /** The first subject typed `dcat:Catalog`, in store order. */
  function CatalogSubject(g: seq<Quad>): (s: Option<RdfTerm>) {
    if g == [] then None
    else
      match CatalogSubject(g[..|g| - 1])
      case Some(s) => Some(s)
      case None =>
        var last := g[|g| - 1];
        if last.pred == Term(RdfType) && last.obj == NamedNode(Term(CatalogClass)) then Some(last.subject) else None
  }

  /** `Ok(None)` when the graph holds no catalog. */
  function CatalogAt(g: seq<Quad>, node: string): (r: Result<Option<Catalog>>) {
    match CatalogSubject(g)
    case None => Ok(None)
    case Some(NamedNode(subject)) =>
      var base := NodeBase(node);
      var id :- StripPrefixDecode(Spell(subject), base + "/catalogs/");
      var participantId :- OptionalString(g, subject, ParticipantId);
      var properties :- PropertiesAt(g, subject, CATALOG_RESERVED);
      var datasets :- ListAt(g, subject, DatasetLink, DatasetReader(g, base));
      var services :- ListAt(g, subject, ServiceLink, DataServiceReader(g, base));
      Ok(Some(Catalog(id, node, participantId, datasets, services, properties)))
    case Some(_) => Err
  }
}
