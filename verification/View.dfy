/** The filtered view `/sparql` queries run over (`VisibleDataset`, `sparql.rs`):
    every lookup, and so every query, answers as if the hidden quads were not
    in the store. */
module View {
  import opened Text
  import opened CatalogCore
  import opened Vocabulary
  import opened Write
  import opened Store
  import opened Visibility
  import opened Commute
  import opened Subtrees

  /** A lookup's bound terms. `graph`: `None` for any named graph, `Some(None)`
      for the default graph. */
  datatype Pattern = Pattern(
    subject: Option<RdfTerm>, pred: Option<RdfTerm>, obj: Option<RdfTerm>, graph: Option<Option<RdfTerm>>)

  datatype Row = Row(subject: RdfTerm, pred: RdfTerm, obj: RdfTerm, graph: Option<RdfTerm>)

  /** Graph names are minted IRIs, never vocabulary terms. */
  function GraphTerm(g: GraphName): (t: Option<RdfTerm>) {
    match g
    case DefaultGraph => None
    case NamedGraph(name) => Some(Resource(name))
    case BlankGraph(name) => Some(BlankNode(name))
  }

  function RowOf(s: StoredQuad): (row: Row) {
    Row(s.quad.subject, NamedNode(s.quad.pred), s.quad.obj, GraphTerm(s.graph))
  }

  // ----- A store as it is -----

  predicate Matches(p: Pattern, s: StoredQuad) {
    && (p.subject.Some? ==> s.quad.subject == p.subject.value)
    && (p.pred.Some? ==> NamedNode(s.quad.pred) == p.pred.value)
    && (p.obj.Some? ==> s.quad.obj == p.obj.value)
    && (match p.graph
        case None => s.graph != DefaultGraph
        case Some(g) => GraphTerm(s.graph) == g)
  }

  /** What a lookup of a store with nothing hidden returns. */
  function PlainLookup(store: set<StoredQuad>, p: Pattern): (rows: set<Row>) {
    set s | s in store && Matches(p, s) :: RowOf(s)
  }

  /** Every named graph with a quad in it. */
  function PlainGraphs(store: set<StoredQuad>): (graphs: set<RdfTerm>) {
    set s | s in store && s.graph != DefaultGraph :: GraphTerm(s.graph).value
  }

  /** The store with the hidden quads removed. */
  function VisiblePart(store: set<StoredQuad>, allow: set<string>): (part: set<StoredQuad>) {
    set s | s in store && QuadIsVisible(s.quad, allow)
  }

  // ----- The view -----

  /** A bound term in a position it cannot take: the lookup matches nothing. */
  datatype Bound<+T> = Free | To(value: T) | Impossible

  function BoundSubject(t: Option<RdfTerm>): (b: Bound<RdfTerm>) {
    match t
    case None => Free
    case Some(Literal(_, _)) => Impossible
    case Some(term) => To(term)
  }

  function BoundPredicate(t: Option<RdfTerm>): (b: Bound<Iri>) {
    match t
    case None => Free
    case Some(NamedNode(iri)) => To(iri)
    case Some(_) => Impossible
  }

  function BoundGraph(t: Option<Option<RdfTerm>>): (b: Bound<GraphName>) {
    match t
    case None => Free
    case Some(None) => To(DefaultGraph)
    case Some(Some(NamedNode(Plain(name)))) => To(NamedGraph(name))
    case Some(Some(BlankNode(name))) => To(BlankGraph(name))
    case Some(Some(_)) => Impossible
  }

  function QuadsForPattern(
    store: set<StoredQuad>, subject: Bound<RdfTerm>, pred: Bound<Iri>, obj: Option<RdfTerm>, graph: Bound<GraphName>)
    : (qs: set<StoredQuad>)
  {
    set s |
      && s in store
      && (subject.To? ==> s.quad.subject == subject.value)
      && (pred.To? ==> s.quad.pred == pred.value)
      && (obj.Some? ==> s.quad.obj == obj.value)
      && (graph.To? ==> s.graph == graph.value)
  }

  /** Whether a bound term belongs to a hidden resource. */
  predicate BoundTermHidden(p: Pattern, allow: set<string>) {
    || (p.subject.Some? && !TermIsVisible(p.subject.value, allow))
    || (p.obj.Some? && !TermIsVisible(p.obj.value, allow))
  }

  /** `internal_quads_for_pattern`: a hidden bound term is answered without
      reading the store. */
  function Lookup(store: set<StoredQuad>, allow: set<string>, p: Pattern): (rows: set<Row>) {
    var subject, pred, graph := BoundSubject(p.subject), BoundPredicate(p.pred), BoundGraph(p.graph);
    if BoundTermHidden(p, allow) || subject.Impossible? || pred.Impossible? || graph.Impossible? then {}
    else
      set s |
        && s in QuadsForPattern(store, subject, pred, p.obj, graph)
        && !(p.graph.None? && s.graph == DefaultGraph)
        && QuadIsVisible(s.quad, allow)
        :: RowOf(s)
  }

  /** Subjects of stored quads are IRIs or blank nodes. */
  ghost predicate WellFormed(store: set<StoredQuad>) {
    forall s :: s in store ==> !s.quad.subject.Literal?
  }

  /** Each lookup returns exactly the matching visible quads. */
  lemma LookupIsExact(store: set<StoredQuad>, allow: set<string>, p: Pattern)
    requires WellFormed(store)
    ensures Lookup(store, allow, p) == PlainLookup(VisiblePart(store, allow), p)
  {
    hide TermIsVisible;
    forall s | s in store && QuadIsVisible(s.quad, allow)
      ensures Matches(p, s) <==>
              !BoundTermHidden(p, allow) && !BoundSubject(p.subject).Impossible? && !BoundPredicate(p.pred).Impossible?
              && !BoundGraph(p.graph).Impossible?
              && s in QuadsForPattern(store, BoundSubject(p.subject), BoundPredicate(p.pred), p.obj, BoundGraph(p.graph))
              && !(p.graph.None? && s.graph == DefaultGraph)
    {
    }
  }

  /** `row` reports `s`: its terms in their own positions, and its graph, the
      default one having no term. */
  predicate Reports(row: Row, s: StoredQuad) {
    && row.subject == s.quad.subject && row.pred == NamedNode(s.quad.pred) && row.obj == s.quad.obj
    && match s.graph
       case DefaultGraph => row.graph == None
       case NamedGraph(name) => row.graph == Some(Resource(name))
       case BlankGraph(name) => row.graph == Some(BlankNode(name))
  }

  /** Each term the lookup binds is the row's in that position; without a graph
      the row is of a named one. */
  predicate Answers(row: Row, p: Pattern) {
    && p.subject in {None, Some(row.subject)} && p.pred in {None, Some(row.pred)} && p.obj in {None, Some(row.obj)}
    && (if p.graph == None then row.graph != None else p.graph == Some(row.graph))
  }

  /** A lookup's rows report the visible quads that answer it, and no others. */
  lemma LookupReports(store: set<StoredQuad>, allow: set<string>, p: Pattern, row: Row)
    requires WellFormed(store)
    ensures row in Lookup(store, allow, p) <==> exists s :: s in store && QuadIsVisible(s.quad, allow) && Reports(row, s) && Answers(row, p)
  {
    LookupIsExact(store, allow, p);
    hide Lookup, QuadIsVisible, WellFormed;
    if s :| s in store && QuadIsVisible(s.quad, allow) && Reports(row, s) && Answers(row, p) {
      assert row == RowOf(s) && s in VisiblePart(store, allow) && Matches(p, s);
    }
    if row in Lookup(store, allow, p) {
      var s :| s in VisiblePart(store, allow) && Matches(p, s) && RowOf(s) == row;
      assert Reports(row, s) && Answers(row, p);
    }
  }

  predicate HoldsACatalog(store: set<StoredQuad>, g: GraphName) {
    exists s :: s in store && s.graph == g && s.quad.pred == Term(RdfType) && s.quad.obj == NamedNode(Term(CatalogClass))
  }

  /** `internal_named_graphs`, given the graphs the store's own index lists. */
  function ViewGraphs(index: set<GraphName>, store: set<StoredQuad>): (graphs: set<RdfTerm>) {
    set g | g in index && g != DefaultGraph && HoldsACatalog(store, g) :: GraphTerm(g).value
  }

  /** `contains_internal_graph_name`. */
  predicate ViewContains(store: set<StoredQuad>, t: RdfTerm) {
    match t
    case NamedNode(Plain(name)) => HoldsACatalog(store, NamedGraph(name))
    case BlankNode(name) => HoldsACatalog(store, BlankGraph(name))
    case _ => false
  }

  lemma CatalogTypeIsVisible(isIri: string -> bool, c: Catalog, allow: set<string>)
    ensures QuadIsVisible(Q(CatalogIri(NodeBase(c.originNode), c.id), RdfType, NamedNode(Term(CatalogClass))), allow)
  {
    hide OwningResourceIri, CatalogIri, NodeBase;
    CatalogIsUngated(c.originNode, c.id);
    VocabularyIsUngated(CatalogClass);
  }

  /** A stored graph holds a catalog, and still shows its type quad whatever is hidden. */
  lemma StoredGraphsHoldCatalogs(isIri: string -> bool, m: map<string, Catalog>, allow: set<string>, s: StoredQuad)
    requires forall node :: node in m ==> m[node].originNode == node
    requires s in StoreQuads(isIri, m)
    ensures s.graph.NamedGraph? && HoldsACatalog(StoreQuads(isIri, m), s.graph)
    ensures exists t :: t in VisiblePart(StoreQuads(isIri, m), allow) && t.graph == s.graph
  {
    hide CatalogQuads, NodeBase, CatalogIri, QuadIsVisible;
    var node :| node in m && s.graph == NamedGraph(NodeBase(node));
    var q := Q(CatalogIri(NodeBase(node), m[node].id), RdfType, NamedNode(Term(CatalogClass)));
    CatalogIsNeverEmpty(isIri, m[node]);
    CatalogTypeIsVisible(isIri, m[node], allow);
    assert StoredQuad(q, s.graph) in StoreQuads(isIri, m);
    assert StoredQuad(q, s.graph) in VisiblePart(StoreQuads(isIri, m), allow);
  }

  lemma SubjectsAreIris(isIri: string -> bool, c: Catalog, q: Quad)
    requires q in CatalogQuads(isIri, c)
    ensures q.subject.NamedNode?
  {
    hide DatasetQuads, ServiceQuads, NodeBase, CatalogIri, PropertyQuads, DatasetIri, ServiceIri, Under;
    var base := NodeBase(c.originNode);
    PropertiesAreLiterals(isIri, c.properties, CatalogIri(base, c.id));
    forall i | 0 <= i < |c.datasets| {
      DatasetBelow(isIri, base, c.datasets[i], i);
    }
    forall i | 0 <= i < |c.dataServices| ensures AllBelow(ServiceQuads(isIri, base, c.dataServices[i], i), ServiceIri(base, c.dataServices[i].id)) {
      ServiceBelow(isIri, base, c.dataServices[i], i);
    }
  }

  lemma StoredIsWellFormed(isIri: string -> bool, m: map<string, Catalog>)
    requires forall node :: node in m ==> m[node].originNode == node
    ensures WellFormed(StoreQuads(isIri, m))
  {
    hide CatalogQuads, NodeBase, CatalogIri;
    forall s | s in StoreQuads(isIri, m) ensures !s.quad.subject.Literal? {
      var node :| node in m && s.quad in CatalogQuads(isIri, m[node]);
      SubjectsAreIris(isIri, m[node], s.quad);
    }
  }

  /** The named graphs listed are exactly those with something visible in them. */
  lemma NamedGraphsAreExact(isIri: string -> bool, m: map<string, Catalog>, allow: set<string>, index: set<GraphName>)
    requires forall node :: node in m ==> m[node].originNode == node
    requires forall s :: s in StoreQuads(isIri, m) ==> s.graph in index
    ensures var store := StoreQuads(isIri, m);
            && ViewGraphs(index, store) == PlainGraphs(VisiblePart(store, allow))
            && forall t :: ViewContains(store, t) <==> t in PlainGraphs(VisiblePart(store, allow))
  {
    hide StoreQuads, QuadIsVisible;
    var store := StoreQuads(isIri, m);
    forall s | s in store
      ensures s.graph.NamedGraph? && HoldsACatalog(store, s.graph)
      ensures exists t :: t in VisiblePart(store, allow) && t.graph == s.graph
    {
      StoredGraphsHoldCatalogs(isIri, m, allow, s);
    }
    forall g: GraphName ensures HoldsACatalog(store, g) <==> exists t :: t in VisiblePart(store, allow) && t.graph == g {
    }
  }

  // ----- Queries -----

  datatype Node = Var(name: string) | Const(term: RdfTerm)

  datatype TriplePattern = TriplePattern(subject: Node, pred: Node, obj: Node)

  /** The graph patterns match in: the union of the named graphs unless a
      `GRAPH` clause picks one. */
  datatype ActiveGraph = UnionOfGraphs | InNamed(term: RdfTerm)

  type Solution = map<string, RdfTerm>

  /** Queries as compositions of lookups (section 18 of the SPARQL 1.1 Query
      Language). `Lateral` evaluates its right side once per solution of the
      left, with that solution's terms bound. */
  datatype Query =
    | Triple(pattern: TriplePattern)
    | Join(left: Query, right: Query)
    | Lateral(left: Query, right: Query)
    | Optionally(left: Query, right: Query, condition: Solution -> bool)
    | Either(left: Query, right: Query)
    | Minus(left: Query, right: Query)
    | Filter(query: Query, condition: Solution -> bool)
    | Exists(query: Query, test: Query, wanted: bool)
    | Graph(graph: Node, query: Query)
    | Project(query: Query, vars: set<string>)

  /** What an evaluation reads: a lookup and the named graphs. */
  datatype Source = Source(lookup: Pattern -> set<Row>, graphs: set<RdfTerm>, contains: RdfTerm -> bool)

  function BoundNode(n: Node, bound: Solution): (t: Option<RdfTerm>) {
    match n
    case Const(t) => Some(t)
    case Var(v) => if v in bound then Some(bound[v]) else None
  }

  function PatternOf(t: TriplePattern, active: ActiveGraph, bound: Solution): (p: Pattern) {
    Pattern(BoundNode(t.subject, bound), BoundNode(t.pred, bound), BoundNode(t.obj, bound),
            match active case UnionOfGraphs => None case InNamed(g) => Some(Some(g)))
  }

  function BindNode(n: Node, t: RdfTerm, so: Option<Solution>): (r: Option<Solution>) {
    match (n, so)
    case (Var(v), Some(s)) => if v in s && s[v] != t then None else Some(s[v := t])
    case _ => so
  }

  function BindRow(t: TriplePattern, row: Row): (r: Option<Solution>) {
    BindNode(t.obj, row.obj, BindNode(t.pred, row.pred, BindNode(t.subject, row.subject, Some(map[]))))
  }

  predicate Compatible(a: Solution, b: Solution) {
    forall v :: v in a && v in b ==> a[v] == b[v]
  }

  function JoinAll(ls: set<Solution>, rs: set<Solution>): (r: set<Solution>) {
    set a, b | a in ls && b in rs && Compatible(a, b) :: a + b
  }

  /** The solutions of `q`, as a set. */
  function Eval(d: Source, q: Query, active: ActiveGraph, bound: Solution): (r: set<Solution>)
    decreases q
  {
    match q
    case Triple(t) =>
      set row | row in d.lookup(PatternOf(t, active, bound)) && BindRow(t, row).Some? :: BindRow(t, row).value
    case Join(l, r) => JoinAll(Eval(d, l, active, bound), Eval(d, r, active, bound))
    case Lateral(l, r) =>
      set a, b | a in Eval(d, l, active, bound) && b in Eval(d, r, active, bound + a) && Compatible(a, b) :: a + b
    case Optionally(l, r, condition) =>
      var ls, rs := Eval(d, l, active, bound), Eval(d, r, active, bound);
      (set s | s in JoinAll(ls, rs) && condition(s))
      + (set a | a in ls && forall b :: b in rs && Compatible(a, b) ==> !condition(a + b))
    case Either(l, r) => Eval(d, l, active, bound) + Eval(d, r, active, bound)
    case Minus(l, r) =>
      var rs := Eval(d, r, active, bound);
      set a | a in Eval(d, l, active, bound) && forall b :: b in rs && Compatible(a, b) ==> a.Keys !! b.Keys
    case Filter(inner, condition) => set a | a in Eval(d, inner, active, bound) && condition(bound + a)
    case Exists(inner, pattern, wanted) =>
      set a | a in Eval(d, inner, active, bound) && (Eval(d, pattern, active, bound + a) != {}) == wanted
    case Graph(g, inner) =>
      (match BoundNode(g, bound)
       case Some(t) => if d.contains(t) then Eval(d, inner, InNamed(t), bound) else {}
       case None =>
         set t, a | t in d.graphs && a in Eval(d, inner, InNamed(t), bound[g.name := t]) && (g.name in a ==> a[g.name] == t)
           :: a[g.name := t])
    case Project(inner, vars) => set a | a in Eval(d, inner, active, bound) :: map v | v in a && v in vars :: a[v]
  }

  ghost predicate SameSource(a: Source, b: Source) {
    && (forall p :: a.lookup(p) == b.lookup(p))
    && a.graphs == b.graphs
    && (forall t :: a.contains(t) == b.contains(t))
  }

  lemma {:induction false} SameAnswers(a: Source, b: Source, q: Query, active: ActiveGraph, bound: Solution)
    requires SameSource(a, b)
    ensures Eval(a, q, active, bound) == Eval(b, q, active, bound)
    decreases q
  {
    hide JoinAll, BindRow, PatternOf, Compatible, BoundNode;
    match q {
      case Triple(t) =>
      case Project(inner, _) => SameAnswers(a, b, inner, active, bound);
      case Filter(inner, _) => SameAnswers(a, b, inner, active, bound);
      case Lateral(l, r) =>
        SameAnswers(a, b, l, active, bound);
        forall s {
          SameAnswers(a, b, r, active, bound + s);
        }
      case Exists(inner, pattern, _) =>
        SameAnswers(a, b, inner, active, bound);
        forall s {
          SameAnswers(a, b, pattern, active, bound + s);
        }
      case Graph(g, inner) =>
        forall t, more {
          SameAnswers(a, b, inner, InNamed(t), more);
        }
        SameGraph(a, b, q, active, bound);
      case _ =>
        SameAnswers(a, b, q.left, active, bound);
        SameAnswers(a, b, q.right, active, bound);
        SamePair(a, b, q, active, bound);
    }
  }

  lemma SameGraph(a: Source, b: Source, q: Query, active: ActiveGraph, bound: Solution)
    requires q.Graph? && SameSource(a, b)
    requires forall t, more :: Eval(a, q.query, InNamed(t), more) == Eval(b, q.query, InNamed(t), more)
    ensures Eval(a, q, active, bound) == Eval(b, q, active, bound)
  {
    hide JoinAll, BindRow, PatternOf;
  }

  lemma SamePair(a: Source, b: Source, q: Query, active: ActiveGraph, bound: Solution)
    requires q.Join? || q.Optionally? || q.Either? || q.Minus?
    requires Eval(a, q.left, active, bound) == Eval(b, q.left, active, bound)
    requires Eval(a, q.right, active, bound) == Eval(b, q.right, active, bound)
    ensures Eval(a, q, active, bound) == Eval(b, q, active, bound)
  {
    hide JoinAll, Compatible;
  }

  function ViewOf(index: set<GraphName>, store: set<StoredQuad>, allow: set<string>): (d: Source) {
    Source(p => Lookup(store, allow, p), ViewGraphs(index, store), t => ViewContains(store, t))
  }

  function PlainOf(store: set<StoredQuad>): (d: Source) {
    Source(p => PlainLookup(store, p), PlainGraphs(store), t => t in PlainGraphs(store))
  }

  /** Every query over the view gives what it would over the store with the
      hidden quads removed. */
  lemma QueriesSeeOnlyTheVisible(
    isIri: string -> bool, m: map<string, Catalog>, allow: set<string>, index: set<GraphName>, q: Query)
    requires forall node :: node in m ==> m[node].originNode == node
    requires forall s :: s in StoreQuads(isIri, m) ==> s.graph in index
    ensures var store := StoreQuads(isIri, m);
            Eval(ViewOf(index, store, allow), q, UnionOfGraphs, map[]) ==
            Eval(PlainOf(VisiblePart(store, allow)), q, UnionOfGraphs, map[])
  {
    hide StoreQuads, Lookup, PlainLookup, ViewGraphs, PlainGraphs, ViewContains, Eval, VisiblePart, WellFormed;
    var store := StoreQuads(isIri, m);
    StoredIsWellFormed(isIri, m);
    forall p {
      LookupIsExact(store, allow, p);
    }
    NamedGraphsAreExact(isIri, m, allow, index);
    SameAnswers(ViewOf(index, store, allow), PlainOf(VisiblePart(store, allow)), q, UnionOfGraphs, map[]);
  }
}
