/** What the answers to a basic graph pattern are (section 18.3 of the SPARQL 1.1
    Query Language), over the filtered view (`VisibleDataset`, `sparql.rs`). */
module BasicPatterns {
  import opened Text
  import opened CatalogCore
  import opened Vocabulary
  import opened Write
  import opened Store
  import opened Visibility
  import opened View

  /** Triple patterns put together by joins of either kind, in any order. */
  predicate Basic(q: Query) {
    q.Triple? || ((q.Join? || q.Lateral?) && Basic(q.left) && Basic(q.right))
  }

  function Triples(q: Query): (ts: set<TriplePattern>)
    requires Basic(q)
  {
    if q.Triple? then {q.pattern} else Triples(q.left) + Triples(q.right)
  }

  function NodeVars(n: Node): (vs: set<string>) {
    if n.Var? then {n.name} else {}
  }

  function TripleVars(t: TriplePattern): (vs: set<string>) {
    NodeVars(t.subject) + NodeVars(t.pred) + NodeVars(t.obj)
  }

  function Vars(q: Query): (vs: set<string>)
    requires Basic(q)
  {
    if q.Triple? then TripleVars(q.pattern) else Vars(q.left) + Vars(q.right)
  }

  /** Under `sol`, `n` stands for `t`. */
  predicate StandsFor(n: Node, sol: Solution, t: RdfTerm) {
    match n
    case Const(c) => c == t
    case Var(v) => v in sol && sol[v] == t
  }

  /** `s` is what the pattern says once its variables are replaced. */
  predicate IsInstance(t: TriplePattern, sol: Solution, active: ActiveGraph, s: StoredQuad) {
    && StandsFor(t.subject, sol, s.quad.subject) && StandsFor(t.pred, sol, NamedNode(s.quad.pred)) && StandsFor(t.obj, sol, s.quad.obj)
    && match active
       case UnionOfGraphs => s.graph != DefaultGraph
       case InNamed(g) =>
         match s.graph
         case DefaultGraph => false
         case NamedGraph(name) => g == Resource(name)
         case BlankGraph(name) => g == BlankNode(name)
  }

  /** Some visible stored quad is what the pattern says. */
  ghost predicate Holds(store: set<StoredQuad>, allow: set<string>, t: TriplePattern, sol: Solution, active: ActiveGraph) {
    exists s :: s in store && QuadIsVisible(s.quad, allow) && IsInstance(t, sol, active, s)
  }

  predicate ConstantIs(n: Node, t: RdfTerm) {
    n.Const? ==> n.term == t
  }

  predicate PartOf(a: Solution, b: Solution) {
    forall v :: v in a ==> v in b && b[v] == a[v]
  }

  lemma BindsStep(n: Node, t: RdfTerm, so: Solution, sol: Solution)
    requires ConstantIs(n, t)
    ensures var r := BindNode(n, t, Some(so));
            && (r.Some? ==> PartOf(so, r.value) && StandsFor(n, r.value, t) && r.value.Keys == so.Keys + NodeVars(n))
            && (PartOf(so, sol) && StandsFor(n, sol, t) ==> r.Some? && PartOf(r.value, sol))
  {
  }

  /** A row binds the variables of the pattern to its terms, or nothing when one
      variable would get two. */
  lemma BindsRow(t: TriplePattern, row: Row, sol: Solution)
    requires ConstantIs(t.subject, row.subject) && ConstantIs(t.pred, row.pred) && ConstantIs(t.obj, row.obj)
    ensures BindRow(t, row) == Some(sol) <==>
            && sol.Keys == TripleVars(t)
            && StandsFor(t.subject, sol, row.subject) && StandsFor(t.pred, sol, row.pred) && StandsFor(t.obj, sol, row.obj)
  {
    hide BindNode;
    var one := BindNode(t.subject, row.subject, Some(map[]));
    BindsStep(t.subject, row.subject, map[], sol);
    if one.Some? {
      BindsStep(t.pred, row.pred, one.value, sol);
      var two := BindNode(t.pred, row.pred, one);
      if two.Some? {
        BindsStep(t.obj, row.obj, two.value, sol);
      } else {
        assert BindRow(t, row) == None by { BindsNothing(t.obj, row.obj); }
      }
    } else {
      BindsNothing(t.pred, row.pred);
      BindsNothing(t.obj, row.obj);
    }
    if sol.Keys == TripleVars(t)
       && StandsFor(t.subject, sol, row.subject) && StandsFor(t.pred, sol, row.pred) && StandsFor(t.obj, sol, row.obj) {
      assert BindRow(t, row).Some? && PartOf(BindRow(t, row).value, sol) && BindRow(t, row).value.Keys == sol.Keys;
      assert BindRow(t, row).value == sol;
    }
  }

  lemma BindsNothing(n: Node, t: RdfTerm)
    ensures BindNode(n, t, None) == None
  {
  }

  /** `sol` gives its variables what they are already bound to. */
  predicate Agrees(sol: Solution, bound: Solution) {
    forall v :: v in sol && v in bound ==> sol[v] == bound[v]
  }

  lemma BoundNodeAgrees(n: Node, t: RdfTerm, bound: Solution)
    ensures BoundNode(n, bound) in {None, Some(t)} <==>
            ConstantIs(n, t) && (n.Var? && n.name in bound ==> bound[n.name] == t)
  {
  }

  /** The solutions of one triple pattern: they bind its variables and no
      others, keep what is bound, and turn it into a visible stored quad. */
  lemma TripleSolutions(store: set<StoredQuad>, allow: set<string>, index: set<GraphName>, t: TriplePattern, active: ActiveGraph, bound: Solution, sol: Solution)
    requires WellFormed(store)
    ensures sol in Eval(ViewOf(index, store, allow), Triple(t), active, bound) <==>
            sol.Keys == TripleVars(t) && Agrees(sol, bound) && Holds(store, allow, t, sol, active)
  {
    hide QuadIsVisible, Lookup, BindRow, WellFormed;
    var p := PatternOf(t, active, bound);
    var d := ViewOf(index, store, allow);
    assert d.lookup(p) == Lookup(store, allow, p);
    assert sol in Eval(d, Triple(t), active, bound) <==> exists row :: row in Lookup(store, allow, p) && BindRow(t, row) == Some(sol);
    if row :| row in Lookup(store, allow, p) && BindRow(t, row) == Some(sol) {
      LookupReports(store, allow, p, row);
      var s :| s in store && QuadIsVisible(s.quad, allow) && Reports(row, s) && Answers(row, p);
      AnswersAgree(t, active, bound, row, s, sol);
      assert IsInstance(t, sol, active, s);
    }
    if sol.Keys == TripleVars(t) && Agrees(sol, bound) && Holds(store, allow, t, sol, active) {
      var s :| s in store && QuadIsVisible(s.quad, allow) && IsInstance(t, sol, active, s);
      var row := RowOf(s);
      assert Reports(row, s);
      InstanceAnswers(t, active, bound, row, s, sol);
      LookupReports(store, allow, p, row);
    }
  }

  lemma AnswersAgree(t: TriplePattern, active: ActiveGraph, bound: Solution, row: Row, s: StoredQuad, sol: Solution)
    requires Reports(row, s) && Answers(row, PatternOf(t, active, bound)) && BindRow(t, row) == Some(sol)
    ensures sol.Keys == TripleVars(t) && Agrees(sol, bound) && IsInstance(t, sol, active, s)
  {
    BoundNodeAgrees(t.subject, row.subject, bound);
    BoundNodeAgrees(t.pred, row.pred, bound);
    BoundNodeAgrees(t.obj, row.obj, bound);
    hide BoundNode, BindRow;
    BindsRow(t, row, sol);
  }

  lemma InstanceAnswers(t: TriplePattern, active: ActiveGraph, bound: Solution, row: Row, s: StoredQuad, sol: Solution)
    requires Reports(row, s) && sol.Keys == TripleVars(t) && Agrees(sol, bound) && IsInstance(t, sol, active, s)
    ensures Answers(row, PatternOf(t, active, bound)) && BindRow(t, row) == Some(sol)
  {
    BoundNodeAgrees(t.subject, row.subject, bound);
    BoundNodeAgrees(t.pred, row.pred, bound);
    BoundNodeAgrees(t.obj, row.obj, bound);
    hide BoundNode, BindRow;
    BindsRow(t, row, sol);
  }

  ghost predicate AllHold(store: set<StoredQuad>, allow: set<string>, q: Query, sol: Solution, active: ActiveGraph)
    requires Basic(q)
  {
    forall t :: t in Triples(q) ==> Holds(store, allow, t, sol, active)
  }

  function Part(sol: Solution, vs: set<string>): (r: Solution) {
    map v | v in sol && v in vs :: sol[v]
  }

  lemma {:induction false} TriplesHaveVars(q: Query, t: TriplePattern)
    requires Basic(q) && t in Triples(q)
    ensures TripleVars(t) <= Vars(q)
  {
    if !q.Triple? {
      if t in Triples(q.left) {
        TriplesHaveVars(q.left, t);
      } else {
        TriplesHaveVars(q.right, t);
      }
    }
  }

  /** Whether a pattern holds depends on its own variables only. */
  lemma SameHold(store: set<StoredQuad>, allow: set<string>, q: Query, a: Solution, b: Solution, active: ActiveGraph)
    requires Basic(q) && forall v :: v in Vars(q) ==> v in a && v in b && a[v] == b[v]
    ensures AllHold(store, allow, q, a, active) <==> AllHold(store, allow, q, b, active)
  {
    hide QuadIsVisible, Vars, Triples;
    forall t | t in Triples(q) ensures Holds(store, allow, t, a, active) <==> Holds(store, allow, t, b, active) {
      TriplesHaveVars(q, t);
      forall s ensures IsInstance(t, a, active, s) <==> IsInstance(t, b, active, s) {
      }
      hide IsInstance;
    }
  }

  /** `sol` binds exactly the variables of `q`, keeps what is bound, and makes
      every triple pattern of `q` a visible stored quad. */
  ghost predicate Solves(store: set<StoredQuad>, allow: set<string>, q: Query, active: ActiveGraph, bound: Solution, sol: Solution)
    requires Basic(q)
  {
    sol.Keys == Vars(q) && Agrees(sol, bound) && AllHold(store, allow, q, sol, active)
  }

  /** What the right side of a join is evaluated with. */
  function BoundRight(q: Query, bound: Solution, a: Solution): (more: Solution) {
    if q.Lateral? then bound + a else bound
  }

  lemma PairsMerge(
    store: set<StoredQuad>, allow: set<string>, q: Query, active: ActiveGraph, bound: Solution, a: Solution, b: Solution)
    requires Basic(q) && !q.Triple? && Compatible(a, b)
    requires Solves(store, allow, q.left, active, bound, a) && Solves(store, allow, q.right, active, BoundRight(q, bound, a), b)
    ensures Solves(store, allow, q, active, bound, a + b)
  {
    hide Holds;
    var sol := a + b;
    assert sol.Keys == a.Keys + b.Keys && forall v :: v in a ==> sol[v] == a[v];
    SameHold(store, allow, q.left, a, sol, active);
    SameHold(store, allow, q.right, b, sol, active);
  }

  lemma SolutionsSplit(store: set<StoredQuad>, allow: set<string>, q: Query, active: ActiveGraph, bound: Solution, sol: Solution)
    returns (a: Solution, b: Solution)
    requires Basic(q) && !q.Triple? && Solves(store, allow, q, active, bound, sol)
    ensures Compatible(a, b) && a + b == sol
    ensures Solves(store, allow, q.left, active, bound, a) && Solves(store, allow, q.right, active, BoundRight(q, bound, a), b)
  {
    hide Holds;
    a, b := Part(sol, Vars(q.left)), Part(sol, Vars(q.right));
    assert a.Keys == Vars(q.left) && b.Keys == Vars(q.right);
    assert a + b == sol;
    SameHold(store, allow, q.left, a, sol, active);
    SameHold(store, allow, q.right, b, sol, active);
  }

  lemma EvalPairs(d: Source, q: Query, active: ActiveGraph, bound: Solution, sol: Solution)
    requires q.Join? || q.Lateral?
    ensures sol in Eval(d, q, active, bound) <==>
            exists a, b :: a in Eval(d, q.left, active, bound) && b in Eval(d, q.right, active, BoundRight(q, bound, a))
                           && Compatible(a, b) && a + b == sol
  {
    hide Compatible;
  }

  /** However the triple patterns are joined, the answers are the solutions, and
      no others. */
  lemma {:induction false} BasicSolutions(
    store: set<StoredQuad>, allow: set<string>, index: set<GraphName>, q: Query, active: ActiveGraph, bound: Solution, sol: Solution)
    requires WellFormed(store) && Basic(q)
    ensures sol in Eval(ViewOf(index, store, allow), q, active, bound) <==> Solves(store, allow, q, active, bound, sol)
    decreases q
  {
    if q.Triple? {
      TripleSolutions(store, allow, index, q.pattern, active, bound, sol);
      hide Holds, Eval, ViewOf, WellFormed, TripleVars, Agrees;
      assert Triples(q) == {q.pattern};
    } else {
      var d := ViewOf(index, store, allow);
      hide ViewOf, WellFormed, Solves, Eval, Compatible, BoundRight;
      EvalPairs(d, q, active, bound, sol);
      if a, b :| a in Eval(d, q.left, active, bound) && b in Eval(d, q.right, active, BoundRight(q, bound, a)) && Compatible(a, b) && a + b == sol {
        BasicSolutions(store, allow, index, q.left, active, bound, a);
        BasicSolutions(store, allow, index, q.right, active, BoundRight(q, bound, a), b);
        PairsMerge(store, allow, q, active, bound, a, b);
      }
      if Solves(store, allow, q, active, bound, sol) {
        var a, b := SolutionsSplit(store, allow, q, active, bound, sol);
        BasicSolutions(store, allow, index, q.left, active, bound, a);
        BasicSolutions(store, allow, index, q.right, active, BoundRight(q, bound, a), b);
      }
    }
  }
}
