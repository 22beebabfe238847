/** The whole path of a filtered query: what the protocol lets through, read
    through the view, is an answer over what `GET /catalog` serves of one
    committed state of the store. */
module EndToEnd {
  import opened Text
  import opened CatalogCore
  import opened Vocabulary
  import opened Write
  import opened Store
  import opened PolicyRoutes
  import opened Visibility
  import opened Commute
  import opened View
  import Protocol

  /** An evaluation each of whose reads (a lookup, the listing of one graph, the
      test of one) goes through the view of some store state in `looked`,
      possibly another one each time. */
  ghost predicate ReadsThrough(
    isIri: string -> bool, d: Source, index: set<GraphName>, looked: seq<Protocol.Graphs>, visible: set<string>)
  {
    && (forall p :: exists i :: 0 <= i < |looked| && d.lookup(p) == Lookup(StoreQuads(isIri, looked[i]), visible, p))
    && (forall t :: exists i :: 0 <= i < |looked| && (t in d.graphs <==> t in ViewGraphs(index, StoreQuads(isIri, looked[i]))))
    && (forall t :: exists i :: 0 <= i < |looked| && d.contains(t) == ViewContains(StoreQuads(isIri, looked[i]), t))
  }

  /** The store as `GET /catalog` would serve it to the caller, without
      position numbers. */
  function ServedStore(isIri: string -> bool, m: map<string, Catalog>, decide: Dataset -> bool): (store: set<StoredQuad>) {
    set node, q | node in m && q in Served(isIri, m[node], decide) :: StoredQuad(q, NamedGraph(NodeBase(node)))
  }

  /** Nothing a visible entry of the store says names a hidden resource or an
      unlisted service. */
  ghost predicate StoreSelfContained(isIri: string -> bool, m: map<string, Catalog>, decide: Dataset -> bool) {
    forall node :: node in m ==> SelfContained(isIri, m[node], decide, AllowList(m, decide))
  }

  /** Hiding quads of the whole store gives the store of the filtered catalogs;
      in general it gives no more. */
  lemma VisibleIsServed(isIri: string -> bool, m: map<string, Catalog>, decide: Dataset -> bool)
    requires StoreCatalogs(m)
    ensures VisiblePart(StoreQuads(isIri, m), AllowList(m, decide)) <= ServedStore(isIri, m, decide)
    ensures StoreSelfContained(isIri, m, decide) ==>
              VisiblePart(StoreQuads(isIri, m), AllowList(m, decide)) == ServedStore(isIri, m, decide)
  {
    hide AllowList, CatalogQuads, Served, SelfContained, NodeBase, QuadIsVisible, StoreCatalogs;
    var allow := AllowList(m, decide);
    forall node | node in m
      ensures Shown(isIri, m[node], allow) <= Served(isIri, m[node], decide)
      ensures SelfContained(isIri, m[node], decide, allow) ==> Shown(isIri, m[node], allow) == Served(isIri, m[node], decide)
    {
      RoutesShowTheSame(isIri, m, decide, node);
    }
    forall s | s in VisiblePart(StoreQuads(isIri, m), allow) ensures s in ServedStore(isIri, m, decide) {
      var node :| node in m && s.quad in CatalogQuads(isIri, m[node]) && s.graph == NamedGraph(NodeBase(node));
      assert s.quad in Shown(isIri, m[node], allow);
    }
    if StoreSelfContained(isIri, m, decide) {
      forall s | s in ServedStore(isIri, m, decide) ensures s in VisiblePart(StoreQuads(isIri, m), allow) {
        var node :| node in m && s.quad in Served(isIri, m[node], decide) && s.graph == NamedGraph(NodeBase(node));
        assert s.quad in Shown(isIri, m[node], allow);
      }
    }
  }

  /** An evaluation that read one state only is an evaluation over that state's view. */
  lemma OneStateIsOneView(
    isIri: string -> bool, d: Source, index: set<GraphName>, looked: seq<Protocol.Graphs>, visible: set<string>, state: Protocol.Graphs)
    requires ReadsThrough(isIri, d, index, looked, visible)
    requires forall i :: 0 <= i < |looked| ==> looked[i] == state
    ensures SameSource(d, ViewOf(index, StoreQuads(isIri, state), visible))
  {
    hide Lookup, ViewGraphs, ViewContains, StoreQuads;
  }

  /** The decisions the protocol caches, made per catalog the way the routes do. */
  ghost predicate DecidesAsRoutes(cfg: Protocol.Config, key: string, decide: Dataset -> bool) {
    forall c :: cfg.decide(key, c) == VisibleResourceIris(c, decide)
  }

  lemma ListIsAllowList(cfg: Protocol.Config, key: string, decide: Dataset -> bool, m: map<string, Catalog>)
    requires DecidesAsRoutes(cfg, key, decide)
    ensures Protocol.AllowedIn(cfg, key, m, m.Keys) == AllowList(m, decide)
  {
    hide VisibleResourceIris;
  }

  lemma CommittedCatalogs(cfg: Protocol.Config, steps: seq<Protocol.Step>, state: Protocol.Graphs)
    requires Protocol.Committed(cfg, steps, state)
    requires forall step :: step in steps && step.Commit? ==> StoreCatalogs(step.next)
    ensures StoreCatalogs(state)
  {
    hide Protocol.Committed;
    var holds := (m: Protocol.Graphs) => StoreCatalogs(m);
    Protocol.CommittedHolds(cfg, steps, state, holds);
    assert holds(state);
  }

  /** Whatever interleaving of writers and readers led to it: a result returned
      to a caller answers the query over the visible part of one committed
      state, which holds no more than the filtered catalogs of that state, and
      exactly those when they are self-contained. */
  lemma ReturnedResultsAnswerOverOneFilteredState(
    isIri: string -> bool, cfg: Protocol.Config, steps: seq<Protocol.Step>, r: nat, decide: Dataset -> bool,
    d: Source, index: set<GraphName>, q: Query)
    requires Protocol.StateAfter(cfg, steps).Some?
    requires r in Protocol.StateAfter(cfg, steps).value.readers && Protocol.StateAfter(cfg, steps).value.readers[r].Returned?
    requires cfg.strict || Protocol.StateAfter(cfg, steps).value.readers[r].quiet
    requires DecidesAsRoutes(cfg, Protocol.StateAfter(cfg, steps).value.readers[r].key, decide)
    // What is committed is what the store writes: catalogs under their own nodes.
    requires forall step :: step in steps && step.Commit? ==> StoreCatalogs(step.next)
    // A lookup the query never makes is taken to read the last state.
    requires var reader := Protocol.StateAfter(cfg, steps).value.readers[r];
             && (forall s :: s in StoreQuads(isIri, reader.asOf) ==> s.graph in index)
             && ReadsThrough(isIri, d, index, reader.looked + [reader.asOf], reader.visible)
    ensures var state := Protocol.StateAfter(cfg, steps).value.readers[r].asOf;
            && Protocol.Committed(cfg, steps, state)
            && Eval(d, q, UnionOfGraphs, map[]) ==
               Eval(PlainOf(VisiblePart(StoreQuads(isIri, state), AllowList(state, decide))), q, UnionOfGraphs, map[])
            && VisiblePart(StoreQuads(isIri, state), AllowList(state, decide)) <= ServedStore(isIri, state, decide)
            && (StoreSelfContained(isIri, state, decide) ==>
                  Eval(d, q, UnionOfGraphs, map[]) == Eval(PlainOf(ServedStore(isIri, state, decide)), q, UnionOfGraphs, map[]))
  {
    var reader := Protocol.StateAfter(cfg, steps).value.readers[r];
    var state := reader.asOf;
    Protocol.ResultsUseOneState(cfg, steps, r);
    CommittedCatalogs(cfg, steps, state);
    assert forall node :: node in state ==> state[node].originNode == node;
    assert reader.visible == Protocol.AllowedIn(cfg, reader.key, state, state.Keys)
           && forall i :: 0 <= i < |reader.looked + [state]| ==> (reader.looked + [state])[i] == state;
    hide *;
    ListIsAllowList(cfg, reader.key, decide, state);
    OneStateIsOneView(isIri, d, index, reader.looked + [state], reader.visible, state);
    SameAnswers(d, ViewOf(index, StoreQuads(isIri, state), reader.visible), q, UnionOfGraphs, map[]);
    QueriesSeeOnlyTheVisible(isIri, state, reader.visible, index, q);
    VisibleIsServed(isIri, state, decide);
  }
}
