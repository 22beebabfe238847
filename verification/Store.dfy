/** The quad store (`mod.rs`): one named graph per node, replaced and deleted
    as a whole, so that it amounts to a map from node to catalog. */
module Store {
  import opened Text
  import opened CatalogCore
  import opened Vocabulary
  import opened Write
  import opened Read
  import opened Snapshot
  import opened Subtrees
  import opened RoundTrip

  datatype GraphName = DefaultGraph | NamedGraph(name: string) | BlankGraph(name: string)

  datatype StoredQuad = StoredQuad(quad: Quad, graph: GraphName)

  // ----- The store as a map -----

  function GraphQuads(store: set<StoredQuad>, graph: string): (qs: set<Quad>) {
    set s | s in store && s.graph == NamedGraph(graph) :: s.quad
  }

  function InGraph(qs: set<Quad>, graph: string): (store: set<StoredQuad>) {
    set q | q in qs :: StoredQuad(q, NamedGraph(graph))
  }

  /** The store holding exactly the catalogs of `m`. */
  function StoreQuads(isIri: string -> bool, m: map<string, Catalog>): (store: set<StoredQuad>) {
    set node, q | node in m && q in CatalogQuads(isIri, m[node]) :: StoredQuad(q, NamedGraph(NodeBase(node)))
  }

  /** Each catalog is filed under its own node and can be read back. */
  ghost predicate Filed(isIri: string -> bool, m: map<string, Catalog>) {
    forall node :: node in m ==> m[node].originNode == node && CatalogFits(m[node]) && Storable(isIri, m[node])
  }

  /** What the store holds after `upsert`: its graph replaced, all others kept. */
  function Replaced(store: set<StoredQuad>, graph: string, qs: set<Quad>): (r: set<StoredQuad>) {
    (set s | s in store && s.graph != NamedGraph(graph)) + InGraph(qs, graph)
  }

  lemma NodeBaseInjective(node: string, node': string)
    ensures NodeBase(node) == NodeBase(node') <==> node == node'
  {
    hide Encode, NODE_NS;
    if NodeBase(node) == NodeBase(node') {
      assert NodeBase(node)[|NODE_NS|..] == Encode(node) && NodeBase(node')[|NODE_NS|..] == Encode(node');
      EncodeInjective(node, node');
    }
  }

  /** Replacing one node's graph is updating one entry of the map. */
  lemma UpsertIsMapUpdate(isIri: string -> bool, m: map<string, Catalog>, c: Catalog)
    ensures Replaced(StoreQuads(isIri, m), NodeBase(c.originNode), CatalogQuads(isIri, c)) ==
            StoreQuads(isIri, m[c.originNode := c])
  {
    hide NodeBase, CatalogQuads;
    forall node {
      NodeBaseInjective(node, c.originNode);
    }
    var after, m' := Replaced(StoreQuads(isIri, m), NodeBase(c.originNode), CatalogQuads(isIri, c)), m[c.originNode := c];
    forall s ensures s in after <==> s in StoreQuads(isIri, m') {
      if s in after && s in StoreQuads(isIri, m) && s.graph != NamedGraph(NodeBase(c.originNode)) {
        var node :| node in m && s.graph == NamedGraph(NodeBase(node)) && s.quad in CatalogQuads(isIri, m[node]);
        assert node in m' && m'[node] == m[node];
      }
    }
  }

  lemma DeleteIsMapRemoval(isIri: string -> bool, m: map<string, Catalog>, node: string)
    ensures Replaced(StoreQuads(isIri, m), NodeBase(node), {}) == StoreQuads(isIri, m - {node})
  {
    hide NodeBase, CatalogQuads;
    forall other {
      NodeBaseInjective(other, node);
    }
  }

  lemma GraphHoldsItsCatalog(isIri: string -> bool, m: map<string, Catalog>, node: string)
    ensures GraphQuads(StoreQuads(isIri, m), NodeBase(node)) == if node in m then CatalogQuads(isIri, m[node]) else {}
  {
    hide NodeBase, CatalogQuads;
    forall other {
      NodeBaseInjective(other, node);
    }
    var qs := GraphQuads(StoreQuads(isIri, m), NodeBase(node));
    if node in m {
      forall q | q in CatalogQuads(isIri, m[node]) ensures q in qs {
        assert StoredQuad(q, NamedGraph(NodeBase(node))) in StoreQuads(isIri, m);
      }
    }
  }

  lemma CatalogIsNeverEmpty(isIri: string -> bool, c: Catalog)
    ensures Q(CatalogIri(NodeBase(c.originNode), c.id), RdfType, NamedNode(Term(CatalogClass))) in CatalogQuads(isIri, c)
  {
    hide NodeBase, CatalogIri, DatasetListQuads, ServiceListQuads, PropertyQuads;
  }

  // ----- Listing order -----

  /** Rust's order on strings. */
  predicate StringLess(a: string, b: string) {
    b != "" && (a == "" || a[0] < b[0] || (a[0] == b[0] && StringLess(a[1..], b[1..])))
  }

  lemma {:induction false} StringLessTotal(a: string, b: string)
    ensures StringLess(a, b) || a == b || StringLess(b, a)
    ensures !(StringLess(a, b) && StringLess(b, a)) && !(a == b && StringLess(a, b))
  {
    if a != "" && b != "" {
      assert a == [a[0]] + a[1..] && b == [b[0]] + b[1..];
      StringLessTotal(a[1..], b[1..]);
    }
  }

  /** The first difference decides; a prefix comes first. */
  lemma {:induction false} StringLessIs(a: string, b: string)
    ensures StringLess(a, b) <==>
            exists k: nat :: k <= |a| && k < |b| && a[..k] == b[..k] && (k == |a| || a[k] < b[k])
  {
    forall k | 0 < k <= |a| && k <= |b| && a[..k] == b[..k] ensures a[0] == b[0] {
      assert a[..k][0] == b[..k][0];
    }
    if b != "" && a != "" && a[0] == b[0] {
      StringLessIs(a[1..], b[1..]);
      if k: nat :| k <= |a[1..]| && k < |b[1..]| && a[1..][..k] == b[1..][..k] && (k == |a[1..]| || a[1..][k] < b[1..][k]) {
        assert a[..k + 1] == [a[0]] + a[1..][..k] && b[..k + 1] == [b[0]] + b[1..][..k];
      }
      if k: nat :| k <= |a| && k < |b| && a[..k] == b[..k] && (k == |a| || a[k] < b[k]) {
        assert k > 0;
        assert a[1..][..k - 1] == a[..k][1..] && b[1..][..k - 1] == b[..k][1..];
      }
    } else {
      if b != "" && (a == "" || a[0] < b[0]) {
        assert a[..0] == b[..0];
      }
    }
  }

  lemma {:induction false} StringLessTransitive(a: string, b: string, c: string)
    requires StringLess(a, b) && StringLess(b, c)
    ensures StringLess(a, c)
  {
    if a != "" && a[0] == b[0] && b[0] == c[0] {
      StringLessTransitive(a[1..], b[1..], c[1..]);
    }
  }

  /** Listed by catalog id; the node breaks ties, since ids may repeat. */
  predicate ListedBefore(a: Catalog, b: Catalog) {
    StringLess(a.id, b.id) || (a.id == b.id && StringLess(a.originNode, b.originNode))
  }

  lemma ListedBeforeTotal(a: Catalog, b: Catalog)
    ensures ListedBefore(a, b) || ListedBefore(b, a) || (a.id == b.id && a.originNode == b.originNode)
    ensures !(ListedBefore(a, b) && ListedBefore(b, a)) && !ListedBefore(a, a)
  {
    hide StringLess;
    StringLessTotal(a.id, b.id);
    StringLessTotal(a.originNode, b.originNode);
    StringLessTotal(a.id, a.id);
    StringLessTotal(a.originNode, a.originNode);
  }

  lemma ListedBeforeTransitive(a: Catalog, b: Catalog, c: Catalog)
    requires ListedBefore(a, b) && ListedBefore(b, c)
    ensures ListedBefore(a, c)
  {
    hide StringLess;
    if StringLess(a.id, b.id) && StringLess(b.id, c.id) {
      StringLessTransitive(a.id, b.id, c.id);
    } else if a.id == b.id == c.id {
      StringLessTransitive(a.originNode, b.originNode, c.originNode);
    }
  }

  function InsertCatalog(c: Catalog, sorted: seq<Catalog>): (r: seq<Catalog>)
    ensures forall x :: x in r <==> x == c || x in sorted
    ensures |r| == |sorted| + 1
  {
    if sorted == [] || !ListedBefore(sorted[0], c) then [c] + sorted else [sorted[0]] + InsertCatalog(c, sorted[1..])
  }

  function SortCatalogs(cs: seq<Catalog>): (r: seq<Catalog>)
    ensures forall x :: x in r <==> x in cs
    ensures |r| == |cs|
  {
    if cs == [] then [] else InsertCatalog(cs[0], SortCatalogs(cs[1..]))
  }

  ghost predicate InOrder(cs: seq<Catalog>) {
    forall i, j :: 0 <= i < j < |cs| ==> ListedBefore(cs[i], cs[j])
  }

  predicate DistinctNodes(cs: seq<Catalog>) {
    forall i, j :: 0 <= i < j < |cs| ==> cs[i].originNode != cs[j].originNode
  }

  /** The one list of the catalogs of `m`: each of them once, in order. */
  ghost predicate IsListing(m: map<string, Catalog>, cs: seq<Catalog>) {
    InOrder(cs) && forall c :: c in cs <==> c in m.Values
  }

  lemma {:induction false} InsertKeepsOrder(c: Catalog, sorted: seq<Catalog>)
    requires InOrder(sorted)
    requires forall x :: x in sorted ==> x.originNode != c.originNode
    ensures InOrder(InsertCatalog(c, sorted))
  {
    hide ListedBefore;
    if sorted == [] {
    } else {
      ListedBeforeTotal(c, sorted[0]);
      if !ListedBefore(sorted[0], c) {
        forall j | 0 < j < |sorted| ensures ListedBefore(c, sorted[j]) {
          ListedBeforeTransitive(c, sorted[0], sorted[j]);
        }
      } else {
        var rest := InsertCatalog(c, sorted[1..]);
        InsertKeepsOrder(c, sorted[1..]);
        forall j | 0 <= j < |rest| ensures ListedBefore(sorted[0], rest[j]) {
          assert rest[j] in rest;
        }
      }
    }
  }

  lemma {:induction false} SortKeepsOrder(cs: seq<Catalog>)
    requires DistinctNodes(cs)
    ensures InOrder(SortCatalogs(cs))
  {
    hide InsertCatalog, ListedBefore;
    if cs != [] {
      SortKeepsOrder(cs[1..]);
      InsertKeepsOrder(cs[0], SortCatalogs(cs[1..]));
    }
  }

  /** Whatever order the graphs come back in, the list is the same. */
  lemma {:induction false} ListingIsUnique(a: seq<Catalog>, b: seq<Catalog>)
    requires InOrder(a) && InOrder(b)
    requires forall c :: c in a <==> c in b
    ensures a == b
  {
    hide ListedBefore;
    assert b != [] ==> b[0] in a;
    if a == [] {
    } else {
      assert a[0] in b && b != [] && b[0] in a;
      var i :| 0 <= i < |b| && b[i] == a[0];
      var j :| 0 <= j < |a| && a[j] == b[0];
      ListedBeforeTotal(a[0], b[0]);
      assert a[0] == b[0];
      forall c ensures c in a[1..] <==> c in b[1..] {
        ListedBeforeTotal(c, c);
        assert c in a[1..] ==> c in a && c != a[0];
        assert c in b[1..] ==> c in b && c != b[0];
        assert c in a && c != a[0] ==> c in a[1..];
        assert c in b && c != b[0] ==> c in b[1..];
      }
      ListingIsUnique(a[1..], b[1..]);
      assert a == [a[0]] + a[1..] && b == [b[0]] + b[1..];
    }
  }

  /** Every store has such a list. */
  lemma {:induction false} EveryStoreHasAListing(m: map<string, Catalog>)
    requires forall node :: node in m ==> m[node].originNode == node
    ensures exists cs :: IsListing(m, cs)
    decreases |m|
  {
    hide ListedBefore, InsertCatalog;
    if m == map[] {
      assert IsListing(m, []);
    } else {
      var node :| node in m;
      var others := m - {node};
      assert m == others[node := m[node]];
      assert |m.Keys| == |m| && |others.Keys| == |others| && m.Keys == others.Keys + {node};
      EveryStoreHasAListing(others);
      var rest :| IsListing(others, rest);
      var cs := InsertCatalog(m[node], rest);
      InsertKeepsOrder(m[node], rest);
      forall c ensures c in cs <==> c in m.Values {
        if c in m.Values && c != m[node] {
          var other :| other in m && m[other] == c;
          assert other in others && others[other] == c;
        }
        if c in rest {
          var other :| other in others && others[other] == c;
          assert m[other] == c;
        }
      }
      assert IsListing(m, cs);
    }
  }

  // ----- Pages -----

  function Page(cs: seq<Catalog>, offset: nat, limit: Option<nat>): (page: seq<Catalog>) {
    var rest := if offset <= |cs| then cs[offset..] else [];
    match limit
    case Some(n) => if n <= |rest| then rest[..n] else rest
    case None => rest
  }

  /** The pages of `size` from `offset` on, one after the other. */
  /** The page has as many entries as are asked for and left, from the offset on. */
  lemma PageIs(cs: seq<Catalog>, offset: nat, limit: Option<nat>)
    ensures var page := Page(cs, offset, limit);
            && |page| == (if |cs| <= offset then 0
                          else if limit.Some? && limit.value < |cs| - offset then limit.value
                          else |cs| - offset)
            && forall i :: 0 <= i < |page| ==> page[i] == cs[offset + i]
  {
  }

  lemma ListingIsById(m: map<string, Catalog>, cs: seq<Catalog>)
    requires IsListing(m, cs)
    ensures forall i, j :: 0 <= i < j < |cs| ==>
              StringLess(cs[i].id, cs[j].id) || (cs[i].id == cs[j].id && StringLess(cs[i].originNode, cs[j].originNode))
  {
    hide StringLess;
  }

  function Pages(cs: seq<Catalog>, offset: nat, size: nat, count: nat): (all: seq<Catalog>)
    decreases count
  {
    if count == 0 then [] else Page(cs, offset, Some(size)) + Pages(cs, offset + size, size, count - 1)
  }

  /** Consecutive pages put together are one bigger page: no catalog is skipped
      or repeated. */
  lemma {:induction false} PagesConcatenate(cs: seq<Catalog>, offset: nat, size: nat, count: nat)
    ensures Pages(cs, offset, size, count) == Page(cs, offset, Some(size * count))
    decreases count
  {
    if count > 0 {
      PagesConcatenate(cs, offset + size, size, count - 1);
      assert size * count == size + size * (count - 1);
      TwoPages(cs, offset, size, size * (count - 1));
    } else {
      assert size * count == 0;
    }
  }

  lemma TwoPages(cs: seq<Catalog>, offset: nat, first: nat, second: nat)
    ensures Page(cs, offset, Some(first)) + Page(cs, offset + first, Some(second)) == Page(cs, offset, Some(first + second))
  {
  }

  /** Paging through to the end gives the whole list. */
  lemma PagesAreComplete(cs: seq<Catalog>, size: nat, count: nat)
    requires |cs| <= size * count
    ensures Pages(cs, 0, size, count) == cs
  {
    PagesConcatenate(cs, 0, size, count);
  }

  // ----- The store itself -----

  lemma NodeOfGraph(node: string)
    ensures StripPrefixDecode(NodeBase(node), NODE_NS) == Ok(node)
  {
    hide StripPrefixDecode;
    StripPrefixDecodeOfEncode(NODE_NS, node);
  }

  /** What a listing of the whole store returns, given the graphs as they came:
      those it cannot place or decode are skipped. */
  function Decoded(graphs: seq<(string, seq<Quad>)>): (cs: seq<Catalog>) {
    if graphs == [] then []
    else
      var last := graphs[|graphs| - 1];
      Decoded(graphs[..|graphs| - 1]) + DecodedGraph(last.0, last.1)
  }

  function DecodedGraph(graph: string, g: seq<Quad>): (cs: seq<Catalog>) {
    match StripPrefixDecode(graph, NODE_NS)
    case Err => []
    case Ok(node) =>
      (match CatalogAt(g, node)
       case Ok(Some(c)) => [c]
       case _ => [])
  }

  /** A scan of the store: every named graph that holds a quad, each once. */
  ghost predicate Scans(graphs: seq<(string, seq<Quad>)>, store: set<StoredQuad>) {
    && (forall i, j :: 0 <= i < j < |graphs| ==> graphs[i].0 != graphs[j].0)
    && (forall i :: 0 <= i < |graphs| ==> Enumerates(graphs[i].1, GraphQuads(store, graphs[i].0)))
    && (forall graph :: GraphQuads(store, graph) != {} <==> exists i :: 0 <= i < |graphs| && graphs[i].0 == graph)
  }

  lemma GraphDecodes(isIri: string -> bool, m: map<string, Catalog>, graph: string, g: seq<Quad>)
    requires Filed(isIri, m)
    requires Enumerates(g, GraphQuads(StoreQuads(isIri, m), graph)) && GraphQuads(StoreQuads(isIri, m), graph) != {}
    ensures exists node :: node in m && graph == NodeBase(node) && DecodedGraph(graph, g) == [m[node]]
  {
    hide CatalogQuads, Storable, CatalogFits, CatalogAt, NodeBase, StripPrefixDecode;
    var q :| q in GraphQuads(StoreQuads(isIri, m), graph);
    var node :| node in m && graph == NodeBase(node) && q in CatalogQuads(isIri, m[node]);
    GraphHoldsItsCatalog(isIri, m, node);
    CatalogRestored(isIri, g, m[node]);
    NodeOfGraph(node);
  }

  lemma {:induction false} ScanDecodes(isIri: string -> bool, m: map<string, Catalog>, graphs: seq<(string, seq<Quad>)>)
    requires Filed(isIri, m)
    requires forall i, j :: 0 <= i < j < |graphs| ==> graphs[i].0 != graphs[j].0
    requires forall i :: 0 <= i < |graphs| ==>
               Enumerates(graphs[i].1, GraphQuads(StoreQuads(isIri, m), graphs[i].0)) && GraphQuads(StoreQuads(isIri, m), graphs[i].0) != {}
    ensures |Decoded(graphs)| == |graphs| && DistinctNodes(Decoded(graphs))
    ensures forall i :: 0 <= i < |graphs| ==>
              Decoded(graphs)[i] in m.Values && NodeBase(Decoded(graphs)[i].originNode) == graphs[i].0
  {
    hide NodeBase, CatalogQuads, DecodedGraph, GraphQuads, StoreQuads, Enumerates, Storable, CatalogFits;
    if graphs != [] {
      var n := |graphs| - 1;
      ScanDecodes(isIri, m, graphs[..n]);
      GraphDecodes(isIri, m, graphs[n].0, graphs[n].1);
      var node :| node in m && graphs[n].0 == NodeBase(node) && DecodedGraph(graphs[n].0, graphs[n].1) == [m[node]];
      assert Decoded(graphs) == Decoded(graphs[..n]) + [m[node]];
    }
  }

  /** Sorting what a scan decodes gives the one listing of the map, whatever
      order the store handed its graphs and quads back in. */
  lemma ScanIsListing(isIri: string -> bool, m: map<string, Catalog>, graphs: seq<(string, seq<Quad>)>)
    requires Filed(isIri, m) && Scans(graphs, StoreQuads(isIri, m))
    ensures IsListing(m, SortCatalogs(Decoded(graphs)))
  {
    hide NodeBase, CatalogQuads, GraphQuads, StoreQuads, Enumerates, Storable, CatalogFits, Decoded;
    var cs := Decoded(graphs);
    ScanDecodes(isIri, m, graphs);
    SortKeepsOrder(cs);
    forall c | c in m.Values ensures c in cs {
      var node :| node in m && m[node] == c;
      GraphHoldsItsCatalog(isIri, m, node);
      CatalogIsNeverEmpty(isIri, c);
      var i :| 0 <= i < |graphs| && graphs[i].0 == NodeBase(node);
      NodeBaseInjective(cs[i].originNode, node);
      assert cs[i] in m.Values;
    }
  }

  datatype CatalogQuery = CatalogQuery(originNode: Option<string>, offset: nat, limit: Option<nat>)

  class OxigraphCatalogCache {
    const isIri: string -> bool
    var quads: set<StoredQuad>
    /** Odd while a write is open; see the Protocol module. */
    var writeSequence: nat

    /** The store holds exactly the catalogs of `m`. */
    ghost predicate Holds(m: map<string, Catalog>)
      reads this
    {
      quads == StoreQuads(isIri, m) && Filed(isIri, m)
    }

    constructor (isIri: string -> bool)
      ensures this.isIri == isIri && Holds(map[]) && writeSequence == 0
    {
      this.isIri := isIri;
      quads := {};
      writeSequence := 0;
    }

    /** Insert or replace; a catalog nested too deep is refused and changes nothing. */
    method StoreCatalog(c: Catalog) returns (ok: bool)
      modifies this
      ensures ok == CatalogFits(c)
      ensures !ok ==> quads == old(quads) && writeSequence == old(writeSequence)
      ensures ok ==> writeSequence == old(writeSequence) + 2
      ensures ok ==> quads == Replaced(old(quads), NodeBase(c.originNode), CatalogQuads(isIri, c))
      ensures forall m :: ok && old(Holds(m)) && Storable(isIri, c) ==> Holds(m[c.originNode := c])
    {
      hide CatalogQuads, CatalogFits, NodeBase, Storable, StoreQuads;
      var graph := new GraphWrite(NodeBase(c.originNode));
      ok := graph.WriteCatalog(isIri, c);
      if !ok {
        return;
      }
      writeSequence := writeSequence + 1;
      var written := set i | 0 <= i < |graph.quads| :: StoredQuad(graph.quads[i], NamedGraph(graph.name));
      assert written == InGraph(graph.Elements(), graph.name);
      quads := (set s | s in quads && s.graph != NamedGraph(graph.name)) + written;
      writeSequence := writeSequence + 1;
      forall m | old(Holds(m)) && Storable(isIri, c) ensures Holds(m[c.originNode := c]) {
        UpsertIsMapUpdate(isIri, m, c);
      }
    }

    /** Deletes the node's graph and says whether it was there. */
    method RemoveCatalog(node: string) returns (existed: bool)
      modifies this
      ensures existed <==> GraphQuads(old(quads), NodeBase(node)) != {}
      ensures quads == Replaced(old(quads), NodeBase(node), {})
      ensures writeSequence == old(writeSequence) + if existed then 2 else 0
      ensures forall m :: old(Holds(m)) ==> (existed <==> node in m) && Holds(m - {node})
    {
      hide NodeBase, CatalogQuads, StoreQuads, Filed;
      var graph := NamedGraph(NodeBase(node));
      existed := exists s :: s in quads && s.graph == graph;
      if existed {
        ghost var s :| s in quads && s.graph == graph;
        assert s.quad in GraphQuads(quads, NodeBase(node));
        writeSequence := writeSequence + 1;
        quads := set s | s in quads && s.graph != graph;
        writeSequence := writeSequence + 1;
      }
      forall m | old(Holds(m)) ensures (existed <==> node in m) && Holds(m - {node}) {
        DeleteIsMapRemoval(isIri, m, node);
        GraphHoldsItsCatalog(isIri, m, node);
        FiledWithout(isIri, m, node);
        if node in m {
          CatalogIsNeverEmpty(isIri, m[node]);
          FiledHere(isIri, m, node);
        }
      }
    }

    /** The quads of `graph`, or of every named graph, grouped by graph, in
        whatever order the store hands them back. `None` when the request was
        cancelled, which is looked at every 4096 quads. */
    method SnapshotsUntil(graph: Option<string>, cancelled: nat -> bool) returns (r: Option<map<string, GraphSnapshot>>)
      ensures r.None? ==> exists count: nat :: count % 4096 == 0 && cancelled(count)
      ensures r.Some? ==> fresh(r.value.Values) && SnapshotsOf(r.value, Selected(quads, graph))
    {
      hide GraphQuads, Enumerates, GraphSnapshot.Valid;
      var rest := Selected(quads, graph);
      ghost var done: set<StoredQuad> := {};
      var graphs: map<string, GraphSnapshot> := map[];
      var count := 0;
      NoQuads();
      while rest != {}
        invariant done + rest == Selected(quads, graph) && done !! rest
        invariant fresh(graphs.Values) && SnapshotsOf(graphs, done)
        decreases rest
      {
        if count % 4096 == 0 && cancelled(count) {
          return None;
        }
        count := count + 1;
        var s :| s in rest;
        rest := rest - {s};
        ghost var before := done;
        done := done + {s};
        if s.graph.NamedGraph? {
          graphs := FileQuad(graphs, s, before);
        } else {
          UnnamedQuad(before, s);
        }
      }
      assert done == Selected(quads, graph);
      r := Some(graphs);
    }

    /** Every catalog the store can decode, from the graphs as they come. */
    method DecodeAll() returns (results: seq<Catalog>)
      ensures exists scanned :: Scans(scanned, quads) && results == Decoded(scanned)
    {
      hide GraphQuads, Enumerates, GraphSnapshot.Valid, CatalogAt, StripPrefixDecode, ScannedSoFar, Scans;
      NothingScanned(quads);
      var graphs := SnapshotsUntil(None, count => false);
      assert Selected(quads, None) == quads;
      var rest := graphs.value.Keys;
      results := [];
      ghost var scanned: seq<(string, seq<Quad>)> := [];
      ghost var seen: set<string> := {};
      while rest != {}
        invariant seen + rest == graphs.value.Keys && seen !! rest
        invariant SnapshotsOf(graphs.value, quads)
        invariant results == Decoded(scanned)
        invariant ScannedSoFar(scanned, quads, seen)
        decreases rest
      {
        var name :| name in rest;
        rest := rest - {name};
        var snapshot := graphs.value[name];
        assert (scanned + [(name, snapshot.quads)])[..|scanned|] == scanned;
        ScanOneMore(scanned, quads, seen, name, snapshot.quads);
        seen := seen + {name};
        scanned := scanned + [(name, snapshot.quads)];
        // A graph this store did not write, or cannot decode, is skipped.
        var node := StripPrefixDecode(name, NODE_NS);
        if node.Ok? {
          var c := snapshot.LoadCatalog(node.value);
          if c.Ok? && c.value.Some? {
            results := results + [c.value.value];
          }
        }
      }
      assert seen == graphs.value.Keys;
      ScanIsComplete(scanned, quads, seen);
    }

    /** The catalogs asked for, one page of them. A node asked for by name must
        decode; in a listing, what does not decode is skipped. */
    method Catalogs(query: CatalogQuery) returns (r: Result<seq<Catalog>>)
      ensures query.originNode.Some? ==>
                forall m :: Holds(m) ==>
                  var node := query.originNode.value;
                  r == Ok(Page(if node in m then [m[node]] else [], query.offset, query.limit))
      ensures query.originNode.None? ==>
                forall m, cs :: Holds(m) && IsListing(m, cs) ==> r == Ok(Page(cs, query.offset, query.limit))
      // By id, and by node where ids repeat.
      ensures r.Ok? && (exists m :: Holds(m)) ==>
                forall i, j :: 0 <= i < j < |r.value| ==>
                  || StringLess(r.value[i].id, r.value[j].id)
                  || (r.value[i].id == r.value[j].id && StringLess(r.value[i].originNode, r.value[j].originNode))
    {
      hide Page, IsListing, Scans, Decoded, NodeBase;
      var results: seq<Catalog> := [];
      if query.originNode.Some? {
        var found :- CatalogOf(query.originNode.value);
        results := match found case Some(c) => [c] case None => [];
        SingletonSorted(results);
      } else {
        results := DecodeAll();
        ghost var scanned :| Scans(scanned, quads) && results == Decoded(scanned);
        forall m, cs | Holds(m) && IsListing(m, cs) ensures SortCatalogs(results) == cs {
          ScanIsListing(isIri, m, scanned);
          ListingsAgree(m, SortCatalogs(results), cs);
        }
      }
      r := Ok(Page(SortCatalogs(results), query.offset, query.limit));
      if m :| Holds(m) {
        if query.originNode.None? {
          EveryStoreHasAListing(m);
          var cs :| IsListing(m, cs);
          ListingIsById(m, cs);
        }
        PageIs(SortCatalogs(results), query.offset, query.limit);
      }
    }

    /** What the node's own graph decodes to. */
    method CatalogOf(node: string) returns (r: Result<Option<Catalog>>)
      ensures forall m :: Holds(m) ==> r == Ok(if node in m then Some(m[node]) else None)
    {
      hide GraphQuads, Enumerates, GraphSnapshot.Valid, NodeBase, StoreQuads, CatalogQuads, CatalogAt;
      var name := NodeBase(node);
      var graphs := SnapshotsUntil(Some(name), count => false);
      SelectedGraph(quads, name);
      var snapshot: GraphSnapshot;
      if name in graphs.value {
        snapshot := graphs.value[name];
      } else {
        snapshot := new GraphSnapshot();
        EmptyEnumeration();
      }
      r := snapshot.LoadCatalog(node);
      forall m | Holds(m) ensures r == Ok(if node in m then Some(m[node]) else None) {
        GraphHoldsItsCatalog(isIri, m, node);
        if node in m {
          CatalogRestored(isIri, snapshot.quads, m[node]);
        } else {
          EmptyGraphHasNoCatalog(snapshot.quads, node);
        }
      }
    }
  }

  lemma EmptyGraphHasNoCatalog(g: seq<Quad>, node: string)
    requires Enumerates(g, {})
    ensures CatalogAt(g, node) == Ok(None)
  {
    NonEmptyHasElement(g);
  }

  lemma NonEmptyHasElement<T>(s: seq<T>)
    ensures s != [] ==> exists x :: x in s
  {
    assert s != [] ==> s[0] in s;
  }

  lemma NothingScanned(store: set<StoredQuad>)
    ensures ScannedSoFar([], store, {})
  {
  }

  lemma ScanIsComplete(scanned: seq<(string, seq<Quad>)>, store: set<StoredQuad>, names: set<string>)
    requires ScannedSoFar(scanned, store, names)
    requires forall graph :: graph in names <==> GraphQuads(store, graph) != {}
    ensures Scans(scanned, store)
  {
  }

  lemma SingletonSorted(cs: seq<Catalog>)
    requires |cs| <= 1
    ensures SortCatalogs(cs) == cs
  {
  }

  lemma ListingsAgree(m: map<string, Catalog>, a: seq<Catalog>, b: seq<Catalog>)
    requires IsListing(m, a) && IsListing(m, b)
    ensures a == b
  {
    hide InOrder;
    ListingIsUnique(a, b);
  }

  lemma SelectedGraph(store: set<StoredQuad>, graph: string)
    ensures GraphQuads(Selected(store, Some(graph)), graph) == GraphQuads(store, graph)
  {
  }

  /** A scan of the store that has reached the graphs in `names`. */
  ghost predicate ScannedSoFar(scanned: seq<(string, seq<Quad>)>, store: set<StoredQuad>, names: set<string>) {
    && (forall i, j :: 0 <= i < j < |scanned| ==> scanned[i].0 != scanned[j].0)
    && (forall i :: 0 <= i < |scanned| ==> Enumerates(scanned[i].1, GraphQuads(store, scanned[i].0)))
    && (forall name :: name in names <==> exists i :: 0 <= i < |scanned| && scanned[i].0 == name)
  }

  lemma ScanOneMore(scanned: seq<(string, seq<Quad>)>, store: set<StoredQuad>, names: set<string>, name: string, g: seq<Quad>)
    requires ScannedSoFar(scanned, store, names) && name !in names
    requires Enumerates(g, GraphQuads(store, name))
    ensures ScannedSoFar(scanned + [(name, g)], store, names + {name})
  {
    hide Enumerates, GraphQuads;
    var more := scanned + [(name, g)];
    assert more[|scanned|] == (name, g);
    forall other ensures other in names + {name} <==> exists i :: 0 <= i < |more| && more[i].0 == other {
      if other in names {
        var i :| 0 <= i < |scanned| && scanned[i].0 == other;
        assert more[i].0 == other;
      }
    }
  }

  /** Adds a quad to the snapshot of its graph, starting one if need be. */
  method FileQuad(graphs: map<string, GraphSnapshot>, s: StoredQuad, ghost before: set<StoredQuad>)
    returns (filed: map<string, GraphSnapshot>)
    requires s.graph.NamedGraph? && s !in before
    requires SnapshotsOf(graphs, before)
    modifies graphs.Values
    ensures fresh(filed.Values - graphs.Values)
    ensures SnapshotsOf(filed, before + {s})
  {
    hide GraphQuads, Enumerates, GraphSnapshot.Valid;
    var name := s.graph.name;
    OneMoreQuad(before, s);
    var snapshot: GraphSnapshot;
    if name in graphs {
      snapshot := graphs[name];
    } else {
      snapshot := new GraphSnapshot();
      EmptyEnumeration();
    }
    NewQuadIsDistinct(before, s, snapshot.quads);
    snapshot.Push(s.quad);
    filed := graphs[name := snapshot];
    forall x | x in filed.Values ensures x in graphs.Values || x == snapshot {
      var g :| g in filed && filed[g] == x;
    }
  }

  function Selected(store: set<StoredQuad>, graph: Option<string>): (r: set<StoredQuad>) {
    set s | s in store && (graph.Some? ==> s.graph == NamedGraph(graph.value))
  }

  /** One valid snapshot for every named graph with quads, no two shared. */
  ghost predicate SnapshotsOf(graphs: map<string, GraphSnapshot>, store: set<StoredQuad>)
    reads graphs.Values
  {
    && (forall g :: g in graphs ==> graphs[g].Valid() && Enumerates(graphs[g].quads, GraphQuads(store, g)))
    && (forall g :: g in graphs <==> GraphQuads(store, g) != {})
    && (forall g, h :: g in graphs && h in graphs && g != h ==> graphs[g] != graphs[h])
  }

  lemma NoQuads()
    ensures forall g :: GraphQuads({}, g) == {}
  {
  }

  lemma EmptyEnumeration()
    ensures Enumerates([], {})
  {
  }

  lemma OneMoreQuad(store: set<StoredQuad>, s: StoredQuad)
    requires s.graph.NamedGraph?
    ensures GraphQuads(store + {s}, s.graph.name) == GraphQuads(store, s.graph.name) + {s.quad}
    ensures GraphQuads(store + {s}, s.graph.name) != {}
    ensures forall g :: g != s.graph.name ==> GraphQuads(store + {s}, g) == GraphQuads(store, g)
  {
    assert s.quad in GraphQuads(store + {s}, s.graph.name);
  }

  lemma UnnamedQuad(store: set<StoredQuad>, s: StoredQuad)
    requires !s.graph.NamedGraph?
    ensures forall g :: GraphQuads(store + {s}, g) == GraphQuads(store, g)
  {
  }

  lemma NewQuadIsDistinct(store: set<StoredQuad>, s: StoredQuad, g: seq<Quad>)
    requires s.graph.NamedGraph? && s !in store
    requires Enumerates(g, GraphQuads(store, s.graph.name))
    ensures Enumerates(g + [s.quad], GraphQuads(store, s.graph.name) + {s.quad})
  {
  }

  lemma FiledWithout(isIri: string -> bool, m: map<string, Catalog>, node: string)
    requires Filed(isIri, m)
    ensures Filed(isIri, m - {node})
  {
  }

  lemma FiledHere(isIri: string -> bool, m: map<string, Catalog>, node: string)
    requires Filed(isIri, m) && node in m
    ensures m[node].originNode == node
  {
  }
}
