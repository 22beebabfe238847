/** Building allow-lists and keeping them (`sparql.rs`): the cache of finished
    lists and the progress of builds that were cancelled. */
module AllowLists {
  import opened Text
  import opened CatalogCore
  import opened Vocabulary
  import opened Read
  import Write
  import opened Snapshot
  import opened RoundTrip
  import opened Store
  import Protocol

  /** Milliseconds. */
  const ALLOW_LIST_CACHE_TTL := 5000
  const PARTIAL_ALLOW_LIST_TTL := 30000
  const ALLOW_LIST_CACHE_ENTRIES := Protocol.CACHE_ENTRIES

  datatype CachedAllowList = CachedAllowList(writeSequence: nat, builtAt: nat, visible: set<string>)

  datatype PartialAllowList = PartialAllowList(writeSequence: nat, startedAt: nat, done: set<string>, visible: set<string>)

  predicate YoungerThan(since: nat, now: nat, ttl: nat) {
    now < since + ttl
  }

  // ----- Making room in a full map -----

  /** `key` is among the oldest of `times`. */
  predicate Oldest(times: map<string, nat>, key: string) {
    key in times && forall k :: k in times ==> times[key] <= times[k]
  }

  method FindOldest(times: map<string, nat>) returns (oldest: string)
    requires times != map[]
    ensures Oldest(times, oldest)
  {
    var rest := times.Keys;
    assert rest != {};
    oldest :| oldest in rest;
    rest := rest - {oldest};
    while rest != {}
      invariant oldest in times && rest <= times.Keys
      invariant forall k :: k in times && k !in rest ==> times[oldest] <= times[k]
      decreases rest
    {
      var k :| k in rest;
      rest := rest - {k};
      if times[k] < times[oldest] {
        oldest := k;
      }
    }
  }

  /** Whether `kept` is what making room for `key` leaves of `times`: nothing
      goes while there is room or the key is known; otherwise everything stale
      goes, and then the oldest entry if the map is still full. */
  ghost predicate RoomMade(times: map<string, nat>, stale: set<string>, key: string, kept: set<string>) {
    if |times| < ALLOW_LIST_CACHE_ENTRIES || key in times then kept == times.Keys
    else
      var current := times - stale;
      if |current| < ALLOW_LIST_CACHE_ENTRIES then kept == current.Keys
      else exists oldest :: Oldest(current, oldest) && kept == current.Keys - {oldest}
  }

  method MakeRoom(times: map<string, nat>, stale: set<string>, key: string) returns (kept: set<string>)
    ensures RoomMade(times, stale, key, kept)
  {
    kept := times.Keys;
    if |times| >= ALLOW_LIST_CACHE_ENTRIES && key !in times {
      var current := times - stale;
      kept := current.Keys;
      if |current| >= ALLOW_LIST_CACHE_ENTRIES {
        assert current != map[];
        var oldest := FindOldest(current);
        kept := kept - {oldest};
      }
    }
  }

  lemma RoomIsEnough(times: map<string, nat>, stale: set<string>, key: string, kept: set<string>)
    requires RoomMade(times, stale, key, kept) && |times| <= ALLOW_LIST_CACHE_ENTRIES
    ensures kept <= times.Keys && |kept + {key}| <= ALLOW_LIST_CACHE_ENTRIES
  {
    assert |times| == |times.Keys|;
    var current := times - stale;
    assert |current| == |current.Keys| && current.Keys <= times.Keys;
    Protocol.SubsetBound(current.Keys, times.Keys);
    if key in times {
      assert kept + {key} == kept;
    }
  }

  // ----- What a build computes -----

  /** What the callback decides for one named graph: nothing when it holds no
      catalog that can be read. */
  function DecidedFor(decide: Catalog -> set<string>, graph: string, g: seq<Quad>): (iris: set<string>) {
    set c, iri | c in DecodedGraph(graph, g) && iri in decide(c) :: iri
  }

  /** The union of the decisions for the graphs named in `done`. */
  function VisibleIn(decide: Catalog -> set<string>, graphs: seq<(string, seq<Quad>)>, done: set<string>): (iris: set<string>) {
    set i, iri | 0 <= i < |graphs| && graphs[i].0 in done && iri in DecidedFor(decide, graphs[i].0, graphs[i].1) :: iri
  }

  function Names(graphs: seq<(string, seq<Quad>)>): (names: set<string>) {
    set i | 0 <= i < |graphs| :: graphs[i].0
  }

  /** Progress that says of this state of the store what a build would. */
  ghost predicate ProgressAgrees(decide: Catalog -> set<string>, graphs: seq<(string, seq<Quad>)>, p: PartialAllowList) {
    p.done <= Names(graphs) && p.visible == VisibleIn(decide, graphs, p.done)
  }

  ghost predicate DistinctGraphs(graphs: seq<(string, seq<Quad>)>) {
    forall i, j :: 0 <= i < j < |graphs| ==> graphs[i].0 != graphs[j].0
  }

  lemma OneMoreGraph(decide: Catalog -> set<string>, graphs: seq<(string, seq<Quad>)>, done: set<string>, i: nat)
    requires DistinctGraphs(graphs) && i < |graphs|
    ensures VisibleIn(decide, graphs, done + {graphs[i].0}) ==
            VisibleIn(decide, graphs, done) + DecidedFor(decide, graphs[i].0, graphs[i].1)
  {
    hide DecidedFor;
  }

  /** Once a cancellation token is cancelled it stays so. */
  ghost predicate StaysCancelled(cancelled: nat -> bool) {
    forall t: nat, t': nat :: t <= t' && cancelled(t) ==> cancelled(t')
  }

  /** A callback cancelled while it runs may return only part of its answer. */
  ghost predicate Answers(answer: (Catalog, nat) -> set<string>, decide: Catalog -> set<string>, cancelled: nat -> bool) {
    forall c, t: nat :: !cancelled(t) ==> answer(c, t) == decide(c)
  }

  function Only<T>(m: map<string, T>, kept: set<string>): (r: map<string, T>) {
    map k | k in m && k in kept :: m[k]
  }

  lemma SameSizes<S, T>(m: map<string, S>, n: map<string, T>)
    requires m.Keys == n.Keys
    ensures |m| == |n|
  {
    assert |m| == |m.Keys| && |n| == |n.Keys|;
  }

  lemma OnlySize<T>(m: map<string, T>, kept: set<string>, key: string, value: T)
    requires kept <= m.Keys
    ensures |Only(m, kept)[key := value]| == |kept + {key}|
  {
    assert Only(m, kept)[key := value].Keys == kept + {key};
    assert |Only(m, kept)[key := value]| == |Only(m, kept)[key := value].Keys|;
  }

  /** Making room the way the caches do is one of the evictions the protocol
      allows when it keeps a list or progress. */
  lemma MakingRoomIsAProtocolEviction<T>(m: map<string, T>, times: map<string, nat>, stale: set<string>, key: string, kept: set<string>, value: T)
    requires times.Keys == m.Keys && |m| <= ALLOW_LIST_CACHE_ENTRIES && RoomMade(times, stale, key, kept)
    ensures var evict := m.Keys - kept;
            && Only(m, kept)[key := value] == Protocol.Kept(m, evict, key)[key := value]
            && |Protocol.Kept(m, evict, key).Keys| < Protocol.CACHE_ENTRIES
  {
    SameSizes(m, times);
    RoomIsEnough(times, stale, key, kept);
    hide *;
    KeptSize(kept, key);
    EvictAllBut(m, kept, key, value);
  }

  lemma KeptSize(kept: set<string>, key: string)
    ensures |kept + {key}| == |kept - {key}| + 1
  {
    assert kept + {key} == (kept - {key}) + {key};
  }

  lemma EvictAllBut<T>(m: map<string, T>, kept: set<string>, key: string, value: T)
    requires kept <= m.Keys
    ensures Only(m, kept)[key := value] == Protocol.Kept(m, m.Keys - kept, key)[key := value]
    ensures Protocol.Kept(m, m.Keys - kept, key).Keys == kept - {key}
  {
  }

  function BuiltTimes(lists: map<string, CachedAllowList>): (times: map<string, nat>)
    ensures times.Keys == lists.Keys
  {
    map k | k in lists :: lists[k].builtAt
  }

  function StaleLists(lists: map<string, CachedAllowList>, writeSequence: nat, now: nat): (stale: set<string>) {
    set k | k in lists && !(lists[k].writeSequence == writeSequence && YoungerThan(lists[k].builtAt, now, ALLOW_LIST_CACHE_TTL))
  }

  function StartTimes(partials: map<string, PartialAllowList>): (times: map<string, nat>)
    ensures times.Keys == partials.Keys
  {
    map k | k in partials :: partials[k].startedAt
  }

  function StalePartials(partials: map<string, PartialAllowList>, now: nat): (stale: set<string>) {
    set k | k in partials && !YoungerThan(partials[k].startedAt, now, PARTIAL_ALLOW_LIST_TTL)
  }

  function ListServed(lists: map<string, CachedAllowList>, key: string, writeSequence: nat, now: nat): (r: Option<set<string>>) {
    if key in lists && lists[key].writeSequence == writeSequence && YoungerThan(lists[key].builtAt, now, ALLOW_LIST_CACHE_TTL)
    then Some(lists[key].visible) else None
  }

  /** A remembered list is served to its own key from then on for five seconds,
      as long as the store's sequence stays the same, and to no other key; other
      keys are served what they were before, or nothing when evicted. And making
      room evicts no list that could still be served, unless 64 of them can. */
  lemma RememberedListIsServed(
    lists: map<string, CachedAllowList>, key: string, writeSequence: nat, visible: set<string>, now: nat, kept: set<string>,
    other: string, sequence: nat, later: nat)
    requires now <= later && |lists| <= ALLOW_LIST_CACHE_ENTRIES
    requires RoomMade(BuiltTimes(lists), StaleLists(lists, writeSequence, now), key, kept)
    ensures var after := Only(lists, kept)[key := CachedAllowList(writeSequence, now, visible)];
            && ListServed(after, key, sequence, later) ==
               (if sequence == writeSequence && later < now + ALLOW_LIST_CACHE_TTL then Some(visible) else None)
            && (other != key ==> ListServed(after, other, sequence, later) in {None, ListServed(lists, other, sequence, later)})
            && (other != key && ListServed(lists, other, writeSequence, now).Some? && other !in after ==>
                  |lists| == ALLOW_LIST_CACHE_ENTRIES && forall k :: k in lists ==> ListServed(lists, k, writeSequence, now).Some?)
  {
    SameSizes(lists, BuiltTimes(lists));
    var times, stale := BuiltTimes(lists), StaleLists(lists, writeSequence, now);
    var current := times - stale;
    if other != key && other in lists && other !in kept && ListServed(lists, other, writeSequence, now).Some? {
      assert other in current;
      assert |current| >= ALLOW_LIST_CACHE_ENTRIES;
      AllCurrent(times, stale);
    }
  }

  /** What is as large as the whole leaves nothing out. */
  lemma AllCurrent(times: map<string, nat>, stale: set<string>)
    requires |times - stale| >= |times|
    ensures forall k :: k in times ==> k !in stale
  {
    var current := times - stale;
    assert |current| == |current.Keys| && |times| == |times.Keys|;
    if k :| k in times && k in stale {
      Protocol.SubsetBound(current.Keys, times.Keys - {k});
    }
  }

  datatype BuildResult = Finished(visible: set<string>) | BuildCancelled

  class AllowListCache {
    var lists: map<string, CachedAllowList>
    var partials: map<string, PartialAllowList>

    ghost predicate Valid()
      reads this
    {
      |lists| <= ALLOW_LIST_CACHE_ENTRIES && |partials| <= ALLOW_LIST_CACHE_ENTRIES
    }

    constructor ()
      ensures Valid() && lists == map[] && partials == map[]
    {
      lists := map[];
      partials := map[];
    }

    /** The list kept for `key`, if it is for this state of the store and young enough. */
    function CachedList(key: string, writeSequence: nat, now: nat): (r: Option<set<string>>)
      reads this
    {
      ListServed(lists, key, writeSequence, now)
    }

    /** `kept` is what making room left of the other lists. */
    method RememberAllowList(key: string, writeSequence: nat, visible: set<string>, now: nat) returns (ghost kept: set<string>)
      requires Valid()
      modifies this
      ensures Valid() && partials == old(partials)
      ensures RoomMade(BuiltTimes(old(lists)), StaleLists(old(lists), writeSequence, now), key, kept)
      ensures lists == Only(old(lists), kept)[key := CachedAllowList(writeSequence, now, visible)]
    {
      hide RoomMade, StaleLists;
      var left := MakeRoom(BuiltTimes(lists), StaleLists(lists, writeSequence, now), key);
      kept := left;
      SameSizes(lists, BuiltTimes(lists));
      RoomIsEnough(BuiltTimes(lists), StaleLists(lists, writeSequence, now), key, kept);
      OnlySize(lists, kept, key, CachedAllowList(writeSequence, now, visible));
      lists := Only(lists, left)[key := CachedAllowList(writeSequence, now, visible)];
    }

    method KeepPartial(key: string, progress: PartialAllowList, now: nat) returns (ghost kept: set<string>)
      requires Valid()
      modifies this
      ensures Valid() && lists == old(lists)
      ensures RoomMade(StartTimes(old(partials)), StalePartials(old(partials), now), key, kept)
      ensures partials == Only(old(partials), kept)[key := progress]
    {
      hide RoomMade, StalePartials;
      var left := MakeRoom(StartTimes(partials), StalePartials(partials, now), key);
      kept := left;
      SameSizes(partials, StartTimes(partials));
      RoomIsEnough(StartTimes(partials), StalePartials(partials, now), key, kept);
      OnlySize(partials, kept, key, progress);
      partials := Only(partials, left)[key := progress];
    }

    /** Takes the progress kept for `key`, or starts afresh when it is for
        another state of the store or too old. Either way it is kept no longer. */
    method TakePartial(key: string, writeSequence: nat, now: nat) returns (progress: PartialAllowList)
      requires Valid()
      modifies this
      ensures Valid() && lists == old(lists) && partials == old(partials) - {key}
      ensures if key in old(partials) && old(partials)[key].writeSequence == writeSequence
                 && YoungerThan(old(partials)[key].startedAt, now, PARTIAL_ALLOW_LIST_TTL)
              then progress == old(partials)[key]
              else progress == PartialAllowList(writeSequence, now, {}, {})
    {
      if key in partials && partials[key].writeSequence == writeSequence && YoungerThan(partials[key].startedAt, now, PARTIAL_ALLOW_LIST_TTL) {
        progress := partials[key];
      } else {
        progress := PartialAllowList(writeSequence, now, {}, {});
      }
      Protocol.SubsetBound((partials - {key}).Keys, partials.Keys);
      assert |partials.Keys| == |partials| && |(partials - {key}).Keys| == |partials - {key}|;
      partials := partials - {key};
    }

    /** Decides the graphs of one scan, going on from what was kept; keeps the
        progress again when cancelled. The time is read once here. */
    method BuildAllowList(
      key: string, writeSequence: nat, graphs: seq<(string, seq<Quad>)>, answer: (Catalog, nat) -> set<string>,
      ghost decide: Catalog -> set<string>, cancelled: nat -> bool, now: nat)
      returns (r: BuildResult, ghost kept: set<string>)
      requires Valid() && DistinctGraphs(graphs)
      requires StaysCancelled(cancelled) && Answers(answer, decide, cancelled)
      modifies this
      ensures Valid() && lists == old(lists)
      // A build gives up only when it was cancelled.
      ensures r.BuildCancelled? ==> exists t: nat :: cancelled(t)
      // The progress of other keys stays, but for the room a cancelled build needs.
      ensures r.Finished? ==> partials == old(partials) - {key}
      ensures r.BuildCancelled? ==>
                var others := old(partials) - {key};
                && RoomMade(StartTimes(others), StalePartials(others, now), key, kept)
                && key in partials && partials == Only(others, kept)[key := partials[key]]
                && partials[key].writeSequence == writeSequence
      // If what was kept for the key is right for this scan, so are the result
      // and what is kept now.
      ensures var start := Resumed(old(partials), key, writeSequence, now);
              ProgressAgrees(decide, graphs, start) ==>
                if r.Finished? then r.visible == VisibleIn(decide, graphs, Names(graphs))
                else partials[key].startedAt == start.startedAt && start.done <= partials[key].done
                     && ProgressAgrees(decide, graphs, partials[key])
    {
      hide VisibleIn, RoomMade, Answers, YoungerThan, StartTimes, StalePartials;
      kept := {};
      var start := TakePartial(key, writeSequence, now);
      var progress, complete := DecideGraphs(graphs, start, answer, decide, cancelled);
      if !complete {
        kept := KeepPartial(key, progress, now);
        return BuildCancelled, kept;
      }
      r := Finished(progress.visible);
    }
  }

  /** The cancellation token is looked at before each graph, after each
      callback and at the end. */
  method DecideGraphs(
    graphs: seq<(string, seq<Quad>)>, start: PartialAllowList, answer: (Catalog, nat) -> set<string>,
    ghost decide: Catalog -> set<string>, cancelled: nat -> bool)
    returns (progress: PartialAllowList, complete: bool)
    requires DistinctGraphs(graphs) && StaysCancelled(cancelled) && Answers(answer, decide, cancelled)
    ensures progress.writeSequence == start.writeSequence && progress.startedAt == start.startedAt && start.done <= progress.done
    ensures complete ==> Names(graphs) <= progress.done
    ensures (exists t: nat :: cancelled(t)) || complete
    ensures ProgressAgrees(decide, graphs, start) ==> ProgressAgrees(decide, graphs, progress)
    ensures ProgressAgrees(decide, graphs, start) && complete ==> progress.visible == VisibleIn(decide, graphs, Names(graphs))
  {
    hide DecodedGraph, VisibleIn, DecidedFor, Answers;
    ghost var agrees := ProgressAgrees(decide, graphs, start);
    progress := start;
    var tick := 0;
    for i := 0 to |graphs|
      invariant progress.writeSequence == start.writeSequence && progress.startedAt == start.startedAt && start.done <= progress.done
      invariant Names(graphs[..i]) <= progress.done
      invariant agrees ==> ProgressAgrees(decide, graphs, progress)
    {
      tick := tick + 1;
      if cancelled(tick) {
        return progress, false;
      }
      var (graph, g) := graphs[i];
      assert Names(graphs[..i + 1]) == Names(graphs[..i]) + {graph};
      assert graph in Names(graphs);
      if graph !in progress.done {
        var catalogs := DecodedGraph(graph, g);
        var decided := {};
        if catalogs != [] {
          decided := answer(catalogs[0], tick);
          tick := tick + 1;
          if cancelled(tick) {
            return progress, false;
          }
          AnsweredInFull(answer, decide, cancelled, catalogs[0], tick - 1);
        }
        DecidedIs(decide, graph, g);
        OneMoreGraph(decide, graphs, progress.done, i);
        progress := progress.(visible := progress.visible + decided, done := progress.done + {graph});
      }
    }
    assert graphs[..|graphs|] == graphs;
    assert agrees ==> progress.done == Names(graphs);
    tick := tick + 1;
    complete := !cancelled(tick);
  }

  function Resumed(partials: map<string, PartialAllowList>, key: string, writeSequence: nat, now: nat): (p: PartialAllowList) {
    if key in partials && partials[key].writeSequence == writeSequence && YoungerThan(partials[key].startedAt, now, PARTIAL_ALLOW_LIST_TTL)
    then partials[key] else PartialAllowList(writeSequence, now, {}, {})
  }

  lemma AnsweredInFull(answer: (Catalog, nat) -> set<string>, decide: Catalog -> set<string>, cancelled: nat -> bool, c: Catalog, t: nat)
    requires StaysCancelled(cancelled) && Answers(answer, decide, cancelled) && !cancelled(t + 1)
    ensures answer(c, t) == decide(c)
  {
  }

  lemma DecidedIs(decide: Catalog -> set<string>, graph: string, g: seq<Quad>)
    ensures DecidedFor(decide, graph, g) == if DecodedGraph(graph, g) == [] then {} else decide(DecodedGraph(graph, g)[0])
    ensures |DecodedGraph(graph, g)| <= 1
  {
  }

  /** The graph at `i` is the one of `node`, and decodes to its catalog. */
  predicate DecodesTo(m: map<string, Catalog>, graphs: seq<(string, seq<Quad>)>, i: nat, node: string)
    requires i < |graphs|
  {
    node in m && graphs[i].0 == NodeBase(node) && DecodedGraph(graphs[i].0, graphs[i].1) == [m[node]]
  }

  lemma EveryGraphDecodes(isIri: string -> bool, m: map<string, Catalog>, graphs: seq<(string, seq<Quad>)>, i: nat)
    requires Filed(isIri, m) && Scans(graphs, StoreQuads(isIri, m)) && i < |graphs|
    ensures exists node :: DecodesTo(m, graphs, i, node)
  {
    hide Enumerates, GraphQuads, StoreQuads, CatalogFits, Storable, DecodedGraph, NodeBase;
    GraphDecodes(isIri, m, graphs[i].0, graphs[i].1);
    var node :| node in m && graphs[i].0 == NodeBase(node) && DecodedGraph(graphs[i].0, graphs[i].1) == [m[node]];
    assert DecodesTo(m, graphs, i, node);
  }

  lemma EveryNodeIsScanned(isIri: string -> bool, m: map<string, Catalog>, graphs: seq<(string, seq<Quad>)>, node: string)
    requires Filed(isIri, m) && Scans(graphs, StoreQuads(isIri, m)) && node in m
    ensures exists i :: 0 <= i < |graphs| && DecodesTo(m, graphs, i, node)
  {
    hide Enumerates, GraphQuads, StoreQuads, CatalogFits, Storable, DecodedGraph, NodeBase, Write.CatalogQuads;
    GraphHoldsItsCatalog(isIri, m, node);
    FiledHere(isIri, m, node);
    CatalogIsNeverEmpty(isIri, m[node]);
    var i :| 0 <= i < |graphs| && graphs[i].0 == NodeBase(node);
    EveryGraphDecodes(isIri, m, graphs, i);
    var other :| DecodesTo(m, graphs, i, other);
    NodeBaseInjective(node, other);
  }

  /** A scan of the store in any order gives the union of the callback over the
      stored catalogs. */
  lemma BuildIsUnionOverStore(
    isIri: string -> bool, m: map<string, Catalog>, graphs: seq<(string, seq<Quad>)>, decide: Catalog -> set<string>)
    requires Filed(isIri, m) && Scans(graphs, StoreQuads(isIri, m))
    ensures VisibleIn(decide, graphs, Names(graphs)) == set node, iri | node in m && iri in decide(m[node]) :: iri
  {
    hide Filed, Scans, DecodedGraph, NodeBase, StoreQuads;
    var union := set node, iri | node in m && iri in decide(m[node]) :: iri;
    forall iri | iri in VisibleIn(decide, graphs, Names(graphs)) ensures iri in union {
      var i :| 0 <= i < |graphs| && iri in DecidedFor(decide, graphs[i].0, graphs[i].1);
      EveryGraphDecodes(isIri, m, graphs, i);
      var node :| DecodesTo(m, graphs, i, node);
      assert iri in decide(m[node]);
    }
    forall iri | iri in union ensures iri in VisibleIn(decide, graphs, Names(graphs)) {
      var node :| node in m && iri in decide(m[node]);
      EveryNodeIsScanned(isIri, m, graphs, node);
      var i :| 0 <= i < |graphs| && DecodesTo(m, graphs, i, node);
      assert m[node] in DecodedGraph(graphs[i].0, graphs[i].1);
      assert iri in DecidedFor(decide, graphs[i].0, graphs[i].1) && graphs[i].0 in Names(graphs);
    }
  }
}

