/** The per-caller filter shared by `GET /catalog` and `/sparql`
    (`routes/policy.rs`). Whether one dataset is visible is a parameter here. */
module PolicyRoutes {
  import opened Text
  import opened CatalogCore
  import opened Vocabulary

  datatype ServiceFiltering = HideGatedOnly | KeepAll

  function Retain<T(!new)>(xs: seq<T>, keep: T -> bool): (r: seq<T>)
    ensures forall x :: x in r <==> x in xs && keep(x)
  {
    if xs == [] then []
    else
      var rest := Retain(xs[1..], keep);
      if keep(xs[0]) then [xs[0]] + rest else rest
  }

  /** Every service id a distribution of `ds` uses. */
  function ServicesUsedBy(ds: seq<Dataset>): (ids: set<string>) {
    set d, x | d in ds && x in d.distributions :: x.accessService
  }

  predicate ServiceIsVisible(id: string, usedByAny: set<string>, usedByVisible: set<string>) {
    id in usedByVisible || id !in usedByAny
  }

  predicate ServiceShown(c: Catalog, decide: Dataset -> bool, id: string) {
    ServiceIsVisible(id, ServicesUsedBy(c.datasets), ServicesUsedBy(Retain(c.datasets, decide)))
  }

  function FilterCatalog(c: Catalog, decide: Dataset -> bool, services: ServiceFiltering): (r: Catalog) {
    var filtered := c.(datasets := Retain(c.datasets, decide));
    if services.HideGatedOnly? then
      filtered.(dataServices := Retain(c.dataServices, (s: DataService) => ServiceShown(c, decide, s.id)))
    else filtered
  }

  /** The resources of `c` the caller may see, as the store spells them. */
  function VisibleResourceIris(c: Catalog, decide: Dataset -> bool): (iris: set<string>) {
    (set d | d in c.datasets && decide(d) :: DatasetResourceIri(c.originNode, d.id))
    + (set s | s in c.dataServices && ServiceShown(c, decide, s.id) :: ServiceResourceIri(c.originNode, s.id))
  }

  // ----- What that means -----

  predicate Uses(d: Dataset, id: string) {
    exists x :: x in d.distributions && x.accessService == id
  }

  /** A visible dataset uses service `id`, or none does: what only hidden
      datasets use is hidden with them. */
  predicate ServiceOffered(c: Catalog, decide: Dataset -> bool, id: string) {
    (exists d :: d in c.datasets && decide(d) && Uses(d, id)) || (forall d :: d in c.datasets ==> !Uses(d, id))
  }

  lemma UsedAre(ds: seq<Dataset>, id: string)
    ensures id in ServicesUsedBy(ds) <==> exists d :: d in ds && Uses(d, id)
  {
  }

  lemma ShownIsOffered(c: Catalog, decide: Dataset -> bool, id: string)
    ensures ServiceShown(c, decide, id) <==> ServiceOffered(c, decide, id)
  {
    UsedAre(c.datasets, id);
    UsedAre(Retain(c.datasets, decide), id);
    hide Uses, ServicesUsedBy;
  }

  /** `ys` is `xs` without what is not kept, each entry as often and in the
      order it was. */
  ghost predicate KeptInOrder<T(!new)>(xs: seq<T>, keep: T -> bool, ys: seq<T>) {
    exists places: seq<nat> :: PlacesOf(xs, keep, ys, places)
  }

  ghost predicate PlacesOf<T(!new)>(xs: seq<T>, keep: T -> bool, ys: seq<T>, places: seq<nat>) {
    && |places| == |ys|
    && (forall j, k :: 0 <= j < k < |places| ==> places[j] < places[k])
    && (forall k :: 0 <= k < |places| ==> places[k] < |xs| && ys[k] == xs[places[k]])
    && forall i: nat :: i < |xs| ==> (keep(xs[i]) <==> i in places)
  }

  lemma {:induction false} RetainKeepsOrder<T(!new)>(xs: seq<T>, keep: T -> bool)
    ensures KeptInOrder(xs, keep, Retain(xs, keep))
  {
    if xs == [] {
      assert PlacesOf(xs, keep, Retain(xs, keep), []);
    } else {
      var n := |xs| - 1;
      var before := Retain(xs[..n], keep);
      assert xs == xs[..n] + [xs[n]];
      RetainAppend(xs[..n], xs[n], keep);
      RetainKeepsOrder(xs[..n], keep);
      var places: seq<nat> :| PlacesOf(xs[..n], keep, before, places);
      hide *;
      OneMorePlace(xs[..n], xs[n], keep, before, places);
    }
  }

  lemma OneMorePlace<T(!new)>(xs: seq<T>, x: T, keep: T -> bool, ys: seq<T>, places: seq<nat>)
    requires PlacesOf(xs, keep, ys, places)
    ensures KeptInOrder(xs + [x], keep, ys + if keep(x) then [x] else [])
  {
    var all := xs + [x];
    assert forall i :: 0 <= i < |xs| ==> all[i] == xs[i];
    if keep(x) {
      var more, kept := places + [|xs|], ys + [x];
      assert forall i: nat :: i in more <==> i in places || i == |xs|;
      assert forall k :: 0 <= k < |more| ==> more[k] < |all| && kept[k] == all[more[k]];
      assert forall i: nat :: i < |all| ==> (keep(all[i]) <==> i in more);
      assert PlacesOf(all, keep, kept, more);
    } else {
      assert |xs| !in places;
      assert forall i: nat :: i < |all| ==> (keep(all[i]) <==> i in places);
      assert PlacesOf(all, keep, ys, places) && ys + [] == ys;
    }
  }

  /** What the filter leaves of `was`: the datasets the caller may see, in their
      order; the services among them offered, unless all are kept. */
  ghost predicate LeftOf(was: Catalog, c: Catalog, decide: Dataset -> bool, services: ServiceFiltering) {
    && c == was.(datasets := c.datasets, dataServices := c.dataServices)
    && KeptInOrder(was.datasets, decide, c.datasets)
    && KeptInOrder(was.dataServices, (s: DataService) => services.KeepAll? || ServiceOffered(was, decide, s.id), c.dataServices)
  }

  lemma FilterLeaves(c: Catalog, decide: Dataset -> bool, services: ServiceFiltering)
    ensures LeftOf(c, FilterCatalog(c, decide, services), decide, services)
  {
    hide Retain, KeptInOrder, ServiceShown, ServiceOffered;
    var offered := (s: DataService) => services.KeepAll? || ServiceOffered(c, decide, s.id);
    RetainKeepsOrder(c.datasets, decide);
    RetainKeepsOrder(c.dataServices, offered);
    forall s: DataService {
      ShownIsOffered(c, decide, s.id);
    }
    if services.KeepAll? {
      RetainAll(c.dataServices, offered);
    } else {
      RetainSame(c.dataServices, offered, (s: DataService) => ServiceShown(c, decide, s.id));
    }
  }

  lemma {:induction false} RetainAll<T(!new)>(xs: seq<T>, keep: T -> bool)
    requires forall x :: x in xs ==> keep(x)
    ensures Retain(xs, keep) == xs
  {
    if xs != [] {
      assert xs[0] in xs;
      RetainAll(xs[1..], keep);
    }
  }

  /** `filter_catalogs_by_policy`: filters every catalog in place. */
  method FilterCatalogsByPolicy(
    catalogs: array<Catalog>, enabled: bool, decide: Dataset -> bool, services: ServiceFiltering)
    modifies catalogs
    ensures forall i :: 0 <= i < catalogs.Length ==>
                catalogs[i] == if enabled then FilterCatalog(old(catalogs[i]), decide, services) else old(catalogs[i])
    ensures enabled ==> forall i :: 0 <= i < catalogs.Length ==> LeftOf(old(catalogs[i]), catalogs[i], decide, services)
  {
    hide Retain, ServicesUsedBy, ServiceIsVisible, LeftOf;
    if !enabled {
      return;
    }
    for i := 0 to catalogs.Length
      invariant forall j :: 0 <= j < i ==> catalogs[j] == FilterCatalog(old(catalogs[j]), decide, services)
      invariant forall j :: i <= j < catalogs.Length ==> catalogs[j] == old(catalogs[j])
    {
      var c := catalogs[i];
      ghost var was := c;
      var usedByAny := ServicesUsedBy(c.datasets);
      c := c.(datasets := Retain(c.datasets, decide));
      if services == HideGatedOnly {
        var usedByVisible := ServicesUsedBy(c.datasets);
        var keep := (s: DataService) => ServiceIsVisible(s.id, usedByAny, usedByVisible);
        RetainSame(c.dataServices, keep, (s: DataService) => ServiceShown(was, decide, s.id));
        c := c.(dataServices := Retain(c.dataServices, keep));
      }
      catalogs[i] := c;
    }
    forall i | 0 <= i < catalogs.Length
      ensures LeftOf(old(catalogs[i]), catalogs[i], decide, services)
    {
      FilterLeaves(old(catalogs[i]), decide, services);
    }
  }

  /** The visible datasets, unless the request is cancelled before one of them. */
  method DecideDatasets(ds: seq<Dataset>, decide: Dataset -> bool, cancelled: nat -> bool)
    returns (visible: seq<Dataset>, complete: bool)
    ensures complete <==> forall i: nat :: i < |ds| ==> !cancelled(i)
    ensures complete ==> visible == Retain(ds, decide)
  {
    visible := [];
    for i := 0 to |ds|
      invariant forall j: nat :: j < i ==> !cancelled(j)
      invariant visible == Retain(ds[..i], decide)
    {
      if cancelled(i) {
        return visible, false;
      }
      RetainAppend(ds[..i], ds[i], decide);
      assert ds[..i + 1] == ds[..i] + [ds[i]];
      if decide(ds[i]) {
        visible := visible + [ds[i]];
      }
    }
    assert ds[..|ds|] == ds;
    complete := true;
  }

  /** The IRI of a dataset of `c` the caller may see, or of a service offered. */
  ghost predicate IriOffered(c: Catalog, decide: Dataset -> bool, iri: string) {
    || (exists d :: d in c.datasets && decide(d) && iri == DatasetResourceIri(c.originNode, d.id))
    || (exists s :: s in c.dataServices && ServiceOffered(c, decide, s.id) && iri == ServiceResourceIri(c.originNode, s.id))
  }

  lemma VisibleAreOffered(c: Catalog, decide: Dataset -> bool)
    ensures forall iri :: iri in VisibleResourceIris(c, decide) <==> IriOffered(c, decide, iri)
  {
    hide DatasetResourceIri, ServiceResourceIri, ServiceShown, ServiceOffered;
    forall id {
      ShownIsOffered(c, decide, id);
    }
  }

  /** `visible_resource_iris`, with the request cancelled before dataset `i` when
      `cancelled(i)`: the answer is then partial (nothing), and is discarded. */
  method CollectVisibleIris(c: Catalog, decide: Dataset -> bool, cancelled: nat -> bool)
    returns (iris: set<string>, complete: bool)
    ensures complete <==> forall i: nat :: i < |c.datasets| ==> !cancelled(i)
    ensures iris == if complete then VisibleResourceIris(c, decide) else {}
    ensures complete ==> forall iri :: iri in iris <==> IriOffered(c, decide, iri)
  {
    hide DatasetResourceIri, ServiceResourceIri, Retain, ServicesUsedBy, ServiceIsVisible;
    var visible;
    visible, complete := DecideDatasets(c.datasets, decide, cancelled);
    iris := {};
    if !complete {
      return;
    }
    for i := 0 to |visible|
      invariant iris == set d | d in visible[..i] :: DatasetResourceIri(c.originNode, d.id)
    {
      iris := iris + {DatasetResourceIri(c.originNode, visible[i].id)};
    }
    ghost var datasetIris := iris;
    assert datasetIris == set d | d in c.datasets && decide(d) :: DatasetResourceIri(c.originNode, d.id);
    var usedByAny, usedByVisible := ServicesUsedBy(c.datasets), ServicesUsedBy(visible);
    var ss := c.dataServices;
    for i := 0 to |ss|
      invariant iris == datasetIris + set s | s in ss[..i] && ServiceShown(c, decide, s.id) :: ServiceResourceIri(c.originNode, s.id)
    {
      if ServiceIsVisible(ss[i].id, usedByAny, usedByVisible) {
        iris := iris + {ServiceResourceIri(c.originNode, ss[i].id)};
      }
    }
    VisibleAreOffered(c, decide);
  }

  lemma {:induction false} RetainSame<T(!new)>(xs: seq<T>, keep: T -> bool, also: T -> bool)
    requires forall x :: x in xs ==> keep(x) == also(x)
    ensures Retain(xs, keep) == Retain(xs, also)
  {
    if xs != [] {
      assert xs[0] in xs;
      RetainSame(xs[1..], keep, also);
    }
  }

  lemma {:induction false} RetainAppend<T(!new)>(xs: seq<T>, x: T, keep: T -> bool)
    ensures Retain(xs + [x], keep) == Retain(xs, keep) + if keep(x) then [x] else []
  {
    if xs == [] {
      assert xs + [x] == [x];
    } else {
      assert (xs + [x])[1..] == xs[1..] + [x];
      RetainAppend(xs[1..], x, keep);
    }
  }
}
