/** Collecting a response's datasets and services (`crawler/lib.rs`): the first
    entry with an id wins, and nested catalogs are flattened. */
module Response {
  import opened Text
  import opened CatalogCore
  import opened Vocabulary
  import opened Parser
  import opened Subtrees
  import opened RoundTrip
  import opened Read
  import opened Write

  /** `@id`, or `id` where there is no `@id`; only a string counts. */
  function IdOf(v: Json): (id: Option<string>) {
    if Get(v, "@id").Some? then GetString(v, "@id") else GetString(v, "id")
  }

  function OrEmpty(s: Option<string>): (r: string) {
    match s
    case Some(text) => text
    case None => ""
  }

  function DataServiceOf(v: Json): (s: Option<DataService>) {
    match IdOf(v)
    case Some(id) => Some(DataService(id, OrEmpty(GetString(v, "endpointURL")), GetString(v, "endpointDescription")))
    case None => None
  }

  function DistributionOf(v: Json): (d: Distribution) {
    Distribution(
      OrEmpty(GetString(v, "format")),
      match Get(v, "accessService")
      case Some(Str(id)) => id
      case Some(Obj(fields)) => OrEmpty(IdOf(Obj(fields)))
      case _ => "")
  }

  /** The service a distribution describes in place, if it does. */
  function EmbeddedService(v: Json): (s: Option<DataService>) {
    match Get(v, "accessService")
    case Some(Obj(fields)) => DataServiceOf(Obj(fields))
    case _ => None
  }

  const DESCRIPTOR_KEYS: seq<string> := ["title", "description", "version", "creatorName", "thumbnail", "keywords"]

  /** The string-valued ones among `keys`. */
  function StringsOf(v: Json, keys: seq<string>): (properties: map<string, string>) {
    map key | key in keys && GetString(v, key).Some? :: GetString(v, key).value
  }

  function DatasetOf(render: Json -> string, v: Json, id: string): (d: Dataset) {
    var ds := GetItems(v, "distribution");
    Dataset(id, StringsOf(v, DESCRIPTOR_KEYS), seq(|ds|, i requires 0 <= i < |ds| => DistributionOf(ds[i])), PoliciesOf(render, v))
  }

  // ----- The entries of a response, and what collecting them gives -----

  datatype Entry = ServiceEntry(v: Json) | DatasetEntry(v: Json)

  function ServiceEntries(items: seq<Json>): (entries: seq<Entry>) {
    seq(|items|, i requires 0 <= i < |items| => ServiceEntry(items[i]))
  }

  function DatasetEntries(items: seq<Json>): (entries: seq<Entry>) {
    seq(|items|, i requires 0 <= i < |items| => DatasetEntry(items[i]))
  }

  /** All entries in the order they are met: services, datasets, nested catalogs. */
  function Flat(v: Json): (entries: seq<Entry>)
    decreases v
  {
    var services, datasets := GetItems(v, "service"), GetItems(v, "dataset");
    ServiceEntries(services) + DatasetEntries(datasets) + FlatAll(v, GetItems(v, "catalog"))
  }

  function FlatAll(whole: Json, nested: seq<Json>): (entries: seq<Entry>)
    requires forall i :: 0 <= i < |nested| ==> nested[i] < whole
    decreases whole, 0, |nested|
  {
    if nested == [] then []
    else
      FlatAll(whole, nested[..|nested| - 1]) + Flat(nested[|nested| - 1])
  }

  datatype Collected = Collected(datasets: seq<Dataset>, services: seq<DataService>)

  function DatasetIds(ds: seq<Dataset>): (ids: set<string>) {
    set d | d in ds :: d.id
  }

  function ServiceIds(ss: seq<DataService>): (ids: set<string>) {
    set s | s in ss :: s.id
  }

  function AddService(ss: seq<DataService>, s: Option<DataService>): (r: seq<DataService>) {
    if s.Some? && s.value.id !in ServiceIds(ss) then ss + [s.value] else ss
  }

  function AddEmbedded(ss: seq<DataService>, distributions: seq<Json>): (r: seq<DataService>) {
    if distributions == [] then ss
    else AddService(AddEmbedded(ss, distributions[..|distributions| - 1]), EmbeddedService(distributions[|distributions| - 1]))
  }

  function Absorb(render: Json -> string, c: Collected, e: Entry): (r: Collected) {
    match e
    case ServiceEntry(v) => c.(services := AddService(c.services, DataServiceOf(v)))
    case DatasetEntry(v) =>
      match IdOf(v)
      case Some(id) =>
        if id in DatasetIds(c.datasets) then c
        else Collected(c.datasets + [DatasetOf(render, v, id)], AddEmbedded(c.services, GetItems(v, "distribution")))
      case None => c
  }

  function AbsorbAll(render: Json -> string, c: Collected, entries: seq<Entry>): (r: Collected) {
    if entries == [] then c
    else Absorb(render, AbsorbAll(render, c, entries[..|entries| - 1]), entries[|entries| - 1])
  }

  lemma {:induction false} AbsorbAppend(render: Json -> string, c: Collected, a: seq<Entry>, b: seq<Entry>)
    ensures AbsorbAll(render, c, a + b) == AbsorbAll(render, AbsorbAll(render, c, a), b)
  {
    hide Absorb;
    if b == [] {
      assert a + b == a;
    } else {
      AbsorbAppend(render, c, a, b[..|b| - 1]);
      assert (a + b)[..|a + b| - 1] == a + b[..|b| - 1];
    }
  }

  /** The catalog being collected, with the ids seen so far kept in sets. */
  class Collector {
    const render: Json -> string
    var datasets: seq<Dataset>
    var services: seq<DataService>
    var seenDatasets: set<string>
    var seenServices: set<string>

    ghost predicate Valid()
      reads this
    {
      seenDatasets == DatasetIds(datasets) && seenServices == ServiceIds(services)
    }

    ghost function Contents(): (c: Collected)
      reads this
    {
      Collected(datasets, services)
    }

    constructor (render: Json -> string)
      ensures Valid() && Contents() == Collected([], []) && this.render == render
    {
      this.render := render;
      datasets, services, seenDatasets, seenServices := [], [], {}, {};
    }

    method AddDataService(v: Json)
      requires seenServices == ServiceIds(services)
      modifies `services, `seenServices
      ensures seenServices == ServiceIds(services)
      ensures services == AddService(old(services), DataServiceOf(v))
    {
      var s := DataServiceOf(v);
      if s.Some? && s.value.id !in seenServices {
        seenServices := seenServices + {s.value.id};
        services := services + [s.value];
      }
    }

    /** The dataset's distributions; a service described in place is collected too. */
    method CollectDistributions(v: Json) returns (ds: seq<Distribution>)
      requires seenServices == ServiceIds(services)
      modifies `services, `seenServices
      ensures seenServices == ServiceIds(services)
      ensures services == AddEmbedded(old(services), GetItems(v, "distribution"))
      ensures |ds| == |GetItems(v, "distribution")| && forall i :: 0 <= i < |ds| ==> ds[i] == DistributionOf(GetItems(v, "distribution")[i])
    {
      hide DataServiceOf, DistributionOf;
      var items := GetItems(v, "distribution");
      ds := [];
      for i := 0 to |items|
        invariant seenServices == ServiceIds(services) && services == AddEmbedded(old(services), items[..i])
        invariant |ds| == i && forall j :: 0 <= j < i ==> ds[j] == DistributionOf(items[j])
      {
        assert items[..i + 1][..i] == items[..i];
        match Get(items[i], "accessService") {
          case Some(Obj(fields)) => AddDataService(Obj(fields));
          case _ =>
        }
        ds := ds + [DistributionOf(items[i])];
      }
      assert items[..|items|] == items;
    }

    method CollectDataset(v: Json)
      requires Valid()
      modifies this
      ensures Valid() && Contents() == Absorb(render, old(Contents()), DatasetEntry(v))
      // A dataset that is added says what its node says, every offer included.
      ensures datasets == old(datasets) || exists d :: datasets == old(datasets) + [d] && DatasetSays(render, v, d)
      ensures datasets == old(datasets) <==> forall id :: IdIs(v, id) ==> id in DatasetIds(old(datasets))
    {
      hide PoliciesOf, StringsOf, DistributionOf, AddEmbedded, DatasetSays, IdIs, IdOf, DatasetIds;
      forall id {
        IdsAre(v, id);
      }
      var id := IdOf(v);
      if id.None? || id.value in seenDatasets {
        return;
      }
      seenDatasets := seenDatasets + {id.value};
      var policies := PoliciesOf(render, v);
      var properties := ReadStrings(v, DESCRIPTOR_KEYS);
      var ds := CollectDistributions(v);
      assert ds == DatasetOf(render, v, id.value).distributions;
      DatasetOfSays(render, v, id.value);
      datasets := datasets + [Dataset(id.value, properties, ds, policies)];
      IdsAfterPush(old(datasets), datasets[|datasets| - 1]);
    }

    method CollectServices(items: seq<Json>)
      requires Valid()
      modifies this
      ensures Valid() && Contents() == AbsorbAll(render, old(Contents()), ServiceEntries(items))
    {
      hide DataServiceOf, ServiceIds;
      for i := 0 to |items|
        invariant Valid() && Contents() == AbsorbAll(render, old(Contents()), ServiceEntries(items[..i]))
      {
        assert ServiceEntries(items[..i + 1])[..i] == ServiceEntries(items[..i]);
        AddDataService(items[i]);
      }
      assert items[..|items|] == items;
    }

    method CollectDatasets(items: seq<Json>)
      requires Valid()
      modifies this
      ensures Valid() && Contents() == AbsorbAll(render, old(Contents()), DatasetEntries(items))
    {
      hide Absorb;
      for i := 0 to |items|
        invariant Valid() && Contents() == AbsorbAll(render, old(Contents()), DatasetEntries(items[..i]))
      {
        assert DatasetEntries(items[..i + 1])[..i] == DatasetEntries(items[..i]);
        CollectDataset(items[i]);
      }
      assert items[..|items|] == items;
    }

    /** `collect_datasets_and_services`. */
    method Collect(v: Json)
      requires Valid()
      modifies this
      ensures Valid() && Contents() == AbsorbAll(render, old(Contents()), Flat(v))
      decreases v, 1
    {
      hide AbsorbAll, Valid, Contents;
      var services', datasets', nested := GetItems(v, "service"), GetItems(v, "dataset"), GetItems(v, "catalog");
      ghost var start := Contents();
      ghost var entries := ServiceEntries(services') + DatasetEntries(datasets');
      AbsorbAppend(render, start, ServiceEntries(services'), DatasetEntries(datasets'));
      AbsorbAppend(render, start, entries, FlatAll(v, nested));
      assert Flat(v) == entries + FlatAll(v, nested);
      hide Flat, FlatAll;
      CollectServices(services');
      CollectDatasets(datasets');
      CollectNested(v, nested);
    }

    method CollectNested(whole: Json, nested: seq<Json>)
      requires Valid()
      requires forall i :: 0 <= i < |nested| ==> nested[i] < whole
      modifies this
      ensures Valid() && Contents() == AbsorbAll(render, old(Contents()), FlatAll(whole, nested))
      decreases whole, 0
    {
      hide AbsorbAll, Valid, Contents, Flat;
      AbsorbNothing(render, Contents());
      for i := 0 to |nested|
        invariant Valid() && Contents() == AbsorbAll(render, old(Contents()), FlatAll(whole, nested[..i]))
      {
        assert nested[..i + 1][..i] == nested[..i];
        AbsorbAppend(render, old(Contents()), FlatAll(whole, nested[..i]), Flat(nested[i]));
        Collect(nested[i]);
      }
      assert nested[..|nested|] == nested;
    }
  }

  lemma AbsorbNothing(render: Json -> string, c: Collected)
    ensures AbsorbAll(render, c, []) == c
  {
  }

  method ReadStrings(v: Json, keys: seq<string>) returns (properties: map<string, string>)
    ensures properties == StringsOf(v, keys)
  {
    hide GetString;
    properties := map[];
    for i := 0 to |keys|
      invariant properties == StringsOf(v, keys[..i])
    {
      var value := GetString(v, keys[i]);
      if value.Some? {
        properties := properties[keys[i] := value.value];
      }
    }
    assert keys[..|keys|] == keys;
  }

  // ----- What collecting guarantees -----

  ghost predicate UniqueIds(c: Collected) {
    UniqueDatasets(c.datasets) && UniqueServices(c.services)
  }

  lemma AddServiceUnique(ss: seq<DataService>, s: Option<DataService>)
    requires UniqueServices(ss)
    ensures UniqueServices(AddService(ss, s))
  {
    forall i | 0 <= i < |ss| ensures ss[i].id in ServiceIds(ss) {
      assert ss[i] in ss;
    }
  }

  lemma {:induction false} AddEmbeddedUnique(ss: seq<DataService>, distributions: seq<Json>)
    requires UniqueServices(ss)
    ensures UniqueServices(AddEmbedded(ss, distributions))
  {
    hide AddService;
    if distributions != [] {
      AddEmbeddedUnique(ss, distributions[..|distributions| - 1]);
      AddServiceUnique(AddEmbedded(ss, distributions[..|distributions| - 1]), EmbeddedService(distributions[|distributions| - 1]));
    }
  }

  lemma AbsorbUnique(render: Json -> string, c: Collected, e: Entry)
    requires UniqueIds(c)
    ensures UniqueIds(Absorb(render, c, e))
  {
    hide AddService, AddEmbedded, DatasetOf, UniqueServices;
    match e {
      case ServiceEntry(v) => AddServiceUnique(c.services, DataServiceOf(v));
      case DatasetEntry(v) =>
        AddEmbeddedUnique(c.services, GetItems(v, "distribution"));
        forall i | 0 <= i < |c.datasets| ensures c.datasets[i].id in DatasetIds(c.datasets) {
          assert c.datasets[i] in c.datasets;
        }
        DatasetOfId(render, v);
    }
  }

  lemma DatasetOfId(render: Json -> string, v: Json)
    ensures forall id :: DatasetOf(render, v, id).id == id
  {
  }

  lemma {:induction false} CollectedUnique(render: Json -> string, entries: seq<Entry>)
    ensures UniqueIds(AbsorbAll(render, Collected([], []), entries))
  {
    hide Absorb;
    if entries != [] {
      CollectedUnique(render, entries[..|entries| - 1]);
      AbsorbUnique(render, AbsorbAll(render, Collected([], []), entries[..|entries| - 1]), entries[|entries| - 1]);
    }
  }

  /** Entry `i` is the first dataset entry with its id. */
  predicate FirstWithId(entries: seq<Entry>, i: nat)
    requires i < |entries|
  {
    && entries[i].DatasetEntry? && IdOf(entries[i].v).Some?
    && forall j :: 0 <= j < i && entries[j].DatasetEntry? ==> IdOf(entries[j].v) != IdOf(entries[i].v)
  }

  predicate HasEntryWithId(entries: seq<Entry>, id: string) {
    exists i :: 0 <= i < |entries| && entries[i].DatasetEntry? && IdOf(entries[i].v) == Some(id)
  }

  lemma {:induction false} CollectedIds(render: Json -> string, entries: seq<Entry>)
    ensures forall id :: id in DatasetIds(AbsorbAll(render, Collected([], []), entries).datasets) <==> HasEntryWithId(entries, id)
  {
    hide DatasetOf, AddEmbedded, AddService, DataServiceOf, IdOf;
    if entries != [] {
      var n := |entries| - 1;
      var before, c := entries[..n], AbsorbAll(render, Collected([], []), entries[..n]);
      CollectedIds(render, before);
      var c' := AbsorbAll(render, Collected([], []), entries);
      assert c' == Absorb(render, c, entries[n]);
      DatasetOfId(render, entries[n].v);
      forall id ensures HasEntryWithId(entries, id) <==>
                        HasEntryWithId(before, id) || (entries[n].DatasetEntry? && IdOf(entries[n].v) == Some(id))
      {
        if HasEntryWithId(before, id) {
          var i :| 0 <= i < |before| && before[i].DatasetEntry? && IdOf(before[i].v) == Some(id);
          assert entries[i] == before[i];
        }
      }
      IdsAfterPush(c.datasets, DatasetOf(render, entries[n].v, OrEmpty(IdOf(entries[n].v))));
    }
  }

  lemma IdsAfterPush(ds: seq<Dataset>, d: Dataset)
    ensures DatasetIds(ds + [d]) == DatasetIds(ds) + {d.id}
  {
  }

  /** The collected datasets are the first entries with their ids, and only those. */
  lemma {:induction false} FirstEntryWins(render: Json -> string, entries: seq<Entry>, d: Dataset)
    ensures d in AbsorbAll(render, Collected([], []), entries).datasets <==>
            exists i :: 0 <= i < |entries| && FirstWithId(entries, i) && d == DatasetOf(render, entries[i].v, IdOf(entries[i].v).value)
  {
    hide DatasetOf, AddEmbedded, AddService, DataServiceOf, IdOf, FirstWithId, HasEntryWithId, DatasetIds;
    if entries != [] {
      var n := |entries| - 1;
      var before := entries[..n];
      FirstEntryWins(render, before, d);
      CollectedIds(render, before);
      forall i: nat | i < n ensures FirstWithId(before, i) <==> FirstWithId(entries, i) {
        FirstAmongMore(entries, n, i);
      }
      LastIsFirst(entries);
      assert AbsorbAll(render, Collected([], []), entries) == Absorb(render, AbsorbAll(render, Collected([], []), before), entries[n]);
    }
  }

  lemma FirstAmongMore(entries: seq<Entry>, n: nat, i: nat)
    requires i < n <= |entries|
    ensures FirstWithId(entries[..n], i) <==> FirstWithId(entries, i)
  {
    hide IdOf;
    assert forall j :: 0 <= j <= i ==> entries[..n][j] == entries[j];
  }

  lemma LastIsFirst(entries: seq<Entry>)
    requires entries != []
    ensures var n := |entries| - 1;
            FirstWithId(entries, n) <==>
            entries[n].DatasetEntry? && IdOf(entries[n].v).Some? && !HasEntryWithId(entries[..n], IdOf(entries[n].v).value)
  {
    hide IdOf;
    var n := |entries| - 1;
    assert forall j :: 0 <= j < n ==> entries[..n][j] == entries[j];
  }

  // ----- From a response to the store and back -----

  datatype Participant = Participant(id: string, providerDid: Option<string>)

  function CatalogOfCollected(v: Json, p: Participant, uuid: string, c: Collected): (r: Catalog) {
    var id := match GetString(v, "@id") case Some(id) => id case None => "urn:uuid:" + uuid;
    Catalog(id, p.id, p.providerDid, c.datasets, c.services, map[])
  }

  /** What a response parses to; `uuid` names a catalog that has no id. The
      identity is the configured one, whatever the response claims. */
  function ParsedCatalog(render: Json -> string, v: Json, p: Participant, uuid: string): (c: Catalog) {
    CatalogOfCollected(v, p, uuid, AbsorbAll(render, Collected([], []), Flat(v)))
  }

  /** `parse_catalog_response`. */
  method ParseCatalogResponse(render: Json -> string, v: Json, p: Participant, uuid: string) returns (c: Catalog)
    ensures c == ParsedCatalog(render, v, p, uuid)
    ensures c.originNode == p.id && c.participantId == p.providerDid
    ensures Get(v, "@id") == Some(Str(c.id)) || (c.id == "urn:uuid:" + uuid && GetString(v, "@id") == None)
    ensures forall d :: d in c.datasets ==>
              exists i :: 0 <= i < |Flat(v)| && FirstWithId(Flat(v), i) && DatasetSays(render, Flat(v)[i].v, d)
  {
    forall d | d in ParsedCatalog(render, v, p, uuid).datasets {
      ParsedDatasetSays(render, v, p, uuid, d);
    }
    hide AbsorbAll, Flat, DatasetSays, FirstWithId;
    var collector := new Collector(render);
    collector.Collect(v);
    var id := match GetString(v, "@id") case Some(id) => id case None => "urn:uuid:" + uuid;
    c := Catalog(id, p.id, p.providerDid, collector.datasets, collector.services, map[]);
  }

  // ----- What a parsed catalog says -----

  function EntriesAt(v: Json, key: string): (entries: seq<Json>) {
    match Get(v, key)
    case Some(value) => OneOrMany(value)
    case None => []
  }

  /** The offers of a dataset node, under any spelling of their key. */
  function OffersIn(v: Json): (offers: seq<Json>) {
    EntriesAt(v, "hasPolicy") + EntriesAt(v, "odrl:hasPolicy") + EntriesAt(v, "http://www.w3.org/ns/odrl/2/hasPolicy")
  }

  /** `d` has one policy per offer of `v`, in order, and each is what its offer
      parses to. */
  ghost predicate OffersKept(render: Json -> string, v: Json, d: Dataset) {
    && |d.policies| == |OffersIn(v)|
    && forall i :: 0 <= i < |d.policies| ==> d.policies[i] == PolicyEntryOf(render, OffersIn(v)[i])
  }

  predicate IdIs(v: Json, id: string) {
    if Get(v, "@id").Some? then Get(v, "@id") == Some(Str(id)) else Get(v, "id") == Some(Str(id))
  }

  predicate TextIs(v: Json, key: string, text: string) {
    Get(v, key) == Some(Str(text)) || (text == "" && GetString(v, key) == None)
  }

  ghost predicate DistributionSays(v: Json, x: Distribution) {
    && TextIs(v, "format", x.format)
    && match Get(v, "accessService")
       case Some(Str(id)) => x.accessService == id
       case Some(Obj(fields)) => IdIs(Obj(fields), x.accessService) || (x.accessService == "" && forall id :: !IdIs(Obj(fields), id))
       case _ => x.accessService == ""
  }

  /** `d` says what the node `v` says: its id, the descriptors that are strings,
      its distributions and its offers. */
  ghost predicate DatasetSays(render: Json -> string, v: Json, d: Dataset) {
    && IdIs(v, d.id)
    && (forall key, text :: key in d.properties && d.properties[key] == text <==>
          key in {"title", "description", "version", "creatorName", "thumbnail", "keywords"} && Get(v, key) == Some(Str(text)))
    && |d.distributions| == |GetItems(v, "distribution")|
    && (forall i :: 0 <= i < |d.distributions| ==> DistributionSays(GetItems(v, "distribution")[i], d.distributions[i]))
    && OffersKept(render, v, d)
  }

  lemma FlatOfThree(a: seq<Json>, b: seq<Json>, c: seq<Json>)
    requires |a| <= 1 && |b| <= 1 && |c| <= 1
    ensures FlatOneOrMany(a + b + c) == FlatOneOrMany(a) + FlatOneOrMany(b) + FlatOneOrMany(c)
    ensures |a| == 1 ==> FlatOneOrMany(a) == OneOrMany(a[0])
  {
    hide OneOrMany;
    FlatAppend(a + b, c);
    FlatAppend(a, b);
    assert |a| == 1 ==> a[1..] == [];
  }

  lemma OffersAre(v: Json)
    ensures OneOrManyAliased(v, "hasPolicy") == OffersIn(v)
  {
    hide OneOrMany;
    if v.Obj? {
      var f := v.fields;
      AliasedIsHeld(f, "hasPolicy");
      assert "odrl:" + "hasPolicy" == "odrl:hasPolicy" && ODRL_NS + "hasPolicy" == "http://www.w3.org/ns/odrl/2/hasPolicy";
      hide AliasedAll, ODRL_NS;
      FlatOfThree(HeldAt(f, "hasPolicy"), HeldAt(f, "odrl:hasPolicy"), HeldAt(f, "http://www.w3.org/ns/odrl/2/hasPolicy"));
      FlatOfThree(HeldAt(f, "odrl:hasPolicy"), [], []);
      FlatOfThree(HeldAt(f, "http://www.w3.org/ns/odrl/2/hasPolicy"), [], []);
    } else {
      NothingPresent(v, Spellings("hasPolicy"));
    }
  }

  lemma DistributionOfSays(v: Json)
    ensures DistributionSays(v, DistributionOf(v))
  {
  }

  lemma DescriptorKeys(key: string)
    ensures key in DESCRIPTOR_KEYS <==> key in {"title", "description", "version", "creatorName", "thumbnail", "keywords"}
  {
  }

  lemma StringsAre(v: Json, key: string, text: string)
    ensures key in StringsOf(v, DESCRIPTOR_KEYS) && StringsOf(v, DESCRIPTOR_KEYS)[key] == text <==>
            key in {"title", "description", "version", "creatorName", "thumbnail", "keywords"} && Get(v, key) == Some(Str(text))
  {
    DescriptorKeys(key);
    hide DESCRIPTOR_KEYS, Get;
  }

  lemma DatasetOfSays(render: Json -> string, v: Json, id: string)
    requires IdOf(v) == Some(id)
    ensures DatasetSays(render, v, DatasetOf(render, v, id))
  {
    OffersAre(v);
    forall key, text {
      StringsAre(v, key, text);
    }
    forall item {
      DistributionOfSays(item);
    }
    hide DESCRIPTOR_KEYS, StringsOf, PolicyEntryOf, OneOrManyAliased, OffersIn, DistributionOf, DistributionSays;
  }

  // ----- Where its entries come from -----

  /** The catalog nested in `v` along `path`, each step an item of `catalog`. */
  function NestedAt(v: Json, path: seq<nat>): (c: Option<Json>) {
    if path == [] then Some(v)
    else if path[0] < |GetItems(v, "catalog")| then NestedAt(GetItems(v, "catalog")[path[0]], path[1..])
    else None
  }

  /** `e` is an item of `key` in the response or in a catalog nested in it. */
  ghost predicate ListedUnder(v: Json, key: string, e: Json) {
    exists path :: NestedAt(v, path).Some? && e in GetItems(NestedAt(v, path).value, key)
  }

  lemma ListedHereOrBelow(v: Json, key: string, e: Json)
    ensures ListedUnder(v, key, e) <==> e in GetItems(v, key) || exists c :: c in GetItems(v, "catalog") && ListedUnder(c, key, e)
  {
    hide GetItems;
    if path :| NestedAt(v, path).Some? && e in GetItems(NestedAt(v, path).value, key) {
      if path != [] {
        var c := GetItems(v, "catalog")[path[0]];
        assert NestedAt(c, path[1..]) == NestedAt(v, path);
        assert ListedUnder(c, key, e);
      }
    }
    if e in GetItems(v, key) {
      assert NestedAt(v, []) == Some(v);
    }
    if c :| c in GetItems(v, "catalog") && ListedUnder(c, key, e) {
      var path :| NestedAt(c, path).Some? && e in GetItems(NestedAt(c, path).value, key);
      var i :| 0 <= i < |GetItems(v, "catalog")| && GetItems(v, "catalog")[i] == c;
      var step: nat := i;
      assert ([step] + path)[1..] == path;
      assert NestedAt(v, [step] + path) == NestedAt(c, path);
    }
  }

  lemma {:induction false} FlatAllAre(whole: Json, nested: seq<Json>, e: Entry)
    requires forall i :: 0 <= i < |nested| ==> nested[i] < whole
    ensures e in FlatAll(whole, nested) <==> exists c :: c in nested && e in Flat(c)
    decreases |nested|
  {
    hide Flat;
    if nested != [] {
      var n := |nested| - 1;
      FlatAllAre(whole, nested[..n], e);
      assert nested == nested[..n] + [nested[n]];
      assert FlatAll(whole, nested) == FlatAll(whole, nested[..n]) + Flat(nested[n]);
      if e in Flat(nested[n]) {
        assert nested[n] in nested;
      }
    }
  }

  lemma FlatIs(v: Json, e: Entry)
    ensures e in Flat(v) <==>
            || (e.ServiceEntry? && e.v in GetItems(v, "service")) || (e.DatasetEntry? && e.v in GetItems(v, "dataset"))
            || exists c :: c in GetItems(v, "catalog") && e in Flat(c)
  {
    var services, datasets := ServiceEntries(GetItems(v, "service")), DatasetEntries(GetItems(v, "dataset"));
    FlatAllAre(v, GetItems(v, "catalog"), e);
    assert Flat(v) == services + datasets + FlatAll(v, GetItems(v, "catalog"));
    EntriesAre(GetItems(v, "service"), GetItems(v, "dataset"), e);
    hide Flat, FlatAll, ServiceEntries, DatasetEntries;
  }

  lemma EntriesAre(services: seq<Json>, datasets: seq<Json>, e: Entry)
    ensures e in ServiceEntries(services) <==> e.ServiceEntry? && e.v in services
    ensures e in DatasetEntries(datasets) <==> e.DatasetEntry? && e.v in datasets
  {
    if e.ServiceEntry? && e.v in services {
      var i :| 0 <= i < |services| && services[i] == e.v;
      assert ServiceEntries(services)[i] == e;
    }
    if e.DatasetEntry? && e.v in datasets {
      var i :| 0 <= i < |datasets| && datasets[i] == e.v;
      assert DatasetEntries(datasets)[i] == e;
    }
  }

  /** What is collected is every item of `dataset` and `service`, in the response
      and in the catalogs nested in it at any depth. */
  lemma {:induction false} EntriesAreListed(v: Json, e: Entry)
    ensures e in Flat(v) <==> ListedUnder(v, if e.DatasetEntry? then "dataset" else "service", e.v)
    decreases v
  {
    hide Flat, ListedUnder;
    var key := if e.DatasetEntry? then "dataset" else "service";
    FlatIs(v, e);
    ListedHereOrBelow(v, key, e.v);
    forall c | c in GetItems(v, "catalog") {
      EntriesAreListed(c, e);
    }
  }

  /** Every dataset of a parsed catalog says what the first node with its id
      says, and keeps every offer of it. */
  lemma ParsedDatasetSays(render: Json -> string, v: Json, p: Participant, uuid: string, d: Dataset)
    requires d in ParsedCatalog(render, v, p, uuid).datasets
    ensures exists i :: 0 <= i < |Flat(v)| && FirstWithId(Flat(v), i) && DatasetSays(render, Flat(v)[i].v, d)
  {
    var entries := Flat(v);
    hide DatasetSays, DatasetOf, Flat, AbsorbAll, IdOf;
    FirstEntryWins(render, entries, d);
    var i :| 0 <= i < |entries| && FirstWithId(entries, i) && d == DatasetOf(render, entries[i].v, IdOf(entries[i].v).value);
    DatasetOfSays(render, entries[i].v, IdOf(entries[i].v).value);
  }

  /** And every node listed with an id has its dataset. */
  lemma ListedIdsAreParsed(render: Json -> string, v: Json, p: Participant, uuid: string, id: string)
    ensures id in DatasetIds(ParsedCatalog(render, v, p, uuid).datasets) <==> exists e :: ListedUnder(v, "dataset", e) && IdIs(e, id)
  {
    CollectedIds(render, Flat(v));
    hide Flat, AbsorbAll, ListedUnder, IdIs, HasEntryWithId, DatasetIds;
    IdsAreListed(v, id);
  }

  lemma IdsAreListed(v: Json, id: string)
    ensures HasEntryWithId(Flat(v), id) <==> exists e :: ListedUnder(v, "dataset", e) && IdIs(e, id)
  {
    hide Flat, ListedUnder, IdOf, IdIs;
    forall e: Json ensures IdOf(e) == Some(id) <==> IdIs(e, id) {
      IdsAre(e, id);
    }
    if i :| 0 <= i < |Flat(v)| && Flat(v)[i].DatasetEntry? && IdOf(Flat(v)[i].v) == Some(id) {
      EntriesAreListed(v, Flat(v)[i]);
    }
    if e :| ListedUnder(v, "dataset", e) && IdIs(e, id) {
      EntriesAreListed(v, DatasetEntry(e));
      var i :| 0 <= i < |Flat(v)| && Flat(v)[i] == DatasetEntry(e);
    }
  }

  lemma IdsAre(e: Json, id: string)
    ensures IdOf(e) == Some(id) <==> IdIs(e, id)
  {
  }

  // ----- Its services -----

  ghost predicate ServiceSays(v: Json, s: DataService) {
    && IdIs(v, s.id) && TextIs(v, "endpointURL", s.endpointUrl)
    && forall text :: s.endpointDescription == Some(text) <==> Get(v, "endpointDescription") == Some(Str(text))
  }

  /** A distribution of the dataset node `v` describes the service `node` in place. */
  ghost predicate Embeds(v: Json, node: Json) {
    node.Obj? && exists item :: item in GetItems(v, "distribution") && Get(item, "accessService") == Some(node)
  }

  /** Entry `k` describes the service `node`: it is that service, or the first
      dataset with its id, with the service in a distribution. */
  ghost predicate DescribedAt(entries: seq<Entry>, k: nat, node: Json) {
    k < |entries| && (entries[k] == ServiceEntry(node) || (FirstWithId(entries, k) && Embeds(entries[k].v, node)))
  }

  ghost predicate Described(entries: seq<Entry>, node: Json) {
    exists k: nat :: DescribedAt(entries, k, node)
  }

  ghost predicate ServicesAre(ss: seq<DataService>, sources: iset<Json>) {
    && (forall s :: s in ss ==> exists node :: node in sources && DataServiceOf(node) == Some(s))
    && (forall node :: node in sources && DataServiceOf(node).Some? ==> DataServiceOf(node).value.id in ServiceIds(ss))
  }

  lemma OneMoreService(ss: seq<DataService>, sources: iset<Json>, node: Json)
    requires ServicesAre(ss, sources)
    ensures ServicesAre(AddService(ss, DataServiceOf(node)), sources + iset{node})
  {
    hide DataServiceOf;
    var s := DataServiceOf(node);
    var after := AddService(ss, s);
    assert forall x :: x in after <==> x in ss || (s == Some(x) && x.id !in ServiceIds(ss));
    assert ServiceIds(after) == ServiceIds(ss) + if s.Some? then {s.value.id} else {};
  }

  ghost function Embedded(ds: seq<Json>): (nodes: iset<Json>) {
    iset node: Json | node.Obj? && exists item :: item in ds && Get(item, "accessService") == Some(node)
  }

  lemma {:induction false} MoreServices(ss: seq<DataService>, sources: iset<Json>, ds: seq<Json>)
    requires ServicesAre(ss, sources)
    ensures ServicesAre(AddEmbedded(ss, ds), sources + Embedded(ds))
  {
    hide DataServiceOf, ServicesAre, AddService;
    if ds == [] {
      assert sources + Embedded(ds) == sources;
    } else {
      var n := |ds| - 1;
      MoreServices(ss, sources, ds[..n]);
      assert ds == ds[..n] + [ds[n]];
      var before, after := sources + Embedded(ds[..n]), sources + Embedded(ds);
      match Get(ds[n], "accessService") {
        case Some(Obj(fields)) =>
          OneMoreService(AddEmbedded(ss, ds[..n]), before, Obj(fields));
          assert after == before + iset{Obj(fields)};
        case _ =>
          NoService(AddEmbedded(ss, ds[..n]));
          assert after == before;
      }
    }
  }

  lemma NoService(ss: seq<DataService>)
    ensures AddService(ss, None) == ss
  {
  }

  ghost function Sources(entries: seq<Entry>): (nodes: iset<Json>) {
    iset node: Json | Described(entries, node)
  }

  lemma OneMoreSource(entries: seq<Entry>, e: Entry)
    ensures Sources(entries + [e]) == Sources(entries) + match e
                                                         case ServiceEntry(v) => iset{v}
                                                         case DatasetEntry(v) =>
                                                           if IdOf(v).Some? && !HasEntryWithId(entries, IdOf(v).value) then Embedded(GetItems(v, "distribution"))
                                                           else iset{}
  {
    hide IdOf, GetItems, Get;
    var n, all := |entries|, entries + [e];
    forall k: nat, node ensures DescribedAt(all, k, node) <==> if k == n then DescribedAt(all, n, node) else DescribedAt(entries, k, node) {
      if k < n {
        assert forall j :: 0 <= j <= k ==> all[j] == entries[j];
        assert FirstWithId(all, k) <==> FirstWithId(entries, k);
      }
    }
    if e.DatasetEntry? && IdOf(e.v).Some? {
      assert forall j :: 0 <= j < n ==> all[j] == entries[j];
      assert FirstWithId(all, n) <==> !HasEntryWithId(entries, IdOf(e.v).value);
    }
    forall node ensures node in Sources(all) <==> node in Sources(entries) || DescribedAt(all, n, node) {
    }
  }

  lemma {:induction false} CollectedServices(render: Json -> string, entries: seq<Entry>)
    ensures ServicesAre(AbsorbAll(render, Collected([], []), entries).services, Sources(entries))
  {
    hide ServicesAre, DatasetOf, DataServiceOf, IdOf, Sources, HasEntryWithId, AddEmbedded, AddService, Embedded, GetItems;
    if entries == [] {
      NoSources();
    } else {
      var n := |entries| - 1;
      var before, c := entries[..n], AbsorbAll(render, Collected([], []), entries[..n]);
      CollectedServices(render, before);
      CollectedIds(render, before);
      assert entries == before + [entries[n]];
      OneMoreSource(before, entries[n]);
      match entries[n] {
        case ServiceEntry(v) => OneMoreService(c.services, Sources(before), v);
        case DatasetEntry(v) =>
          MoreServices(c.services, Sources(before), GetItems(v, "distribution"));
          assert Sources(before) + iset{} == Sources(before);
      }
    }
  }

  lemma NoSources()
    ensures ServicesAre([], Sources([]))
  {
  }

  /** Every service of a parsed catalog says what a node describing it says, and
      every such node with an id has its service. */
  lemma ParsedServicesSay(render: Json -> string, v: Json, p: Participant, uuid: string)
    ensures var c := ParsedCatalog(render, v, p, uuid);
            && (forall s :: s in c.dataServices ==> exists node :: Described(Flat(v), node) && ServiceSays(node, s))
            && (forall node, id :: Described(Flat(v), node) && IdIs(node, id) ==> id in ServiceIds(c.dataServices))
  {
    CollectedServices(render, Flat(v));
    hide Flat, AbsorbAll, Described;
    forall node, s: DataService ensures DataServiceOf(node) == Some(s) ==> ServiceSays(node, s) {
    }
    forall node, id ensures IdIs(node, id) ==> DataServiceOf(node).Some? && DataServiceOf(node).value.id == id {
      IdsAre(node, id);
    }
    hide DataServiceOf, ServiceSays, IdIs, ServiceIds;
    assert forall node :: node in Sources(Flat(v)) <==> Described(Flat(v), node);
  }

  // ----- Which entry wins -----

  /** A catalog's own services come first, then its own datasets, then what is
      nested in it. */
  lemma FlatBegins(v: Json)
    ensures ServiceEntries(GetItems(v, "service")) + DatasetEntries(GetItems(v, "dataset")) <= Flat(v)
  {
    hide ServiceEntries, DatasetEntries, GetItems;
  }

  lemma {:induction false} AbsorbKeeps(render: Json -> string, c: Collected, entries: seq<Entry>)
    ensures forall s :: s in c.services ==> s in AbsorbAll(render, c, entries).services
  {
    hide DatasetOf, DataServiceOf, IdOf, AddEmbedded;
    if entries != [] {
      AbsorbKeeps(render, c, entries[..|entries| - 1]);
      forall ss, ds {
        EmbeddedKeeps(ss, ds);
      }
    }
  }

  lemma {:induction false} EmbeddedKeeps(ss: seq<DataService>, ds: seq<Json>)
    ensures forall s :: s in ss ==> s in AddEmbedded(ss, ds)
  {
    hide EmbeddedService;
    if ds != [] {
      EmbeddedKeeps(ss, ds[..|ds| - 1]);
    }
  }

  /** Item `i` is the first of `items` that is a service with its id. */
  predicate FirstService(items: seq<Json>, i: nat)
    requires i < |items|
  {
    DataServiceOf(items[i]).Some? && forall j :: 0 <= j < i && DataServiceOf(items[j]).Some? ==>
                                                DataServiceOf(items[j]).value.id != DataServiceOf(items[i]).value.id
  }

  predicate ServiceWithId(items: seq<Json>, id: string) {
    exists i :: 0 <= i < |items| && DataServiceOf(items[i]).Some? && DataServiceOf(items[i]).value.id == id
  }

  lemma MoreServicesWithId(items: seq<Json>, n: nat, id: string)
    requires n < |items|
    ensures ServiceWithId(items[..n], id) ==> ServiceWithId(items, id)
    ensures FirstService(items, n) && ServiceWithId(items[..n], id) ==> id != DataServiceOf(items[n]).value.id
    ensures forall i :: 0 <= i < n ==> (FirstService(items, i) <==> FirstService(items[..n], i))
  {
    hide DataServiceOf;
    assert forall k :: 0 <= k < n ==> items[..n][k] == items[k];
  }

  lemma AddedServices(ss: seq<DataService>, s: Option<DataService>)
    ensures forall x :: x in ss ==> x in AddService(ss, s)
    ensures s.Some? && s.value.id !in ServiceIds(ss) ==> s.value in AddService(ss, s)
    ensures forall id :: id in ServiceIds(AddService(ss, s)) ==> id in ServiceIds(ss) || (s.Some? && s.value.id == id)
  {
  }

  lemma {:induction false} FirstServicesAbsorbed(render: Json -> string, items: seq<Json>)
    ensures var ss := AbsorbAll(render, Collected([], []), ServiceEntries(items)).services;
            && (forall i: nat :: i < |items| && FirstService(items, i) ==> DataServiceOf(items[i]).value in ss)
            && forall id :: id in ServiceIds(ss) ==> ServiceWithId(items, id)
  {
    if items != [] {
      var n := |items| - 1;
      FirstServicesAbsorbed(render, items[..n]);
      assert ServiceEntries(items)[..n] == ServiceEntries(items[..n]);
      var before := AbsorbAll(render, Collected([], []), ServiceEntries(items[..n])).services;
      var after := AbsorbAll(render, Collected([], []), ServiceEntries(items)).services;
      assert after == AddService(before, DataServiceOf(items[n]));
      assert DataServiceOf(items[n]).Some? ==> ServiceWithId(items, DataServiceOf(items[n]).value.id);
      AddedServices(before, DataServiceOf(items[n]));
      forall id {
        MoreServicesWithId(items, n, id);
      }
      assert FirstService(items, n) ==> DataServiceOf(items[n]).Some?;
      hide *;
      forall i: nat | i < |items| && FirstService(items, i) ensures DataServiceOf(items[i]).value in after {
        if i < n {
          assert items[..n][i] == items[i];
        }
      }
    }
  }

  /** A service the response itself lists is the one kept, whatever its
      distributions or the catalogs nested in it say of that id. */
  lemma ListedServicesWin(render: Json -> string, v: Json, p: Participant, uuid: string, i: nat)
    requires i < |GetItems(v, "service")| && FirstService(GetItems(v, "service"), i)
    ensures DataServiceOf(GetItems(v, "service")[i]).value in ParsedCatalog(render, v, p, uuid).dataServices
  {
    hide DataServiceOf, Absorb, AbsorbAll, GetItems, FirstService, DatasetEntries;
    var items := GetItems(v, "service");
    FlatBegins(v);
    var own := ServiceEntries(items);
    assert Flat(v) == own + Flat(v)[|own|..];
    hide Flat, ServiceEntries;
    FirstServicesAbsorbed(render, items);
    AbsorbAppend(render, Collected([], []), own, Flat(v)[|own|..]);
    AbsorbKeeps(render, AbsorbAll(render, Collected([], []), own), Flat(v)[|own|..]);
  }

  /** So is a dataset it lists: its first item with an id comes before every
      other node with that id. */
  lemma OwnDatasetsComeFirst(v: Json, j: nat)
    requires j < |GetItems(v, "dataset")| && IdOf(GetItems(v, "dataset")[j]).Some?
    requires forall k :: 0 <= k < j ==> IdOf(GetItems(v, "dataset")[k]) != IdOf(GetItems(v, "dataset")[j])
    ensures var n := |GetItems(v, "service")| + j;
            n < |Flat(v)| && Flat(v)[n] == DatasetEntry(GetItems(v, "dataset")[j]) && FirstWithId(Flat(v), n)
  {
    FlatBegins(v);
    hide IdOf, Flat, GetItems;
    var services, datasets := ServiceEntries(GetItems(v, "service")), DatasetEntries(GetItems(v, "dataset"));
    var own, n := services + datasets, |services| + j;
    assert forall i :: 0 <= i < |own| ==> Flat(v)[i] == own[i];
    assert own[n] == datasets[j];
    assert forall i :: 0 <= i < |services| ==> own[i] == services[i] && own[i].ServiceEntry?;
    forall i | 0 <= i < n && Flat(v)[i].DatasetEntry? ensures IdOf(Flat(v)[i].v) != IdOf(Flat(v)[n].v) {
      assert own[i] == datasets[i - |services|];
    }
  }

  lemma CollectedFits(render: Json -> string, entries: seq<Entry>, d: Dataset)
    requires d in AbsorbAll(render, Collected([], []), entries).datasets
    ensures DatasetFits(d) && forall key :: key in d.properties ==> key in DESCRIPTOR_KEYS
  {
    hide AbsorbAll, PolicyFits, PolicyEntryOf, OneOrManyAliased, GetString, IdOf;
    FirstEntryWins(render, entries, d);
    var i :| 0 <= i < |entries| && FirstWithId(entries, i) && d == DatasetOf(render, entries[i].v, IdOf(entries[i].v).value);
    forall entry ensures PolicyFits(PolicyEntryOf(render, entry)) {
      EveryRuleEntryIsKept(render, entry);
    }
  }

  /** Whatever a participant answers, what is parsed is something the store
      accepts and can give back: unique ids, bounded nesting, keys that are not
      IRIs. */
  lemma ParsedIsStorable(isIri: string -> bool, render: Json -> string, v: Json, p: Participant, uuid: string)
    requires forall key :: key in DESCRIPTOR_KEYS ==> !isIri(key)
    ensures CatalogFits(ParsedCatalog(render, v, p, uuid)) && Storable(isIri, ParsedCatalog(render, v, p, uuid))
  {
    hide AbsorbAll, Flat, DatasetFits;
    var c := ParsedCatalog(render, v, p, uuid);
    CollectedUnique(render, Flat(v));
    forall d | d in c.datasets ensures DatasetFits(d) && KeysKept(isIri, d.properties, DATASET_RESERVED) {
      CollectedFits(render, Flat(v), d);
    }
  }

  /** End to end: the catalog parsed from any response, written to the store
      and read back in any order of its quads, is that catalog exactly. */
  lemma HarvestRoundTrip(
    isIri: string -> bool, render: Json -> string, v: Json, p: Participant, uuid: string, g: seq<Quad>)
    requires forall key :: key in DESCRIPTOR_KEYS ==> !isIri(key)
    requires Enumerates(g, CatalogQuads(isIri, ParsedCatalog(render, v, p, uuid)))
    ensures CatalogAt(g, p.id) == Ok(Some(ParsedCatalog(render, v, p, uuid)))
  {
    var c := ParsedCatalog(render, v, p, uuid);
    assert c.originNode == p.id;
    hide *;
    ParsedIsStorable(isIri, render, v, p, uuid);
    CatalogRestored(isIri, g, c);
  }
}
