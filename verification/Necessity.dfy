/** The store gives a catalog back only if the catalog is storable: together
    with the round trip, this says exactly which catalogs survive. */
module Necessity {
  import opened Text
  import opened CatalogCore
  import opened Vocabulary
  import opened Write
  import opened Read
  import opened Subtrees
  import opened RoundTrip

  // ----- Decoding never lengthens -----

  /** Bytes that start a character. */
  function Leading(bytes: seq<byte>): (n: nat) {
    if bytes == [] then 0 else (if IsContinuation(bytes[0]) then 0 else 1) + Leading(bytes[1..])
  }

  lemma {:induction false} LeadingAppend(a: seq<byte>, b: seq<byte>)
    ensures Leading(a + b) == Leading(a) + Leading(b)
  {
    if a == [] {
      assert a + b == b;
    } else {
      assert (a + b)[1..] == a[1..] + b;
      LeadingAppend(a[1..], b);
    }
  }

  lemma LeadingOfChar(c: char)
    ensures Leading(Utf8Char(c)) == 1
  {
    var bytes := Utf8Char(c);
    assert forall i :: 1 <= i < |bytes| ==> IsContinuation(bytes[i]);
    ContinuationsDoNotLead(bytes[1..]);
  }

  lemma {:induction false} ContinuationsDoNotLead(bytes: seq<byte>)
    requires forall i :: 0 <= i < |bytes| ==> IsContinuation(bytes[i])
    ensures Leading(bytes) == 0
  {
    if bytes != [] {
      ContinuationsDoNotLead(bytes[1..]);
    }
  }

  lemma {:induction false} UnescapedLeads(s: string)
    ensures Leading(Unescape(s)) <= |s|
    decreases |s|
  {
    if s != "" {
      if s[0] == '%' && |s| >= 3 && HexValue(s[1]).Some? && HexValue(s[2]).Some? {
        UnescapedLeads(s[3..]);
      } else {
        UnescapedLeads(s[1..]);
        LeadingAppend(Utf8Char(s[0]), Unescape(s[1..]));
        LeadingOfChar(s[0]);
      }
    }
  }

  lemma {:induction false} CharactersLead(bytes: seq<byte>)
    ensures FromUtf8(bytes).Some? ==> |FromUtf8(bytes).value| <= Leading(bytes)
    decreases |bytes|
  {
    if bytes != [] && FirstChar(bytes).Some? {
      var used := FirstChar(bytes).value.1;
      CharactersLead(bytes[used..]);
      assert !IsContinuation(bytes[0]);
      LeadingAppend(bytes[..used], bytes[used..]);
      assert bytes[..used] + bytes[used..] == bytes;
      assert Leading(bytes[..used]) >= 1;
    }
  }

  lemma DecodeNeverLengthens(s: string)
    ensures Decode(s).Some? ==> |Decode(s).value| <= |s|
  {
    CharactersLead(Unescape(s));
    UnescapedLeads(s);
  }

  // ----- Property keys -----

  /** `key` is what some property with a readable predicate comes back as. */
  predicate ReadAs(isIri: string -> bool, key: string, source: string, reserved: set<Vocab>) {
    var pred := PropertyPredicate(isIri, source);
    !(pred.Term? && pred.term in reserved) && DecodePropertyKey(pred) == key
  }

  lemma {:induction false} FoundKeys(
    isIri: string -> bool, g: seq<Quad>, node: string, properties: map<string, string>, reserved: set<Vocab>, key: string)
    requires forall q :: q in g && IsProperty(q, Plain(node), reserved) ==> q in PropertyQuads(isIri, properties, node)
    requires PropertiesAt(g, Plain(node), reserved).Ok? && key in PropertiesAt(g, Plain(node), reserved).value
    ensures exists source :: source in properties && ReadAs(isIri, key, source, reserved)
  {
    hide DecodePropertyKey, PropertyPredicate, TermAsString, PropertyQuads, ReadAs;
    if g != [] {
      var init, last := g[..|g| - 1], g[|g| - 1];
      assert g == init + [last];
      if key in PropertiesAt(init, Plain(node), reserved).value {
        FoundKeys(isIri, init, node, properties, reserved, key);
      } else {
        FoundKey(isIri, last, node, properties, reserved, key);
      }
    }
  }

  lemma FoundKey(isIri: string -> bool, q: Quad, node: string, properties: map<string, string>, reserved: set<Vocab>, key: string)
    requires q in PropertyQuads(isIri, properties, node) && IsProperty(q, Plain(node), reserved) && DecodePropertyKey(q.pred) == key
    ensures exists source :: source in properties && ReadAs(isIri, key, source, reserved)
  {
    hide DecodePropertyKey, PropertyPredicate;
    var source :| source in properties && q == PropertyQuad(isIri, node, source, properties[source]);
    assert ReadAs(isIri, key, source, reserved);
  }

  /** A key that does not survive comes back shorter, if at all. */
  lemma LostKeysComeBackShorter(isIri: string -> bool, key: string, source: string, reserved: set<Vocab>)
    requires ReadAs(isIri, key, source, reserved)
    ensures KeyKept(isIri, source, reserved) ==> key == source
    ensures !KeyKept(isIri, source, reserved) ==> |key| < |source|
  {
    if KeyKept(isIri, source, reserved) {
      PropertyKeyRestored(isIri, source, reserved);
    } else {
      hide IriOf, Decode, Encode;
      assert Spell(IriOf(source)) == source;
      DecodeNeverLengthens(source[|INTERNAL_PROPERTY_PREFIX|..]);
    }
  }

  lemma {:induction false} Longest(keys: set<string>) returns (longest: string)
    requires keys != {}
    ensures longest in keys && forall k :: k in keys ==> |k| <= |longest|
  {
    var k :| k in keys;
    if keys == {k} {
      longest := k;
    } else {
      var other := Longest(keys - {k});
      longest := if |k| > |other| then k else other;
    }
  }

  lemma KeysMustBeKept(isIri: string -> bool, g: seq<Quad>, node: string, properties: map<string, string>, reserved: set<Vocab>)
    requires forall q :: q in g && IsProperty(q, Plain(node), reserved) ==> q in PropertyQuads(isIri, properties, node)
    requires PropertiesAt(g, Plain(node), reserved) == Ok(properties)
    ensures KeysKept(isIri, properties, reserved)
  {
    hide PropertiesAt, PropertyQuads, KeyKept, ReadAs;
    var lost := set key | key in properties && !KeyKept(isIri, key, reserved);
    if lost != {} {
      var key := Longest(lost);
      FoundKeys(isIri, g, node, properties, reserved, key);
      var source :| source in properties && ReadAs(isIri, key, source, reserved);
      LostKeysComeBackShorter(isIri, key, source, reserved);
      assert false;
    }
    assert forall key :: key in properties && !KeyKept(isIri, key, reserved) ==> key in lost;
  }

  // ----- Lists -----

  lemma {:induction false} DistinctWithin(os: seq<RdfTerm>, nodes: seq<string>)
    requires Distinct(os) && forall o :: o in os ==> OneOf(nodes, o)
    ensures |os| <= |nodes|
    decreases |nodes|
  {
    assert os != [] ==> os[0] in os && nodes != [];
    if nodes != [] {
      var n := |nodes| - 1;
      var rest := nodes[..n];
      if p :| 0 <= p < |os| && os[p] == Resource(nodes[n]) {
        var others := os[..p] + os[p + 1..];
        forall o | o in others ensures OneOf(rest, o) {
          var k :| 0 <= k < |others| && others[k] == o;
          assert others[k] == if k < p then os[k] else os[k + 1];
          assert OneOf(nodes, o) && o != os[p];
          WithoutLast(nodes, o);
        }
        DistinctWithin(others, rest);
      } else {
        forall o | o in os ensures OneOf(rest, o) {
          assert OneOf(nodes, o) && o != Resource(nodes[n]);
          WithoutLast(nodes, o);
        }
        DistinctWithin(os, rest);
      }
    }
  }

  lemma WithoutLast(nodes: seq<string>, o: RdfTerm)
    requires nodes != [] && OneOf(nodes, o) && o != Resource(nodes[|nodes| - 1])
    ensures OneOf(nodes[..|nodes| - 1], o)
  {
    var i :| 0 <= i < |nodes| && o == Resource(nodes[i]);
    assert nodes[..|nodes| - 1][i] == nodes[i];
  }

  /** As many different links as nodes leave no node twice. */
  lemma EnoughLinks(os: seq<RdfTerm>, nodes: seq<string>)
    requires Distinct(os) && |os| == |nodes| && forall o :: o in os ==> OneOf(nodes, o)
    ensures forall i, j :: 0 <= i < j < |nodes| ==> nodes[i] != nodes[j]
  {
    if i, j :| 0 <= i < j < |nodes| && nodes[i] == nodes[j] {
      var fewer := nodes[..j] + nodes[j + 1..];
      forall o | o in os ensures OneOf(fewer, o) {
        assert OneOf(nodes, o);
        var k :| 0 <= k < |nodes| && o == Resource(nodes[k]);
        assert fewer[i] == nodes[i];
        assert k < j ==> fewer[k] == nodes[k];
        assert k > j ==> fewer[k - 1] == nodes[k];
      }
      DistinctWithin(os, fewer);
    }
  }

  lemma {:induction false} TraverseEntries<T>(ts: seq<RdfTerm>, load: Iri -> Result<Indexed<T>>)
    requires Traverse(ts, load).Ok?
    ensures |Traverse(ts, load).value| == |ts|
    ensures forall i :: 0 <= i < |ts| ==> ts[i].NamedNode? && load(ts[i].iri) == Ok(Traverse(ts, load).value[i])
  {
    if ts != [] {
      TraverseEntries(ts[1..], load);
    }
  }

  lemma {:induction false} SortLength<T>(entries: seq<Indexed<T>>)
    ensures |SortByIndex(entries)| == |entries|
    ensures forall e :: e in entries ==> e in SortByIndex(entries)
  {
    if entries != [] {
      SortLength(entries[1..]);
      InsertMembers(entries[0], SortByIndex(entries[1..]));
      var sorted, rest := SortByIndex(entries), SortByIndex(entries[1..]);
      assert |multiset(sorted)| == |sorted| && |multiset(rest)| == |rest|;
      forall e | e in entries ensures e in sorted {
        assert e == entries[0] || e in entries[1..];
        assert e in multiset(sorted);
      }
    }
  }

  /** What a list that could be read says of its links: each leads to an entry,
      and there are as many as values. */
  lemma ListLinks<T>(g: seq<Quad>, parent: string, link: Vocab, load: Iri -> Result<Indexed<T>>, values: seq<T>)
    requires ListAt(g, Plain(parent), link, load) == Ok(values)
    ensures |Objects(g, Plain(parent), link)| == |values|
    ensures forall o :: Says(g, parent, link, o) ==> o.NamedNode? && load(o.iri).Ok? && load(o.iri).value.value in values
  {
    var os := Objects(g, Plain(parent), link);
    var entries := Traverse(os, load).value;
    TraverseEntries(os, load);
    SortLength(entries);
    ObjectsSaid(g, parent, link);
    hide Objects, Traverse, SortByIndex;
    forall o | Says(g, parent, link, o) ensures o.NamedNode? && load(o.iri).Ok? && load(o.iri).value.value in values {
      var i :| 0 <= i < |os| && os[i] == o;
      assert entries[i] in entries;
      var k :| 0 <= k < |entries| && SortByIndex(entries)[k] == entries[i];
      assert values[k] == entries[i].value;
    }
  }

  lemma NodesAreDistinct<T>(
    g: seq<Quad>, parent: string, link: Vocab, load: Iri -> Result<Indexed<T>>, values: seq<T>, nodes: seq<string>)
    requires Distinct(g) && |nodes| == |values|
    requires ListAt(g, Plain(parent), link, load) == Ok(values)
    requires forall o :: Says(g, parent, link, o) && o.NamedNode? ==> OneOf(nodes, o)
    ensures forall i, j :: 0 <= i < j < |nodes| ==> nodes[i] != nodes[j]
  {
    hide ListAt, Objects;
    ListLinks(g, parent, link, load, values);
    ObjectsMembers(g, Plain(parent), link);
    ObjectsSaid(g, parent, link);
    EnoughLinks(Objects(g, Plain(parent), link), nodes);
  }

  // ----- What is said about the catalog itself -----

  lemma PartsAreBelow(isIri: string -> bool, c: Catalog, q: Quad)
    ensures var base := NodeBase(c.originNode);
            var node := CatalogIri(base, c.id);
            && (q in DatasetListQuads(isIri, base, c.datasets, node) && q.subject == Resource(node) ==>
                  exists i :: 0 <= i < |c.datasets| && q == Q(node, DatasetLink, Resource(DatasetIri(base, c.datasets[i].id))))
            && (q in ServiceListQuads(isIri, base, c.dataServices, node) && q.subject == Resource(node) ==>
                  exists i :: 0 <= i < |c.dataServices| && q == Q(node, ServiceLink, Resource(ServiceIri(base, c.dataServices[i].id))))
  {
    hide DatasetQuads, ServiceQuads, NodeBase, CatalogIri;
    var base := NodeBase(c.originNode);
    var node := CatalogIri(base, c.id);
    AreasApart(base, c.id);
    assert base + "/datasets/" == base + "/datasets" + "/" && base + "/services/" == base + "/services" + "/";
    forall i | 0 <= i < |c.datasets| && q in DatasetQuads(isIri, base, c.datasets[i], i) ensures q.subject != Resource(node) {
      DatasetBelow(isIri, base, c.datasets[i], i);
      assert Under(base + "/datasets", DatasetIri(base, c.datasets[i].id));
      assert InSubtree(q, DatasetIri(base, c.datasets[i].id));
    }
    forall i | 0 <= i < |c.dataServices| && q in ServiceQuads(isIri, base, c.dataServices[i], i) ensures q.subject != Resource(node) {
      ServiceBelow(isIri, base, c.dataServices[i], i);
      assert Under(base + "/services", ServiceIri(base, c.dataServices[i].id));
      assert InSubtree(q, ServiceIri(base, c.dataServices[i].id));
    }
  }

  /** The catalog's own quads are its type, literals, and links. */
  lemma AboutTheCatalog(isIri: string -> bool, c: Catalog, q: Quad)
    requires q in CatalogQuads(isIri, c)
    requires q.subject == Resource(CatalogIri(NodeBase(c.originNode), c.id))
    ensures var base := NodeBase(c.originNode);
            && (q.pred == Term(DatasetLink) && q.obj.NamedNode? ==> OneOf(DatasetIris(base, c.datasets), q.obj))
            && (q.pred == Term(ServiceLink) && q.obj.NamedNode? ==> OneOf(ServiceIris(base, c.dataServices), q.obj))
    ensures IsProperty(q, Plain(CatalogIri(NodeBase(c.originNode), c.id)), CATALOG_RESERVED) ==>
              q in PropertyQuads(isIri, c.properties, CatalogIri(NodeBase(c.originNode), c.id))
  {
    hide DatasetListQuads, ServiceListQuads, PropertyQuads, NodeBase, CatalogIri, DatasetIri, ServiceIri;
    var base := NodeBase(c.originNode);
    var node := CatalogIri(base, c.id);
    PartsAreBelow(isIri, c, q);
    PropertiesAreLiterals(isIri, c.properties, node);
    if i :| 0 <= i < |c.datasets| && q == Q(node, DatasetLink, Resource(DatasetIri(base, c.datasets[i].id))) {
      assert DatasetIris(base, c.datasets)[i] == DatasetIri(base, c.datasets[i].id);
    }
    if i :| 0 <= i < |c.dataServices| && q == Q(node, ServiceLink, Resource(ServiceIri(base, c.dataServices[i].id))) {
      assert ServiceIris(base, c.dataServices)[i] == ServiceIri(base, c.dataServices[i].id);
    }
  }

  // ----- The catalog as read -----

  /** What the fields of a catalog that was read back come from. */
  lemma ReadFields(isIri: string -> bool, g: seq<Quad>, c: Catalog)
    requires Enumerates(g, CatalogQuads(isIri, c))
    requires CatalogAt(g, c.originNode) == Ok(Some(c))
    ensures var base := NodeBase(c.originNode);
            var node := CatalogIri(base, c.id);
            && PropertiesAt(g, Plain(node), CATALOG_RESERVED) == Ok(c.properties)
            && ListAt(g, Plain(node), DatasetLink, DatasetReader(g, base)) == Ok(c.datasets)
            && ListAt(g, Plain(node), ServiceLink, DataServiceReader(g, base)) == Ok(c.dataServices)
  {
    hide DatasetListQuads, ServiceListQuads, PropertyQuads, PropertiesAt, ListAt, OptionalString, StripPrefixDecode, NodeBase, CatalogIri, CatalogSubject;
    var node := CatalogIri(NodeBase(c.originNode), c.id);
    CatalogTypeIsUnique(isIri, c);
    var typed := Q(node, RdfType, NamedNode(Term(CatalogClass)));
    assert typed in g && IsCatalogType(typed);
    CatalogSubjectFound(g, Resource(node));
  }

  lemma IdsMustBeUnique(isIri: string -> bool, g: seq<Quad>, c: Catalog)
    requires Enumerates(g, CatalogQuads(isIri, c))
    requires CatalogAt(g, c.originNode) == Ok(Some(c))
    ensures UniqueDatasets(c.datasets) && UniqueServices(c.dataServices)
  {
    var base := NodeBase(c.originNode);
    var node := CatalogIri(base, c.id);
    ReadFields(isIri, g, c);
    hide CatalogQuads, CatalogAt, ListAt, NodeBase, CatalogIri, PropertiesAt;
    forall o ensures Says(g, node, DatasetLink, o) && o.NamedNode? ==> OneOf(DatasetIris(base, c.datasets), o)
             ensures Says(g, node, ServiceLink, o) && o.NamedNode? ==> OneOf(ServiceIris(base, c.dataServices), o)
    {
      var d, s := Q(node, DatasetLink, o), Q(node, ServiceLink, o);
      if d in g {
        AboutTheCatalog(isIri, c, d);
      }
      if s in g {
        AboutTheCatalog(isIri, c, s);
      }
    }
    NodesAreDistinct(g, node, DatasetLink, DatasetReader(g, base), c.datasets, DatasetIris(base, c.datasets));
    NodesAreDistinct(g, node, ServiceLink, DataServiceReader(g, base), c.dataServices, ServiceIris(base, c.dataServices));
    SameIdsSameNodes(base, c);
  }

  lemma SameIdsSameNodes(base: string, c: Catalog)
    requires forall i, j :: 0 <= i < j < |c.datasets| ==> DatasetIris(base, c.datasets)[i] != DatasetIris(base, c.datasets)[j]
    requires forall i, j :: 0 <= i < j < |c.dataServices| ==> ServiceIris(base, c.dataServices)[i] != ServiceIris(base, c.dataServices)[j]
    ensures UniqueDatasets(c.datasets) && UniqueServices(c.dataServices)
  {
    hide DatasetIri, ServiceIri;
    forall i, j | 0 <= i < j < |c.datasets| ensures c.datasets[i].id != c.datasets[j].id {
      assert DatasetIris(base, c.datasets)[i] != DatasetIris(base, c.datasets)[j];
    }
    forall i, j | 0 <= i < j < |c.dataServices| ensures c.dataServices[i].id != c.dataServices[j].id {
      assert ServiceIris(base, c.dataServices)[i] != ServiceIris(base, c.dataServices)[j];
    }
  }

  /** The graph holds about dataset `i` what was written for it. */
  lemma DatasetSlice(isIri: string -> bool, g: seq<Quad>, c: Catalog, i: nat)
    requires UniqueDatasets(c.datasets) && UniqueServices(c.dataServices) && i < |c.datasets|
    requires Enumerates(g, CatalogQuads(isIri, c))
    ensures var base := NodeBase(c.originNode);
            Slice(g, DatasetIri(base, c.datasets[i].id), DatasetQuads(isIri, base, c.datasets[i], i))
  {
    hide DatasetQuads, ServiceListQuads, PropertyQuads, Slice, NodeBase, DatasetIri;
    var base := NodeBase(c.originNode);
    var node := CatalogIri(base, c.id);
    var nodes, parts := DatasetIris(base, c.datasets), DatasetParts(isIri, base, c.datasets);
    AreasApart(base, c.id);
    CatalogListsOutside(isIri, c);
    CatalogSlice(isIri, g, c);
    DatasetSiblings(isIri, base, c.datasets);
    var rest := CatalogOwnQuads(isIri, c, node) + ServiceListQuads(isIri, base, c.dataServices, node);
    OwnQuadsOutside(isIri, c, base, node);
    ListSlices(g, base, CatalogQuads(isIri, c), rest, node, DatasetLink, base + "/datasets", nodes, parts);
    assert Slice(g, nodes[i], parts[i]);
  }

  lemma OwnQuadsOutside(isIri: string -> bool, c: Catalog, base: string, node: string)
    requires !Under(base + "/datasets", node)
    ensures forall q :: q in CatalogOwnQuads(isIri, c, node) ==> !InSubtree(q, base + "/datasets")
  {
    hide PropertyPredicate;
  }

  lemma AboutADataset(isIri: string -> bool, base: string, d: Dataset, index: nat, q: Quad)
    requires q in DatasetQuads(isIri, base, d, index) && IsProperty(q, Plain(DatasetIri(base, d.id)), DATASET_RESERVED)
    ensures q in PropertyQuads(isIri, d.properties, DatasetIri(base, d.id))
  {
    hide DistributionListQuads, PolicyListQuads, PropertyQuads, DatasetIri;
    DatasetListsOutside(isIri, base, d, DatasetIri(base, d.id));
  }

  /** The properties of dataset `i` as its node's quads give them. */
  lemma DatasetPropertiesRead(isIri: string -> bool, g: seq<Quad>, c: Catalog, i: nat)
    requires Enumerates(g, CatalogQuads(isIri, c))
    requires CatalogAt(g, c.originNode) == Ok(Some(c))
    requires UniqueDatasets(c.datasets) && i < |c.datasets|
    ensures var iri := DatasetIri(NodeBase(c.originNode), c.datasets[i].id);
            PropertiesAt(g, Plain(iri), DATASET_RESERVED) == Ok(c.datasets[i].properties)
  {
    hide CatalogQuads, CatalogAt, ListAt, NodeBase, CatalogIri, PropertiesAt, DatasetAt, DatasetIri, Says;
    var base, d := NodeBase(c.originNode), c.datasets[i];
    var node, iri := CatalogIri(base, c.id), DatasetIri(base, d.id);
    ReadFields(isIri, g, c);
    LinkIsSaid(isIri, g, c, i);
    ListLinks(g, node, DatasetLink, DatasetReader(g, base), c.datasets);
    assert DatasetReader(g, base)(Plain(iri)) == DatasetAt(g, base, Plain(iri));
    DatasetFieldsRead(g, base, d.id);
    var found := DatasetAt(g, base, Plain(iri)).value.value;
    var k :| 0 <= k < |c.datasets| && c.datasets[k] == found;
    assert k == i;
  }

  lemma DatasetKeysMustBeKept(isIri: string -> bool, g: seq<Quad>, c: Catalog, i: nat)
    requires Enumerates(g, CatalogQuads(isIri, c))
    requires CatalogAt(g, c.originNode) == Ok(Some(c))
    requires UniqueDatasets(c.datasets) && UniqueServices(c.dataServices) && i < |c.datasets|
    ensures KeysKept(isIri, c.datasets[i].properties, DATASET_RESERVED)
  {
    hide CatalogQuads, CatalogAt, NodeBase, PropertiesAt, DatasetQuads, DatasetIri, PropertyQuads, Slice, KeysKept, Distinct;
    var base, d := NodeBase(c.originNode), c.datasets[i];
    var iri := DatasetIri(base, d.id);
    DatasetPropertiesRead(isIri, g, c, i);
    DatasetSlice(isIri, g, c, i);
    forall q | q in g && IsProperty(q, Plain(iri), DATASET_RESERVED) ensures q in PropertyQuads(isIri, d.properties, iri) {
      SliceHas(g, iri, DatasetQuads(isIri, base, d, i), q);
      AboutADataset(isIri, base, d, i, q);
    }
    KeysMustBeKept(isIri, g, iri, d.properties, DATASET_RESERVED);
  }

  lemma LinkIsSaid(isIri: string -> bool, g: seq<Quad>, c: Catalog, i: nat)
    requires Enumerates(g, CatalogQuads(isIri, c)) && i < |c.datasets|
    ensures var base := NodeBase(c.originNode);
            Says(g, CatalogIri(base, c.id), DatasetLink, Resource(DatasetIri(base, c.datasets[i].id)))
  {
    hide NodeBase, CatalogIri, DatasetIri, DatasetParts, ServiceListQuads, CatalogOwnQuads;
    var base := NodeBase(c.originNode);
    assert DatasetIris(base, c.datasets)[i] == DatasetIri(base, c.datasets[i].id);
    assert Q(CatalogIri(base, c.id), DatasetLink, Resource(DatasetIri(base, c.datasets[i].id)))
           in DatasetListQuads(isIri, base, c.datasets, CatalogIri(base, c.id));
  }

  lemma DatasetFieldsRead(g: seq<Quad>, base: string, id: string)
    ensures DatasetAt(g, base, Plain(DatasetIri(base, id))).Ok? ==>
              var d := DatasetAt(g, base, Plain(DatasetIri(base, id))).value.value;
              d.id == id && PropertiesAt(g, Plain(DatasetIri(base, id)), DATASET_RESERVED) == Ok(d.properties)
  {
    hide ListAt, PropertiesAt, StripPrefixDecode, SequenceIndexAt;
    StripPrefixDecodeOfEncode(base + "/datasets/", id);
  }

  /** Exactly the storable catalogs are given back: those with unique dataset
      and service ids and no property key that the store reserves or decodes. */
  lemma RestoredExactlyWhenStorable(isIri: string -> bool, g: seq<Quad>, c: Catalog)
    requires CatalogFits(c)
    requires Enumerates(g, CatalogQuads(isIri, c))
    ensures CatalogAt(g, c.originNode) == Ok(Some(c)) <==> Storable(isIri, c)
  {
    hide CatalogFits, CatalogQuads, KeysKept, PropertyQuads, PropertiesAt, ListAt, NodeBase, CatalogIri, CatalogAt;
    if Storable(isIri, c) {
      CatalogRestored(isIri, g, c);
    }
    if CatalogAt(g, c.originNode) == Ok(Some(c)) {
      IdsMustBeUnique(isIri, g, c);
      forall d | d in c.datasets ensures KeysKept(isIri, d.properties, DATASET_RESERVED) {
        var i :| 0 <= i < |c.datasets| && c.datasets[i] == d;
        DatasetKeysMustBeKept(isIri, g, c, i);
      }
      ReadFields(isIri, g, c);
      var node := CatalogIri(NodeBase(c.originNode), c.id);
      forall q | q in g && IsProperty(q, Plain(node), CATALOG_RESERVED) ensures q in PropertyQuads(isIri, c.properties, node) {
        AboutTheCatalog(isIri, c, q);
      }
      KeysMustBeKept(isIri, g, node, c.properties, CATALOG_RESERVED);
    }
  }
}
