/** What a caller restricted to an allow-list of resource IRIs may see
    (`sparql.rs`): who owns an IRI, and which quads are hidden. */
module Visibility {
  import opened Text
  import opened CatalogCore
  import opened Vocabulary

  /** The part of `s` before its first slash; all of it when there is none. */
  function UntilSlash(s: string): (head: string)
    ensures head <= s && SlashFree(head)
    ensures |head| < |s| ==> s[|head|] == '/'
  {
    if s == "" || s[0] == '/' then "" else [s[0]] + UntilSlash(s[1..])
  }

  /** The owner of what follows `NODE_NS`, itself without that prefix. */
  function OwnerBelowNodes(rest: string): (owner: Option<string>) {
    var node := UntilSlash(rest);
    if |node| == |rest| then None
    else
      var tail := rest[|node| + 1..];
      var kind := UntilSlash(tail);
      if kind == "catalogs" then None
      else if (kind == "datasets" || kind == "services") && |tail| > |kind| then
        var id := UntilSlash(tail[|kind| + 1..]);
        Some(rest[..|node| + 1 + |kind| + 1 + |id|])
      else Some(rest)
  }

  /** The harvested dataset or service `iri` belongs to; `None` for an IRI that
      is never gated. Anything else below a node owns itself, so it stays hidden. */
  function OwningResourceIri(iri: string): (owner: Option<string>) {
    if !(NODE_NS <= iri) then None
    else
      match OwnerBelowNodes(iri[|NODE_NS|..])
      case None => None
      case Some(owner) => Some(NODE_NS + owner)
  }

  predicate IriIsVisible(iri: string, allow: set<string>) {
    match OwningResourceIri(iri)
    case None => true
    case Some(owner) => owner in allow
  }

  predicate TermIsVisible(t: RdfTerm, allow: set<string>) {
    t.NamedNode? ==> IriIsVisible(Spell(t.iri), allow)
  }

  /** Position numbers are never shown: their gaps would tell where hidden
      entries were. */
  predicate QuadIsVisible(q: Quad, allow: set<string>) {
    q.pred != Term(SequenceIndex) && TermIsVisible(q.subject, allow) && TermIsVisible(q.obj, allow)
  }

  // ----- Ownership matches minting -----

  lemma {:induction false} UntilSlashOf(a: string, rest: string)
    requires SlashFree(a)
    requires rest == "" || rest[0] == '/'
    ensures UntilSlash(a + rest) == a
  {
    if a == "" {
      assert a + rest == rest;
    } else {
      assert (a + rest)[1..] == a[1..] + rest;
      UntilSlashOf(a[1..], rest);
    }
  }

  lemma {:induction false} UntilSlashBefore(a: string, rest: string)
    requires SlashFree(a)
    ensures UntilSlash(a + ("/" + rest)) == a && (a + ("/" + rest))[|a| + 1..] == rest
  {
    hide UntilSlash;
    var tail := "/" + rest;
    UntilSlashOf(a, tail);
    assert (a + tail)[|a| + 1..] == rest;
  }

  /** How an IRI below a node splits into node, kind and the rest. */
  lemma OwnerOfParts(node: string, kind: string, id: string, rest: string)
    requires SlashFree(node) && SlashFree(kind) && SlashFree(id)
    requires rest == "" || rest[0] == '/'
    ensures var below := node + ("/" + (kind + ("/" + (id + rest))));
            && (kind == "catalogs" ==> OwnerBelowNodes(below) == None)
            && (kind == "datasets" || kind == "services" ==>
                  OwnerBelowNodes(below) == Some(node + ("/" + (kind + ("/" + id)))))
  {
    var tail := kind + ("/" + (id + rest));
    var below, owner := node + ("/" + tail), node + ("/" + (kind + ("/" + id)));
    UntilSlashBefore(node, tail);
    UntilSlashBefore(kind, id + rest);
    UntilSlashOf(id, rest);
    assert below[..|owner|] == owner;
  }

  lemma OwnerOfMinted(node: string, kind: string, id: string, rest: string)
    requires SlashFree(node) && SlashFree(kind) && SlashFree(id)
    requires rest == "" || rest[0] == '/'
    ensures var iri := NODE_NS + node + "/" + kind + "/" + id + rest;
            && (kind == "catalogs" ==> OwningResourceIri(iri) == None)
            && (kind == "datasets" || kind == "services" ==>
                  OwningResourceIri(iri) == Some(NODE_NS + node + "/" + kind + "/" + id))
  {
    hide OwnerBelowNodes, NODE_NS;
    OwnerOfParts(node, kind, id, rest);
    var iri := NODE_NS + node + "/" + kind + "/" + id + rest;
    assert iri[|NODE_NS|..] == node + ("/" + (kind + ("/" + (id + rest))));
    assert NODE_NS + (node + ("/" + (kind + ("/" + id)))) == NODE_NS + node + "/" + kind + "/" + id;
  }

  lemma UnderSplit(node: string, iri: string)
    requires Under(node, iri)
    ensures exists rest: string {:trigger node + rest} :: iri == node + rest && (rest == "" || rest[0] == '/')
  {
    var rest := iri[|node|..];
    assert iri == node + rest;
    assert rest == "" || rest[0] == '/';
  }

  lemma MintedPath(node: string, id: string)
    ensures DatasetResourceIri(node, id) == NODE_NS + Encode(node) + "/" + "datasets" + "/" + Encode(id)
    ensures ServiceResourceIri(node, id) == NODE_NS + Encode(node) + "/" + "services" + "/" + Encode(id)
    ensures CatalogIri(NodeBase(node), id) == NODE_NS + Encode(node) + "/" + "catalogs" + "/" + Encode(id)
    ensures SlashFree(Encode(node)) && SlashFree(Encode(id))
  {
    hide NODE_NS, Encode;
    EncodeSlashFree(node);
    EncodeSlashFree(id);
    assert "/datasets/" == "/" + "datasets" + "/";
    assert "/services/" == "/" + "services" + "/";
    assert "/catalogs/" == "/" + "catalogs" + "/";
  }

  /** Everything minted at or below a dataset belongs to that dataset, whatever
      the ids are (empty ones included). */
  lemma DatasetOwnsItsSubtree(node: string, id: string, iri: string)
    requires Under(DatasetResourceIri(node, id), iri)
    ensures OwningResourceIri(iri) == Some(DatasetResourceIri(node, id))
  {
    UnderSplit(DatasetResourceIri(node, id), iri);
    var rest: string :| iri == DatasetResourceIri(node, id) + rest && (rest == "" || rest[0] == '/');
    MintedPath(node, id);
    hide *;
    OwnerOfMinted(Encode(node), "datasets", Encode(id), rest);
  }

  lemma ServiceOwnsItsSubtree(node: string, id: string, iri: string)
    requires Under(ServiceResourceIri(node, id), iri)
    ensures OwningResourceIri(iri) == Some(ServiceResourceIri(node, id))
  {
    UnderSplit(ServiceResourceIri(node, id), iri);
    var rest: string :| iri == ServiceResourceIri(node, id) + rest && (rest == "" || rest[0] == '/');
    MintedPath(node, id);
    hide *;
    OwnerOfMinted(Encode(node), "services", Encode(id), rest);
  }

  lemma CatalogIsUngated(node: string, id: string)
    ensures OwningResourceIri(CatalogIri(NodeBase(node), id)) == None
    ensures OwningResourceIri(NodeBase(node)) == None
  {
    MintedPath(node, id);
    assert NodeBase(node)[|NODE_NS|..] == Encode(node) + "";
    UntilSlashOf(Encode(node), "");
    assert OwningResourceIri(NodeBase(node)) == None;
    hide *;
    OwnerOfMinted(Encode(node), "catalogs", Encode(id), "");
    assert NODE_NS + Encode(node) + "/" + "catalogs" + "/" + Encode(id) + "" == CatalogIri(NodeBase(node), id);
  }

  /** Every vocabulary term is in one of five namespaces. */
  lemma SpellingStart(v: Vocab)
    ensures RDF_TYPE_IRI <= Spelling(v) || DCAT_NS <= Spelling(v) || DCT_NS <= Spelling(v) || ODRL_NS <= Spelling(v) || INTERNAL_NS <= Spelling(v)
  {
    hide RDF_TYPE_IRI, DCAT_NS, DCT_NS, ODRL_NS, INTERNAL_NS, KindName, CombinatorName;
  }

  /** No term of the fixed vocabulary is gated. */
  lemma VocabularyIsUngated(v: Vocab)
    ensures OwningResourceIri(Spelling(v)) == None
  {
    SpellingStart(v);
    hide Spelling, OwningResourceIri;
    assert RDF_TYPE_IRI[4] == ':' && DCAT_NS[4] == ':' && DCT_NS[4] == ':' && ODRL_NS[4] == ':';
    assert NODE_NS[4] == 's' && NODE_NS[39] == 'o' && INTERNAL_NS[39] == 's';
    NotBelowNodes(Spelling(v));
  }

  lemma NotBelowNodes(iri: string)
    requires !(NODE_NS <= iri)
    ensures OwningResourceIri(iri) == None
  {
  }

  /** Different datasets and services, of any nodes, have different owners. */
  lemma OwnersAreDistinct(node: string, id: string, node': string, id': string)
    ensures DatasetResourceIri(node, id) == DatasetResourceIri(node', id') <==> node == node' && id == id'
    ensures ServiceResourceIri(node, id) == ServiceResourceIri(node', id') <==> node == node' && id == id'
    ensures DatasetResourceIri(node, id) != ServiceResourceIri(node', id')
  {
    MintedPath(node, id);
    MintedPath(node', id');
    hide DatasetResourceIri, ServiceResourceIri, NODE_NS, Encode;
    if DatasetResourceIri(node, id) == DatasetResourceIri(node', id') {
      PathsEqual(Encode(node), "datasets", Encode(id), Encode(node'), "datasets", Encode(id'));
      EncodeInjective(node, node');
      EncodeInjective(id, id');
    }
    if ServiceResourceIri(node, id) == ServiceResourceIri(node', id') {
      PathsEqual(Encode(node), "services", Encode(id), Encode(node'), "services", Encode(id'));
      EncodeInjective(node, node');
      EncodeInjective(id, id');
    }
    if DatasetResourceIri(node, id) == ServiceResourceIri(node', id') {
      PathsEqual(Encode(node), "datasets", Encode(id), Encode(node'), "services", Encode(id'));
    }
  }

  lemma PathsEqual(node: string, kind: string, id: string, node': string, kind': string, id': string)
    requires SlashFree(node) && SlashFree(kind) && SlashFree(id) && SlashFree(node') && SlashFree(kind') && SlashFree(id')
    requires NODE_NS + node + "/" + kind + "/" + id == NODE_NS + node' + "/" + kind' + "/" + id'
    ensures node == node' && kind == kind' && id == id'
  {
    hide NODE_NS;
    var iri := NODE_NS + node + "/" + kind + "/" + id;
    var rest, rest' := node + ("/" + (kind + ("/" + id))), node' + ("/" + (kind' + ("/" + id')));
    assert iri[|NODE_NS|..] == rest == rest';
    UntilSlashOf(node, "/" + (kind + ("/" + id)));
    UntilSlashOf(node', "/" + (kind' + ("/" + id')));
    assert rest[|node| + 1..] == kind + ("/" + id) == kind' + ("/" + id');
    UntilSlashOf(kind, "/" + id);
    UntilSlashOf(kind', "/" + id');
    assert (kind + ("/" + id))[|kind| + 1..] == id == id';
  }
}
