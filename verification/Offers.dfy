/** From a response to a decision: what the offers of a dataset entry let in
    (`crawler/lib.rs`, `odrl_filter.rs`). */
module Offers {
  import opened Text
  import opened CatalogCore
  import opened Parser
  import opened Response
  import opened Mapper

  /** The node `e` is the first in the response with the id of `d`. */
  ghost predicate FirstNodeOf(v: Json, e: Json, d: Dataset) {
    exists n :: 0 <= n < |Flat(v)| && FirstWithId(Flat(v), n) && Flat(v)[n].v == e && IdIs(e, d.id)
  }

  lemma FirstNodeIsUnique(v: Json, m: nat, n: nat)
    requires m < |Flat(v)| && FirstWithId(Flat(v), m) && n < |Flat(v)| && FirstWithId(Flat(v), n)
    requires IdOf(Flat(v)[m].v) == IdOf(Flat(v)[n].v)
    ensures m == n
  {
    hide Flat, IdOf;
  }

  /** A parsed dataset has one policy per offer of its first node. */
  lemma OffersOfFirstNode(render: Json -> string, v: Json, p: Participant, uuid: string, e: Json, d: Dataset)
    requires d in ParsedCatalog(render, v, p, uuid).datasets && FirstNodeOf(v, e, d)
    ensures OffersKept(render, e, d)
  {
    ParsedDatasetSays(render, v, p, uuid, d);
    hide ParsedCatalog, OffersKept, Flat, IdOf, IdIs, DistributionSays;
    var m :| 0 <= m < |Flat(v)| && FirstWithId(Flat(v), m) && DatasetSays(render, Flat(v)[m].v, d);
    var n :| 0 <= n < |Flat(v)| && FirstWithId(Flat(v), n) && Flat(v)[n].v == e && IdIs(e, d.id);
    IdsAre(Flat(v)[m].v, d.id);
    IdsAre(e, d.id);
    FirstNodeIsUnique(v, m, n);
  }

  /** An offer any part of which could not be read, at any depth, never lets a
      caller in, unless constraints are configured to be skipped; and under
      `HideDataset` no offer after it does. */
  lemma UnreadableOffersNeverAllow(
    render: Json -> string, v: Json, p: Participant, uuid: string, e: Json, d: Dataset, i: nat,
    allows: EngineRequest -> bool, claims: Claims, action: string, cfg: FilterConfig)
    requires d in ParsedCatalog(render, v, p, uuid).datasets && FirstNodeOf(v, e, d)
    requires i < |OffersIn(e)| && PolicyMarked(OffersIn(e)[i]) && !cfg.unmappable.SkipConstraint?
    ensures i < |d.policies| && !OfferAllows(allows, d, i, claims, action, cfg)
    ensures cfg.unmappable.HideDataset? && Visible(allows, d, claims, action, cfg) ==>
              exists k :: 0 <= k < i && OfferAllows(allows, d, k, claims, action, cfg)
  {
    OffersOfFirstNode(render, v, p, uuid, e, d);
    PolicyMarkersAreExact(render, OffersIn(e)[i]);
    hide ParsedCatalog, FirstNodeOf, OffersIn, PolicyMarked, PolicyEntryOf, PolicyHasMarker, OfferAllows, Visible;
    MarkedOfferNeverAllows(allows, d, i, claims, action, cfg);
  }

  /** Only a node without any offer is left to the configured default; one with
      offers, none of which can be read in full, is hidden. */
  lemma UnreadableDatasetsAreHidden(
    render: Json -> string, v: Json, p: Participant, uuid: string, e: Json, d: Dataset,
    allows: EngineRequest -> bool, claims: Claims, action: string, cfg: FilterConfig)
    requires d in ParsedCatalog(render, v, p, uuid).datasets && FirstNodeOf(v, e, d)
    ensures OffersIn(e) == [] ==> (Visible(allows, d, claims, action, cfg) <==> cfg.noPolicy == Open)
    ensures OffersIn(e) != [] && !cfg.unmappable.SkipConstraint? && (forall offer :: offer in OffersIn(e) ==> PolicyMarked(offer)) ==>
              !Visible(allows, d, claims, action, cfg)
  {
    OffersOfFirstNode(render, v, p, uuid, e, d);
    assert |d.policies| == |OffersIn(e)|;
    hide *;
    if OffersIn(e) == [] {
      WithoutAnAllowingOffer(allows, d, claims, action, cfg);
    } else if !cfg.unmappable.SkipConstraint? && forall offer :: offer in OffersIn(e) ==> PolicyMarked(offer) {
      forall i: nat | i < |d.policies| ensures !OfferAllows(allows, d, i, claims, action, cfg) {
        assert OffersIn(e)[i] in OffersIn(e);
        UnreadableOffersNeverAllow(render, v, p, uuid, e, d, i, allows, claims, action, cfg);
      }
      WithoutAnAllowingOffer(allows, d, claims, action, cfg);
    }
  }
}
