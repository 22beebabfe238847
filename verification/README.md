# Federated catalog broker: a verified model

This project models the path a harvested catalog takes through the broker, and
proves what that path keeps. A participant's JSON response is parsed into a
catalog; the catalog is written as quads into one named graph per participant;
it is read back, listed, filtered per caller, queried through a filtered view,
mapped for the policy engine and served again as JSON.

`dafny verify dfyconfig.toml` checks everything.

How the modules follow the program:

- `Text`, `CatalogCore`, `Vocabulary`: strings and percent-encoding (sections
  2.1 and 2.3 of RFC 3986), the domain types, RDF terms and minted IRIs.
- `Write`, `Read`, `Snapshot`: the codec. `Write` holds the buffer class and the
  set of quads each part of a catalog becomes; `Read` says what a graph, given
  as any sequence of its quads, decodes to; `Snapshot` holds the class whose
  loops decode it through an index by subject.
- `Statements`: what a stored graph says in RDF, by predicate IRI.
- `Subtrees`, `RoundTrip`, `Necessity`: reading inverts writing for every quad
  order, exactly for the catalogs that can be stored.
- `Store`: the store class, which refines a map from node to catalog.
- `Visibility`, `PolicyRoutes`, `Commute`, `View`: who owns an IRI, the
  catalog-level filter, why both filters show the same data, and the
  lookup-level view with a small query algebra (section 18 of the SPARQL 1.1
  Query Language). `BasicPatterns`: what basic graph patterns answer over it.
- `Protocol`, `AllowLists`: the write counter, the query's retry loop and the
  allow-list caches, as interleaved steps and as a class.
- `EndToEnd`: the protocol, the view and the two filters put together.
- `Parser`, `Response`, `SpellingIndependence`, `Respelling`: the JSON-LD
  parser, the collection of a response's entries, and why spellings do not show.
- `Printer`, `Mapper`, `TokenClaims`: serving policies, mapping them for the
  engine (constraints as in section 2.5 of the ODRL Information Model 2.2), and
  the cache key of a caller.
- `Offers`: from a response's offers to who is let in.
- `Harvester`, `PolicyEngine`: crawl cycles and the standalone engine.

Things outside the program are parameters: which strings parse as IRIs
(`isIri`), the raw text of a JSON value (`render`), the policy engine
(`allows`), whether a dataset is visible (`decide`), cancellation, the clock,
and what the network and the disk answer.

Where the code and its documentation disagree, the code is modelled and the
difference is stated: an even write counter does not rule out a write in
progress when the transaction is released inside the commit
(`Protocol.EvenCounterIsNotEnough`; exactly when it does:
`Protocol.UnchangedCounterRulesOutCommitExactlyWhen`); hiding a dataset for one unmappable offer
depends on the offers before it (`Mapper.AllowingOfferFirst`,
`Mapper.HideDatasetIsAsDocumentedExactlyWhen`); and a cache key does not
determine the decision for policies that name a claim of a single token
(`TokenClaims.SameKeyDifferentVisibility`, `TokenClaims.KeyIsSoundExactlyWhen`).

## Model

| member | source | states |
|---|---|---|
| EndToEnd.ReturnedResultsAnswerOverOneFilteredState | crates/rdf-store/src/oxigraph_backend/sparql.rs:364-425 | Over every interleaving of writers and readers: a result returned to a caller (any run with strict turns, else one returned with no guard alive) answers its query over the visible part of one committed store state; that part holds no more than the filtered catalogs of that state, and exactly those when visible entries name no hidden resource or unlisted service |
| EndToEnd.VisibleIsServed | crates/ds-catalog-broker-rs/src/routes/policy.rs:68-189 | For a whole store: hiding its quads gives at most the quads of the catalogs `GET /catalog` serves, and exactly those when the store is self-contained |
| RoundTrip.CatalogRestored | crates/rdf-store/src/oxigraph_backend/read.rs:9-92 | Whatever order the store hands a graph's quads back in, reading a written, storable catalog gives exactly that catalog |
| Necessity.RestoredExactlyWhenStorable | crates/rdf-store/src/oxigraph_backend/read.rs:9-433 | For every catalog within the depth bound and every quad order: it is read back unchanged if and only if dataset ids and service ids are unique and no property key is a reserved predicate or lies in the fallback property namespace |
| Necessity.IdsMustBeUnique | crates/rdf-store/src/oxigraph_backend/write.rs:8-148 | If a catalog is read back unchanged then its dataset ids and its service ids are pairwise different |
| Necessity.KeysMustBeKept | crates/rdf-store/src/oxigraph_backend/vocab.rs:200-219 | If a property map is read back unchanged then every key in it is one that survives |
| Necessity.LostKeysComeBackShorter | crates/rdf-store/src/oxigraph_backend/vocab.rs:200-219 | A key that does not survive is decoded to a strictly shorter one; any other key decodes to itself |
| Necessity.DecodeNeverLengthens | crates/rdf-store/src/oxigraph_backend/iris.rs:89-98 | Percent-decoding never yields more characters than it was given |
| Necessity.NodesAreDistinct | crates/rdf-store/src/oxigraph_backend/read.rs:48-60 | A list read back with as many values as were written was written under pairwise different nodes |
| RoundTrip.EveryGraphHasAnOrder | crates/rdf-store/src/oxigraph_backend/mod.rs:547-576 | Every set of quads has an order it can be handed back in, so the round trip speaks of every catalog |
| RoundTrip.ListRestored | crates/rdf-store/src/oxigraph_backend/read.rs:48-60 | Any list stored under distinct nodes and numbered in order is read back in that order from any enumeration of the graph |
| RoundTrip.SortIsIncreasing | crates/rdf-store/src/oxigraph_backend/read.rs:53 | Sorting entries with different indices gives them in strictly increasing order, none lost |
| RoundTrip.SortedValues | crates/rdf-store/src/oxigraph_backend/read.rs:53-57 | Entries numbered 0 to n-1 in any order sort to the original list |
| RoundTrip.ConstraintRestored | crates/rdf-store/src/oxigraph_backend/read.rs:279-364 | A constraint tree, nested groups included, is rebuilt from the quads of its subtree at any depth the bound allows |
| RoundTrip.CombinatorRestored | crates/rdf-store/src/oxigraph_backend/read.rs:321-345 | A group's combinator is the one its marker names, also when the group has no children |
| RoundTrip.RuleRestored | crates/rdf-store/src/oxigraph_backend/read.rs:226-260 | A rule's action and constraints are rebuilt from its subtree |
| RoundTrip.PolicyRestored | crates/rdf-store/src/oxigraph_backend/read.rs:160-206 | A policy with its optional fields and three rule lists is rebuilt from its subtree |
| RoundTrip.DistributionRestored | crates/rdf-store/src/oxigraph_backend/read.rs:366-401 | A distribution is rebuilt, its service id recovered from the service IRI |
| RoundTrip.DataServiceRestored | crates/rdf-store/src/oxigraph_backend/read.rs:403-433 | A data service is rebuilt, its id recovered from its own IRI |
| RoundTrip.DatasetRestored | crates/rdf-store/src/oxigraph_backend/read.rs:94-158 | A dataset is rebuilt from its subtree: properties, distributions and policies |
| RoundTrip.PropertiesRestored | crates/rdf-store/src/oxigraph_backend/read.rs:38-46 | A property map with surviving keys is rebuilt from the unreserved quads of its subject |
| RoundTrip.CatalogTypeIsUnique | crates/rdf-store/src/oxigraph_backend/read.rs:20-35 | No harvested content makes any other subject look like the catalog |
| RoundTrip.DatasetsRestored | crates/rdf-store/src/oxigraph_backend/read.rs:48-60 | All datasets of a catalog come back in order |
| RoundTrip.ServicesRestored | crates/rdf-store/src/oxigraph_backend/read.rs:62-74 | All services of a catalog come back in order |
| Subtrees.SegmentsApart | crates/rdf-store/src/oxigraph_backend/iris.rs:9-87 | Two different slash-free path segments after one prefix lead to disjoint subtrees |
| Subtrees.ConstraintBelow | crates/rdf-store/src/oxigraph_backend/write.rs:303-376 | Every quad of a constraint tree has its subject at or below the constraint's node |
| Subtrees.DatasetBelow | crates/rdf-store/src/oxigraph_backend/write.rs:8-148 | Every quad of a dataset has its subject at or below the dataset's node |
| Subtrees.DatasetSiblings | crates/rdf-store/src/oxigraph_backend/iris.rs:25-30 | Datasets with different ids have disjoint subtrees |
| Text.DecodeOfEncode | crates/rdf-store/src/oxigraph_backend/iris.rs:89-98 | Percent-decoding inverts percent-encoding of any Unicode string |
| Text.FromUtf8OfUtf8 | crates/rdf-store/src/oxigraph_backend/iris.rs:89-98 | UTF-8 decoding inverts UTF-8 encoding |
| Text.EncodeInjective | crates/rdf-store/src/oxigraph_backend/iris.rs:9-60 | Different ids never share an encoded path segment |
| Text.EncodeSlashFree | crates/rdf-store/src/oxigraph_backend/sparql.rs:537-551 | An encoded id contains no slash |
| Text.SegmentUnique | crates/rdf-store/src/oxigraph_backend/iris.rs:9-87 | An IRI lies below at most one of two segments of the same parent |
| Text.ParseOfDecimal | crates/rdf-store/src/oxigraph_backend/mod.rs:631-649 | A written sequence index parses back to the same number |
| Text.DecimalInjective | crates/rdf-store/src/oxigraph_backend/iris.rs:49-87 | Different list positions get different IRIs |
| Vocabulary.StripPrefixDecodeOfEncode | crates/rdf-store/src/oxigraph_backend/iris.rs:89-98 | Stripping a prefix and decoding recovers the id an IRI was minted from |
| Vocabulary.IriOf | crates/rdf-store/src/oxigraph_backend/vocab.rs:10-24 | The IRI built for a text spells that text, so IRIs are equal exactly when their spellings are |
| CatalogCore.NormalizeActionIdempotent | crates/catalog-core/src/lib.rs:210-221 | Normalizing an action twice is the same as once |
| CatalogCore.ActionSpellings | crates/catalog-core/src/lib.rs:210-221 | The three spellings of an ODRL action normalize to one, an IRI of another vocabulary to itself |
| Write.GraphWrite.WriteConstraint | crates/rdf-store/src/oxigraph_backend/write.rs:303-376 | Succeeds exactly when the tree fits the depth bound, and then adds exactly that constraint's quads |
| Write.GraphWrite.WriteConstraints | crates/rdf-store/src/oxigraph_backend/write.rs:340-376 | Adds each constraint with its link, in order, and fails exactly when one is too deep |
| Write.GraphWrite.WriteRule | crates/rdf-store/src/oxigraph_backend/write.rs:252-285 | Adds exactly one rule's quads; its constraints start at depth 0 |
| Write.GraphWrite.WriteRules | crates/rdf-store/src/oxigraph_backend/write.rs:231-250 | Adds a whole rule list with its links |
| Write.GraphWrite.WritePolicy | crates/rdf-store/src/oxigraph_backend/write.rs:160-229 | Adds exactly one policy's quads, absent fields left out, or fails on depth |
| Write.GraphWrite.WriteDataset | crates/rdf-store/src/oxigraph_backend/write.rs:41-117 | Adds exactly one dataset's link and quads |
| Write.GraphWrite.WriteCatalog | crates/rdf-store/src/oxigraph_backend/write.rs:8-148 | Succeeds exactly when every constraint fits the bound, and then the buffer holds exactly the catalog's quads besides what it held |
| Write.LinkedAppend | crates/rdf-store/src/oxigraph_backend/write.rs:41-117 | Appending an entry to a stored list adds its link and its quads and changes nothing else |
| Statements.CatalogSaid | crates/rdf-store/src/oxigraph_backend/write.rs:8-148 | By predicate IRI, all a stored graph says of its catalog: class, participant, properties, datasets, services, and nothing else |
| Statements.DatasetSaid | crates/rdf-store/src/oxigraph_backend/write.rs:41-148 | All it says of a dataset: class, position, properties, distributions, policies |
| Statements.PolicySaid | crates/rdf-store/src/oxigraph_backend/write.rs:160-229 | All it says of a policy: class, position, id and parties where it has them, and its permissions, prohibitions and obligations, each under its own predicate |
| Statements.RuleSaid | crates/rdf-store/src/oxigraph_backend/write.rs:252-285 | All it says of a rule: position, action, constraints |
| Statements.ConstraintSaid | crates/rdf-store/src/oxigraph_backend/write.rs:303-376 | All it says of a constraint: position, and three operands or the group's kind and children |
| Statements.DistributionSaid | crates/rdf-store/src/oxigraph_backend/write.rs:86-117 | All it says of a distribution |
| Statements.ServiceSaid | crates/rdf-store/src/oxigraph_backend/write.rs:119-148 | All it says of a service |
| Statements.PropertiesSaid | crates/rdf-store/src/oxigraph_backend/vocab.rs:200-209 | A property's predicate is its key where that is an IRI, a private one otherwise |
| Statements.TermIsSpelled | crates/rdf-store/src/oxigraph_backend/vocab.rs:10-180 | An IRI is a vocabulary term exactly when it is spelled so; no two terms share a spelling |
| Snapshot.IndexFindsMatching | crates/rdf-store/src/oxigraph_backend/mod.rs:593-614 | A lookup through the by-subject index returns exactly the matching quads of a full scan, in store order |
| Snapshot.GraphSnapshot.Push | crates/rdf-store/src/oxigraph_backend/mod.rs:563-573 | Adding a quad keeps the index in step with the quads |
| Snapshot.GraphSnapshot.MatchingQuads | crates/rdf-store/src/oxigraph_backend/mod.rs:593-614 | Returns the quads matching subject, predicate and object, in store order |
| Snapshot.GraphSnapshot.First | crates/rdf-store/src/oxigraph_backend/mod.rs:618-629 | The first object of a subject and predicate in store order, if any |
| Snapshot.GraphSnapshot.Index | crates/rdf-store/src/oxigraph_backend/mod.rs:631-649 | The parsed sequence index, or an error when it is missing, not a literal or not a number |
| Snapshot.GraphSnapshot.ChooseCombinator | crates/rdf-store/src/oxigraph_backend/read.rs:321-352 | The marked combinator unless links contradict it, else the first in precedence order that links a child, else an error |
| Read.MarkedCombinator | crates/rdf-store/src/oxigraph_backend/read.rs:321-352 | With a marker a group reads as the combinator it names exactly when no other combinator links a child |
| Read.UnmarkedCombinator | crates/rdf-store/src/oxigraph_backend/read.rs:321-352 | Without one `xone` goes before `or`, `or` before `and`, and that before `andSequence` |
| Snapshot.GraphSnapshot.LoadConstraint | crates/rdf-store/src/oxigraph_backend/read.rs:279-364 | The recursive loader decodes what the graph holds at a subject, errors included, and refuses depth past 64 |
| Snapshot.GraphSnapshot.LoadRule | crates/rdf-store/src/oxigraph_backend/read.rs:226-260 | Decodes one rule with its constraints in index order |
| Snapshot.GraphSnapshot.LoadRules | crates/rdf-store/src/oxigraph_backend/read.rs:211-224 | Decodes one rule list in index order, failing when any entry does |
| Snapshot.GraphSnapshot.LoadPolicy | crates/rdf-store/src/oxigraph_backend/read.rs:160-206 | Decodes one policy, refusing an unknown class |
| Snapshot.GraphSnapshot.LoadDistribution | crates/rdf-store/src/oxigraph_backend/read.rs:366-401 | Decodes one distribution, or an error for a service outside the node |
| Snapshot.GraphSnapshot.LoadDataService | crates/rdf-store/src/oxigraph_backend/read.rs:403-433 | Decodes one data service |
| Snapshot.GraphSnapshot.LoadProperties | crates/rdf-store/src/oxigraph_backend/read.rs:38-46 | Decodes the unreserved quads of a subject into a map, later ones winning, failing on a blank node |
| Snapshot.GraphSnapshot.LoadDataset | crates/rdf-store/src/oxigraph_backend/read.rs:94-158 | Decodes one dataset with its lists in index order |
| Snapshot.GraphSnapshot.LoadCatalog | crates/rdf-store/src/oxigraph_backend/read.rs:9-92 | Decodes the catalog of a graph; none when no subject is typed as one |
| Snapshot.CatalogSubjectIsFirst | crates/rdf-store/src/oxigraph_backend/read.rs:20-35 | The catalog's subject is that of the first catalog type quad in store order |
| Store.OxigraphCatalogCache.StoreCatalog | crates/rdf-store/src/oxigraph_backend/mod.rs:769-785 | Replaces exactly its own node's graph and moves the counter by two; a catalog too deep is refused and changes neither store nor counter; on a store that is a map from node to catalog this is one map update |
| Store.OxigraphCatalogCache.RemoveCatalog | crates/rdf-store/src/oxigraph_backend/mod.rs:788-806 | Removes exactly the node's graph, says whether it was there, and counts as a write only then; on the map this is removing the key |
| Store.OxigraphCatalogCache.SnapshotsUntil | crates/rdf-store/src/oxigraph_backend/mod.rs:547-576 | One snapshot per named graph that holds quads, each enumerating exactly that graph's quads, whatever order the scan takes; none only when cancelled |
| Store.OxigraphCatalogCache.DecodeAll | crates/rdf-store/src/oxigraph_backend/mod.rs:698-725 | The result is what some scan of all graphs decodes to, those that cannot be placed or decoded left out |
| Store.OxigraphCatalogCache.Catalogs | crates/rdf-store/src/oxigraph_backend/mod.rs:688-740 | For a node: its entry of the map; otherwise the asked-for page of the one list of all entries ordered by id, and by origin node where ids repeat |
| Store.OxigraphCatalogCache.CatalogOf | crates/rdf-store/src/oxigraph_backend/mod.rs:692-697 | A node's graph decodes to its entry of the map, or to none |
| Store.UpsertIsMapUpdate | crates/rdf-store/src/oxigraph_backend/mod.rs:769-785 | Replacing one node's graph is updating one key of the map, all other nodes untouched |
| Store.DeleteIsMapRemoval | crates/rdf-store/src/oxigraph_backend/mod.rs:788-806 | Removing one node's graph is removing one key of the map |
| Store.GraphHoldsItsCatalog | crates/rdf-store/src/oxigraph_backend/mod.rs:527-532 | A node's graph holds exactly the quads of its own catalog |
| Store.NodeBaseInjective | crates/rdf-store/src/oxigraph_backend/iris.rs:9-16 | Different nodes have different graphs |
| Store.ScanIsListing | crates/rdf-store/src/oxigraph_backend/mod.rs:698-730 | Decoding any scan of the store and sorting gives the one ordered list of the map's catalogs |
| Store.ListingIsUnique | crates/rdf-store/src/oxigraph_backend/mod.rs:727-730 | Two lists of the same catalogs in that order are equal, so graph order does not show |
| Store.EveryStoreHasAListing | crates/rdf-store/src/oxigraph_backend/mod.rs:727-730 | Every map from node to catalog has such a list |
| Store.PagesConcatenate | crates/rdf-store/src/oxigraph_backend/mod.rs:732-738 | Consecutive pages put together are one bigger page |
| Store.PagesAreComplete | crates/rdf-store/src/oxigraph_backend/mod.rs:732-738 | Paging to the end yields every catalog once, in order |
| Store.StringLessTotal | crates/rdf-store/src/oxigraph_backend/mod.rs:727-730 | The order on strings is total and strict |
| Store.StringLessIs | crates/rdf-store/src/oxigraph_backend/mod.rs:727-730 | One string is before another exactly when it is a proper prefix or has the lesser character where they first differ |
| Store.PageIs | crates/rdf-store/src/oxigraph_backend/mod.rs:732-738 | A page holds what is asked for and left, from its offset on |
| Visibility.DatasetOwnsItsSubtree | crates/rdf-store/src/oxigraph_backend/sparql.rs:539-551 | Everything minted at or below a dataset, empty ids included, is owned by exactly that dataset's resource IRI |
| Visibility.ServiceOwnsItsSubtree | crates/rdf-store/src/oxigraph_backend/sparql.rs:539-551 | Everything minted at or below a service is owned by exactly that service's resource IRI |
| Visibility.CatalogIsUngated | crates/rdf-store/src/oxigraph_backend/sparql.rs:539-551 | Node and catalog IRIs have no owner |
| Visibility.OwnersAreDistinct | crates/rdf-store/src/oxigraph_backend/iris.rs:45-69 | Resource IRIs are equal exactly when kind, node and id are |
| Visibility.VocabularyIsUngated | crates/rdf-store/src/oxigraph_backend/sparql.rs:539-551 | No predicate or class of the fixed vocabulary is ever hidden |
| Visibility.UntilSlash | crates/rdf-store/src/oxigraph_backend/sparql.rs:539-546 | The text before the first slash |
| Commute.FiltersCommute | crates/ds-catalog-broker-rs/src/routes/policy.rs:68-189 | The visible quads of a catalog are among the unnumbered quads of its filtered form, and equal to them if and only if every visible dataset uses listed services only and no harvested IRI shown names a hidden resource |
| Commute.RoutesShowTheSame | crates/ds-catalog-broker-rs/src/routes/policy.rs:68-189 | The same for every catalog of every store, under the union of all catalogs' allow-lists |
| Commute.GatedServicesAreNotShown | crates/ds-catalog-broker-rs/src/routes/policy.rs:114-125 | In no catalog of a store does `/sparql` show a quad about a listed service only hidden datasets use, its link and everything below it included; the link to one that is used by a visible dataset, or by none, always shows |
| Commute.ShownIsServed | crates/ds-catalog-broker-rs/src/routes/policy.rs:68-189 | `/sparql` never shows a quad that `GET /catalog` would not serve |
| Commute.ServedIsShown | crates/ds-catalog-broker-rs/src/routes/policy.rs:68-189 | A self-contained catalog is shown in full |
| Commute.AllServedMeansSelfContained | crates/ds-catalog-broker-rs/src/routes/policy.rs:68-189 | If everything served is shown then nothing visible names a hidden resource |
| Commute.AllowListAgrees | crates/ds-catalog-broker-rs/src/routes/policy.rs:140-189 | In the union over all catalogs no catalog opens or closes a resource of another |
| Commute.DatasetHidden | crates/rdf-store/src/oxigraph_backend/sparql.rs:566-584 | No quad of a dataset that is not allowed is visible, its link included |
| Commute.DatasetVisible | crates/rdf-store/src/oxigraph_backend/sparql.rs:566-584 | All unnumbered quads of an allowed dataset are visible exactly when nothing it says names a hidden resource |
| Commute.ConstraintVisible | crates/rdf-store/src/oxigraph_backend/sparql.rs:566-584 | The same for a constraint tree of any depth |
| View.LookupReports | crates/rdf-store/src/oxigraph_backend/sparql.rs:651-741 | A row is returned exactly when some visible stored quad has its subject, predicate, object and graph in those positions, and every term the lookup binds is the row's there |
| View.LookupIsExact | crates/rdf-store/src/oxigraph_backend/sparql.rs:651-741 | Every lookup, for every pattern and the early exit for hidden bound terms included, returns what it would on the store with the hidden quads removed |
| BasicPatterns.TripleSolutions | crates/rdf-store/src/oxigraph_backend/sparql.rs:647-741 | The solutions of a triple pattern are exactly the bindings of its variables that keep what is bound and turn it into a visible stored quad |
| BasicPatterns.BasicSolutions | crates/rdf-store/src/oxigraph_backend/sparql.rs:647-741 | However triple patterns are joined, the solutions are exactly the bindings of their variables that turn every one of them into a visible stored quad |
| View.NamedGraphsAreExact | crates/rdf-store/src/oxigraph_backend/sparql.rs:750-768 | The graphs listed, and those reported present, are exactly those with a visible quad |
| View.SameAnswers | crates/rdf-store/src/oxigraph_backend/sparql.rs:647-777 | Two datasets that answer every lookup alike give every query the same solutions |
| View.QueriesSeeOnlyTheVisible | crates/rdf-store/src/oxigraph_backend/sparql.rs:647-777 | Every query built from lookups, joins, optionals, unions, filters, existence tests, graph clauses and projections gives what it gives on the store with the hidden quads removed |
| Protocol.ResultsUseOneState | crates/rdf-store/src/oxigraph_backend/sparql.rs:364-425 | In every run where a writer's turn lasts until its guard drops, a returned result used one committed state for its allow-list (built, resumed or cached) and all its lookups; without that, so does any result returned while no guard was alive |
| Protocol.CounterCountsGuards | crates/rdf-store/src/oxigraph_backend/mod.rs:491-508 | In every run the counter is twice the finished writes plus the live guards, and whoever is writing holds the transaction |
| Protocol.EqualReadingsEncloseNoCommit | crates/rdf-store/src/oxigraph_backend/mod.rs:473-482 | Two equal readings of the counter, no guard alive at the first, enclose no commit and no change of the store |
| Protocol.UnchangedCounterRulesOutCommitExactlyWhen | crates/rdf-store/src/oxigraph_backend/mod.rs:473-490 | After any run: no continuation commits and ends with the counter as it is, if and only if no writer is between its guard and its commit; with strict turns an even counter is enough for that |
| Protocol.EvenCounterIsNotEnough | crates/rdf-store/src/oxigraph_backend/mod.rs:473-482 | A reachable run of two overlapping writers in which the same even counter brackets a whole query, the returned result mixes two states and a stale list stays cached: the documented reading of an even counter fails there |
| Protocol.StrictEvenIsQuiet | crates/rdf-store/src/oxigraph_backend/mod.rs:478-490 | With strict turns an even counter means no guard is alive |
| Protocol.CurrentListsAreFresh | crates/rdf-store/src/oxigraph_backend/sparql.rs:45-177 | A cached list or kept progress whose sequence is the present one agrees with the present store, however builds were cancelled, resumed or raced by writes; neither map exceeds 64 entries |
| Protocol.StepKept | crates/rdf-store/src/oxigraph_backend/sparql.rs:364-425 | Every step of every writer and reader keeps the counter, cache and reader invariants |
| Protocol.RunsAreSound | crates/rdf-store/src/oxigraph_backend/sparql.rs:364-425 | Those invariants hold after every run |
| Protocol.WritersKept | crates/rdf-store/src/oxigraph_backend/mod.rs:769-806 | No writer step breaks the count or the exclusion of writers |
| Protocol.WriterStepIsBracketed | crates/rdf-store/src/oxigraph_backend/mod.rs:491-508 | While the counter stands still and no guard is alive, no writer step changes the store |
| Protocol.ReturnedAsOfCommitted | crates/rdf-store/src/oxigraph_backend/sparql.rs:415-418 | The state a result is returned as of was committed at some point of the run |
| Protocol.CommittedHolds | crates/rdf-store/src/oxigraph_backend/mod.rs:769-806 | What holds of the empty store and of every committed one holds of every state the store was in |
| AllowLists.AllowListCache.BuildAllowList | crates/rdf-store/src/oxigraph_backend/sparql.rs:95-158 | If the progress kept for the key is right for this scan then a finished list is the union of the callback over all its catalogs, and a cancelled build keeps progress that is right and covers at least as much; a build is cancelled only when the token is; other keys lose progress only to make room |
| AllowLists.DecideGraphs | crates/rdf-store/src/oxigraph_backend/sparql.rs:126-157 | The build loop covers every graph or stops cancelled; an answer given while cancelled is never recorded |
| AllowLists.RememberedListIsServed | crates/rdf-store/src/oxigraph_backend/sparql.rs:48-82 | A remembered list is served to its own key, for five seconds and while the sequence stays the same, and to no other key; other keys are served what they were or nothing; room is never made at the cost of a list that could still be served unless 64 of them can |
| AllowLists.AllowListCache.RememberAllowList | crates/rdf-store/src/oxigraph_backend/sparql.rs:59-82 | Nothing is evicted while there is room; otherwise every stale list goes, and the oldest if that is not enough; at most 64 stay |
| AllowLists.AllowListCache.KeepPartial | crates/rdf-store/src/oxigraph_backend/sparql.rs:160-177 | The same for kept progress, by age alone |
| AllowLists.AllowListCache.TakePartial | crates/rdf-store/src/oxigraph_backend/sparql.rs:112-125 | Kept progress is resumed exactly when it is for this sequence and younger than thirty seconds, and is taken out either way |
| AllowLists.MakeRoom | crates/rdf-store/src/oxigraph_backend/sparql.rs:59-74 | What making room for a key leaves of a full map |
| AllowLists.BuildIsUnionOverStore | crates/rdf-store/src/oxigraph_backend/sparql.rs:84-158 | A build over any scan of a store that is a map gives the union over the map's catalogs |
| AllowLists.MakingRoomIsAProtocolEviction | crates/rdf-store/src/oxigraph_backend/sparql.rs:59-82 | The caches' eviction is one the protocol's steps allow |
| PolicyRoutes.FilterCatalogsByPolicy | crates/ds-catalog-broker-rs/src/routes/policy.rs:68-96 | Filters every catalog of the slice in place: left are, in order, the datasets the caller may see, and where asked the services some visible dataset uses or no dataset does; nothing else changes, and nothing at all when filtering is off |
| PolicyRoutes.CollectVisibleIris | crates/ds-catalog-broker-rs/src/routes/policy.rs:151-189 | Complete exactly when not cancelled before any dataset, and then exactly the IRIs of the visible datasets and of the services some visible dataset uses or no dataset does; otherwise nothing |
| PolicyRoutes.ShownIsOffered | crates/ds-catalog-broker-rs/src/routes/policy.rs:114-125 | A service is visible exactly when a visible dataset has a distribution using it, or no dataset has one |
| PolicyRoutes.FilterLeaves | crates/ds-catalog-broker-rs/src/routes/policy.rs:68-96 | What the filter leaves of a catalog, entry by entry and in order |
| PolicyRoutes.VisibleAreOffered | crates/ds-catalog-broker-rs/src/routes/policy.rs:151-189 | The allow-list of a catalog, IRI by IRI |
| PolicyRoutes.DecideDatasets | crates/ds-catalog-broker-rs/src/routes/policy.rs:159-173 | Every visible dataset in order, unless cancelled |
| Parser.ConstraintMirrorsEntry | crates/crawler/src/lib.rs:1138-1196 | Every constraint entry becomes one constraint that mirrors it down to its leaves, or a marker exactly where an entry has no single reading or would exceed the bound; the result nests at most 64 deep |
| Parser.PolicyMarkersAreExact | crates/crawler/src/lib.rs:961-1194 | A parsed policy carries a marker if and only if something in it, at any depth, could not be read, was nested too deep, has no place in the model, or spells the marker itself |
| Parser.ConstraintMarkers | crates/crawler/src/lib.rs:1138-1196 | The same for one constraint entry |
| Parser.RuleMarkers | crates/crawler/src/lib.rs:1072-1116 | The same for one rule entry, with unreadable actions and rule-level keys |
| Parser.EveryRuleEntryIsKept | crates/crawler/src/lib.rs:1004-1070 | Every rule entry becomes exactly one rule, in order, in the list its key names; id, kind, assigner and assignee are those the entry gives; and the policy fits the store's depth bound |
| Parser.RuleEntriesAreKept | crates/crawler/src/lib.rs:1072-1116 | A rule keeps its normalized action and its constraint entries in order, markers around them |
| Parser.FieldsAreRead | crates/crawler/src/lib.rs:884-948 | A scalar field has the text its one value stands for: a string, a number, a boolean by name, a value object, a bare node reference, or the one item of an array; it is absent without a value under any spelling and unreadable otherwise |
| Parser.HasMeansSpelled | crates/crawler/src/lib.rs:864-872 | A key is present exactly under one of its three spellings |
| Parser.LeavesAreTriples | crates/crawler/src/lib.rs:1138-1196 | A parsed leaf holds the entry's three fields, each in its place |
| Parser.GroupsAreNamed | crates/crawler/src/lib.rs:1138-1196 | A parsed group is the one its key names |
| Parser.RuleLevelKeysAreMarked | crates/crawler/src/lib.rs:1095-1111 | A rule with an `assignee`, `target` or `duty` of its own is always marked |
| Parser.ParseRule | crates/crawler/src/lib.rs:1072-1116 | The rule an entry parses to, built by pushing markers and constraints in the source's order |
| Parser.AddRuleLevelMarkers | crates/crawler/src/lib.rs:1095-1111 | One marker per rule-level key present, in key order |
| Parser.ParseRules | crates/crawler/src/lib.rs:1061-1066 | One rule per entry, in order |
| Parser.ParsePolicy | crates/crawler/src/lib.rs:1004-1056 | The policy an entry parses to, markers pushed after the obligations read |
| Response.HarvestRoundTrip | crates/crawler/src/lib.rs:646-803 | End to end, for every response: the parsed catalog, written to the store and read back in any quad order, is that catalog exactly |
| Response.ParsedIsStorable | crates/crawler/src/lib.rs:694-803 | Whatever a participant answers, the parsed catalog has unique ids, bounded nesting and keys that survive |
| Response.FirstEntryWins | crates/crawler/src/lib.rs:716-733 | The collected datasets are exactly the first entries with their ids, over all nesting levels |
| Response.ParsedDatasetSays | crates/crawler/src/lib.rs:711-795 | Every dataset of every parsed response says what the first node with its id says: its id, the six descriptors that are strings, format and service of every distribution, and one policy per `hasPolicy` entry of any spelling, in order, each what the entry parses to |
| Response.ListedIdsAreParsed | crates/crawler/src/lib.rs:694-803 | A dataset id is in the parsed catalog exactly when some node listed under `dataset`, in the response or a catalog nested in it at any depth, has that id |
| Response.ParsedServicesSay | crates/crawler/src/lib.rs:698-706 | Every service says what a node describing it says, listed or in a distribution of a kept dataset, and every such node with an id has its service |
| Response.ListedServicesWin | crates/crawler/src/lib.rs:695-706 | The first service a response lists with an id is the one kept, whatever distributions or nested catalogs say of that id |
| Response.OwnDatasetsComeFirst | crates/crawler/src/lib.rs:708-733 | The first dataset a response lists with an id comes before every other node with it, nested ones included |
| Response.EntriesAreListed | crates/crawler/src/lib.rs:694-803 | What is collected is every item of `service` and `dataset` along every path of nested catalogs |
| Response.CollectedUnique | crates/crawler/src/lib.rs:685-803 | No dataset id and no service id is collected twice |
| Response.Collector.Collect | crates/crawler/src/lib.rs:694-803 | Collects the entries of a response and of its nested catalogs in order |
| Response.Collector.CollectDataset | crates/crawler/src/lib.rs:711-795 | One dataset entry: skipped exactly without an id or with a known one; else a dataset is added that says what the node says, every offer kept, with the services it describes in place |
| Response.Collector.CollectDistributions | crates/crawler/src/lib.rs:761-791 | Every distribution in order, services described in place collected once |
| Response.Collector.AddDataService | crates/crawler/src/lib.rs:700-706 | A service is collected unless it has no id or a known one |
| Response.ReadStrings | crates/crawler/src/lib.rs:735-759 | The descriptor keys that hold strings, and no others |
| Response.ParseCatalogResponse | crates/crawler/src/lib.rs:646-679 | The catalog of a response: the configured identity whatever the response claims, its own id or a fresh one, and datasets that say what their first nodes say, every offer kept |
| Respelling.RespelledCatalogParsesTheSame | crates/crawler/src/lib.rs:646-948 | For every response: any number of changes to how ODRL keys are spelled (moved, divided over two spellings, joined) and how their entries and scalars are held (array, bare, `@list`, `@set`, `@value`, `@id`), at any depth of any dataset, nested catalogs included, leave the parsed catalog as it is, apart from raw text inside markers |
| Respelling.ChangeReadsTheSame | crates/crawler/src/lib.rs:844-882 | One such change to a node, however deep, leaves its reading unchanged |
| Respelling.OthersStay | crates/crawler/src/lib.rs:864-882 | And every key that does not spell one of ODRL's |
| Respelling.EntryReplaced | crates/crawler/src/lib.rs:844-856 | Replacing one entry of a value, through any wrappers, replaces that entry and no other |
| Respelling.ReshapedEntries | crates/crawler/src/lib.rs:844-856 | Putting a value in an array, `@list` or `@set`, or taking it out, keeps its entries |
| Respelling.RewrittenScalar | crates/crawler/src/lib.rs:884-911 | A scalar in a one-element array, as a value object or as a node reference reads as the scalar itself |
| SpellingIndependence.RewrittenScalarReadsTheSame | crates/crawler/src/lib.rs:884-948 | Writing a scalar another way that reads the same leaves the node's reading unchanged |
| Respelling.AbsorbAllSame | crates/crawler/src/lib.rs:694-803 | Entries that read alike are collected into the same catalog, apart from raw text inside markers |
| SpellingIndependence.SamePolicies | crates/crawler/src/lib.rs:884-948 | If the accessors agree on two dataset nodes, down to any depth of their lists, their policies parse alike, apart from raw text inside markers |
| SpellingIndependence.SamePolicy | crates/crawler/src/lib.rs:864-948 | The same for one policy entry |
| SpellingIndependence.SameConstraint | crates/crawler/src/lib.rs:864-948 | The same for one constraint entry |
| SpellingIndependence.MovedKeyReadsTheSame | crates/crawler/src/lib.rs:864-872 | Moving a key's value from any spelling to any other leaves the node's reading unchanged, unless another spelling of the key is passed |
| SpellingIndependence.SplitListReadsTheSame | crates/crawler/src/lib.rs:877-882 | So does dividing a list over two spellings in spelling order, or joining two, other spellings present or not |
| SpellingIndependence.NestedChangesReadTheSame | crates/crawler/src/lib.rs:844-882 | Re-spelling nodes among a key's entries, however they are held, re-spells the node that holds them, so changes at any depth add up |
| Printer.PolicyReadBack | crates/ds-catalog-broker-rs/src/routes/management.rs:232-351 | For every policy: parsing what is served gives it back with actions normalized, `andSequence` as `and`, groups below 56 levels as the marker, and one marker obligation if it has no rules |
| Printer.ConstraintReadBack | crates/ds-catalog-broker-rs/src/routes/management.rs:318-351 | The same for a constraint at any served group depth |
| Printer.RuleReadBack | crates/ds-catalog-broker-rs/src/routes/management.rs:281-292 | The same for a rule |
| Printer.UnchangedExactly | crates/ds-catalog-broker-rs/src/routes/management.rs:318-351 | A constraint is served and read back unchanged exactly when it has no `andSequence` and no group below the served depth |
| Printer.ServedNestingIsBounded | crates/ds-catalog-broker-rs/src/routes/management.rs:294-306 | No served document nests deeper than 122 levels, however deep the stored trees are |
| Printer.ConstraintNesting | crates/ds-catalog-broker-rs/src/routes/management.rs:294-351 | A constraint served at group depth g nests at most 2*(56-g)+1 levels |
| Printer.PolicyToJson | crates/ds-catalog-broker-rs/src/routes/management.rs:232-276 | The served object, absent fields and empty lists left out |
| Mapper.MapConstraint | crates/ds-catalog-broker-rs/src/odrl_filter.rs:486-547 | Under skip: the translation without what cannot be mapped, or nothing; otherwise the full translation, or failure exactly when an operator is unknown or nesting exceeds the bound |
| Mapper.MapConstraints | crates/ds-catalog-broker-rs/src/odrl_filter.rs:532-544 | A group's children in order, the dropped ones left out, failing exactly when one fails |
| Mapper.MapRule | crates/ds-catalog-broker-rs/src/odrl_filter.rs:565-581 | A rule maps unless skipping is off and one of its constraints cannot |
| Mapper.MapRules | crates/ds-catalog-broker-rs/src/odrl_filter.rs:621-629 | One engine rule per rule, in order |
| Mapper.MapPolicy | crates/ds-catalog-broker-rs/src/odrl_filter.rs:616-662 | Fails exactly under hide, is dropped exactly under drop, when something in it cannot be mapped; under skip it always maps, so the unreachable arm is. What it maps to has the policy's id, kind and parties, or the defaults, and every rule in the list it was in, with its normalized action: faithful to every constraint, or under skip to what can be mapped of them |
| Mapper.WireLeaves | crates/ds-catalog-broker-rs/src/odrl_filter.rs:616-642 | The same of the mapped policy itself: no rule changes lists or places, no constraint that can be mapped is lost or changed |
| Mapper.FallbackIdsDiffer | crates/ds-catalog-broker-rs/src/odrl_filter.rs:791 | No two offers of a dataset are given the same fallback id |
| Mapper.OperatorsAreRead | crates/ds-catalog-broker-rs/src/odrl_filter.rs:415-430 | An operator is read from its ODRL name, bare or prefixed, and from nothing else |
| Mapper.LeftOperandsAreBare | crates/ds-catalog-broker-rs/src/odrl_filter.rs:466-472 | The three spellings of a left operand look up one claim, any other operand the claim of that very name |
| Mapper.MappableIsFaithful | crates/ds-catalog-broker-rs/src/odrl_filter.rs:486-547 | What maps in full keeps every group, child and operand |
| Mapper.MarkedPolicyIsUnmappable | crates/ds-catalog-broker-rs/src/odrl_filter.rs:415-431 | A marker anywhere in a policy makes it unmappable |
| Offers.UnreadableOffersNeverAllow | crates/ds-catalog-broker-rs/src/odrl_filter.rs:780-806 | From response to decision: an offer of a listed dataset node with unreadable content at any depth never admits a caller unless skipping is configured, and under hide only an earlier offer can |
| Offers.OffersOfFirstNode | crates/crawler/src/lib.rs:969-995 | A parsed dataset has one policy per offer of the first node with its id, each what its offer parses to |
| Offers.UnreadableDatasetsAreHidden | crates/ds-catalog-broker-rs/src/odrl_filter.rs:780-806 | Only a node without offers is left to the configured default; one whose offers all have unreadable content is hidden |
| Mapper.MarkedOfferNeverAllows | crates/ds-catalog-broker-rs/src/odrl_filter.rs:780-806 | An offer with a marker in it never admits a caller unless skipping is configured |
| Mapper.BuildRequest | crates/ds-catalog-broker-rs/src/odrl_filter.rs:691-737 | The single-policy request for the dataset and the caller, whose declared actions are exactly the requested one and every rule's |
| Mapper.DatasetIsVisible | crates/ds-catalog-broker-rs/src/odrl_filter.rs:780-806 | Visible by default without offers; otherwise exactly when some offer is allowed, under hide only if every offer before it could be mapped |
| Mapper.OrderOfOffersIsIrrelevant | crates/ds-catalog-broker-rs/src/odrl_filter.rs:767-806 | Under skip and drop, permuting the offers never changes visibility, provided offers have ids or the engine ignores them |
| Mapper.HideDatasetIsAboutTheOffersBefore | crates/ds-catalog-broker-rs/src/odrl_filter.rs:767-806 | The code agrees with the documented hiding (one unmappable offer hides the dataset regardless of the others) exactly when no allowing offer stands before the first unmappable one; the code never hides more |
| Mapper.HideDatasetIsAsDocumentedExactlyWhen | crates/ds-catalog-broker-rs/src/odrl_filter.rs:767-806 | Under hide, code and documentation agree for every engine if and only if all offers can be mapped or the first one cannot |
| Mapper.AllowingOfferFirst | crates/ds-catalog-broker-rs/src/odrl_filter.rs:767-772 | A visible dataset with an unmappable offer, which the documentation says is hidden |
| TokenClaims.MapClaims | crates/ds-catalog-broker-rs/src/odrl_filter.rs:258-300 | Claim by claim: a string stays itself, but a `scope` becomes its words; a list of strings those strings in order; everything else is dropped |
| TokenClaims.WordsAre | crates/ds-catalog-broker-rs/src/odrl_filter.rs:269-275 | The words of a scope are its maximal stretches without white space, and put together they are its text without the blanks |
| TokenClaims.ClockIsTheHosts | crates/ds-catalog-broker-rs/src/odrl_filter.rs:327-346 | A `dateTime` constraint, in any spelling, is checked against the host's clock whatever the token claims; no other claim is touched |
| TokenClaims.KeyLeavesOut | crates/ds-catalog-broker-rs/src/odrl_filter.rs:302-325 | The key keeps every claim as it is except `jti`, `iat`, `exp` and `nbf` |
| TokenClaims.KeyIsSoundExactlyWhen | crates/ds-catalog-broker-rs/src/odrl_filter.rs:302-325 | Every engine that looks claims up by the names a policy uses treats tokens with one key alike on a dataset, if and only if no offer of it that can reach the engine names a claim of a single token |
| TokenClaims.SameKeySameVisibility | crates/ds-catalog-broker-rs/src/odrl_filter.rs:302-325 | With such an engine, tokens with one key see a dataset alike at one moment when no reachable offer of it names a per-token claim |
| TokenClaims.SameKeySameIris | crates/ds-catalog-broker-rs/src/routes/policy.rs:140-189 | So they get the same allow-list from a catalog of such datasets |
| TokenClaims.SameKeyDifferentVisibility | crates/ds-catalog-broker-rs/src/odrl_filter.rs:311-325 | A dataset offered under the constraint `jti eq "1"`: an engine that looks claims up by name shows it to one of two tokens with one key and not to the other, against the documented claim for every policy |
| Harvester.CrawlHarvester.RunCycle | crates/crawler/src/lib.rs:364-406 | For any completion order: the store gains what was crawled, each time is that of the crawl just ended or the one before, and what expires is exactly what is then stale and can be removed, from store, times and status together; ids with a last success, ids whose status says cached and nodes in the store stay the same set, and the reported last success is the one ages count from; each status reports its own crawl: its end, whether it failed, the success dated, what expired no longer cached |
| Harvester.CrawlHarvester.CrawlOnce | crates/crawler/src/lib.rs:217-276 | The cache gains exactly the successful crawls and the summary is in participant order, whatever order crawls complete in |
| Harvester.CrawlHarvester.Settle | crates/crawler/src/lib.rs:375-405 | Ages count from each crawl's own end; exactly the stale ids that can be removed expire, and leave the store, the times and the status together |
| Harvester.CrawlHarvester.ExpireStale | crates/crawler/src/lib.rs:383-402 | Expired are exactly the stale ids whose delete succeeded |
| Harvester.CrawlHarvester.RecordStatus | crates/crawler/src/lib.rs:409-431 | Each participant's status after a cycle |
| Harvester.Harvest | crates/crawler/src/lib.rs:283-431 | Over a harvester's whole life: a participant's catalog is held if and only if its last successful crawl is one whose catalog no cycle since has found stale and removed; it is that crawl's catalog, and its age counts from the end of that crawl |
| Harvester.HeldIsLastSuccess | crates/crawler/src/lib.rs:375-402 | Moving what is held cycle by cycle comes to holding the last successful crawl until it is found stale and removed |
| Harvester.CycleHolds | crates/crawler/src/lib.rs:364-406 | One cycle takes what is held for a participant to the crawl just ended, or keeps it, or removes it once stale |
| Harvester.OrderIsIrrelevant | crates/crawler/src/lib.rs:241-254 | What ends up cached does not depend on the order crawls complete in |
| Harvester.SummaryPartitions | crates/crawler/src/lib.rs:256-274 | The success and failure lists split the participants, and their counts add up |
| Harvester.OutcomesSorted | crates/crawler/src/lib.rs:252-254 | Outcomes taken in completion order are put back in participant order |
| PolicyEngine.RuleOutcome | crates/policy-engine/src/lib.rs:234-244 | The loop with early exit computes the order-free three-valued conjunction |
| PolicyEngine.Evaluate | crates/policy-engine/src/lib.rs:320-374 | Allows exactly when every prohibition definitely misses and, if there are permissions, one definitely matches |
| PolicyEngine.OneConstraint | crates/policy-engine/src/lib.rs:246-281 | On claims: nothing can be said without the claim or with an operator other than the three; `eq` matches exactly when the claim is or lists the operand, `neq` exactly when it does not, `isAnyOf` exactly when one of the trimmed, non-empty pieces between commas is claimed |
| PolicyEngine.OneRuleDecides | crates/policy-engine/src/lib.rs:320-374 | A permission under `eq` admits exactly those who claim the operand, one under `neq` those with another claim; a prohibition keeps out all others, and all who lack the claim |
| PolicyEngine.CandidatesAre | crates/policy-engine/src/lib.rs:261-275 | The candidates of `isAnyOf` are the maximal comma-free stretches of the operand, trimmed, unless empty |
| PolicyEngine.OrderIsIrrelevant | crates/policy-engine/src/lib.rs:300-319 | The decision depends on the rules attached, not on their order or the policy they are in |
| PolicyEngine.MoreClaimsNeverDeny | crates/policy-engine/src/lib.rs:234-281 | Adding claims under new keys never turns an allow into a deny |

## Left out

- Error texts: every failure is one `Err`; which message it carries is not modelled.
- Sequence indices are parsed without the upper bound of a machine word; written ones are list positions.
- The order of a property map: maps are unordered, and their quads are written in arbitrary order.
- Literals carry a plain or an integer type only; language tags are never written by this store.
- Vocabulary IRIs are constructors with their spelling given by a function; an IRI that spells one is that constructor.
- `HarvestRoundTrip` assumes that the six descriptor keys do not parse as IRIs, which holds of any string without a colon.
- The `urlencoding` crate's lenient decoding is modelled from its documented behaviour, its source is not part of this model.
- Query solutions are sets, so multiplicities, ordering, aggregates and property paths are not modelled; a query is any composition of the listed operators.
- Storage failures of the database inside a write, and the error paths they take, beyond a guard that drops without a commit.
- `Protocol`: the clock is a choice whether kept progress is young; cached lists of any age with the right tag may be used, and the callback's answer for a key and a catalog does not change during a run.
- `Protocol`: the counter is unbounded, the source's is 64 bits wide.
- `Protocol.EvenCounterIsNotEnough` shows the run; whether the database releases its writer inside `commit` is not visible in this repository.
- The depth bound of the JSON library on responses, which fails a whole fetch.
- Rendering of numbers: a number is already the text the crawler renders it to.
- Moving a list past another spelling of its key, which does change the order its entries are merged in, is not a re-spelling.
- `Harvester`: the wall clock that dates a crawl's end in the status and the steady clock its age counts from are one clock.
- `Printer` covers the policies of a response; the other fields of an offer are flat.
- Serialization of a cache key to text, taken to be one to one.
- The ODRL engine itself, HTTP, OAuth2, JWT and DID handling, configuration reading, the scheduler's timer, logging and the WASM interface.
- `Harvester`: the store starts empty, as the in-memory store does, and its contents are a map (`Store` shows that the quad store refines one).
