/** Decoding a named graph as the store does it (`mod.rs`, `read.rs`): a
    snapshot of its quads with an index by subject, and one loop per list. */
module Snapshot {
  import opened Text
  import opened CatalogCore
  import opened Vocabulary
  import opened Read

  // ----- Pattern matching, with and without the index -----

  predicate FitsPattern(q: Quad, subject: Option<Iri>, pred: Option<Iri>, obj: Option<RdfTerm>) {
    && (subject.Some? ==> q.subject == NamedNode(subject.value))
    && (pred.Some? ==> q.pred == pred.value)
    && (obj.Some? ==> q.obj == obj.value)
  }

  /** The quads of `g` matching a pattern, in store order. */
  function Matching(g: seq<Quad>, subject: Option<Iri>, pred: Option<Iri>, obj: Option<RdfTerm>): (qs: seq<Quad>) {
    if g == [] then []
    else
      var last := g[|g| - 1];
      Matching(g[..|g| - 1], subject, pred, obj) + if FitsPattern(last, subject, pred, obj) then [last] else []
  }

  /** Where the quads about `subject` are. */
  function Positions(g: seq<Quad>, subject: RdfTerm): (ps: seq<nat>)
    ensures forall i :: 0 <= i < |ps| ==> ps[i] < |g|
  {
    if g == [] then []
    else Positions(g[..|g| - 1], subject) + if g[|g| - 1].subject == subject then [|g| - 1] else []
  }

  function AtPositions(g: seq<Quad>, ps: seq<nat>, pred: Option<Iri>, obj: Option<RdfTerm>): (qs: seq<Quad>)
    requires forall i :: 0 <= i < |ps| ==> ps[i] < |g|
  {
    if ps == [] then []
    else
      var last := g[ps[|ps| - 1]];
      AtPositions(g, ps[..|ps| - 1], pred, obj) + if FitsPattern(last, None, pred, obj) then [last] else []
  }

  lemma {:induction false} AtPositionsOfPrefix(g: seq<Quad>, n: nat, ps: seq<nat>, pred: Option<Iri>, obj: Option<RdfTerm>)
    requires n <= |g| && forall i :: 0 <= i < |ps| ==> ps[i] < n
    ensures AtPositions(g, ps, pred, obj) == AtPositions(g[..n], ps, pred, obj)
  {
    if ps != [] {
      AtPositionsOfPrefix(g, n, ps[..|ps| - 1], pred, obj);
    }
  }

  /** Reading through the index finds what a scan of the graph finds. */
  lemma {:induction false} IndexFindsMatching(g: seq<Quad>, subject: Iri, pred: Option<Iri>, obj: Option<RdfTerm>)
    ensures AtPositions(g, Positions(g, NamedNode(subject)), pred, obj) == Matching(g, Some(subject), pred, obj)
  {
    if g != [] {
      var before := Positions(g[..|g| - 1], NamedNode(subject));
      IndexFindsMatching(g[..|g| - 1], subject, pred, obj);
      AtPositionsOfPrefix(g, |g| - 1, before, pred, obj);
      var ps := Positions(g, NamedNode(subject));
      if g[|g| - 1].subject == NamedNode(subject) {
        assert ps == before + [|g| - 1] && ps[..|ps| - 1] == before;
        assert AtPositions(g, ps, pred, obj) ==
               AtPositions(g, before, pred, obj) + if FitsPattern(g[|g| - 1], None, pred, obj) then [g[|g| - 1]] else [];
      } else {
        assert ps == before;
      }
    }
  }

  function ObjectsOf(qs: seq<Quad>): (os: seq<RdfTerm>) {
    seq(|qs|, i requires 0 <= i < |qs| => qs[i].obj)
  }

  lemma {:induction false} ObjectsAreMatching(g: seq<Quad>, subject: Iri, v: Vocab)
    ensures Objects(g, subject, v) == ObjectsOf(Matching(g, Some(subject), Some(Term(v)), None))
  {
    if g != [] {
      ObjectsAreMatching(g[..|g| - 1], subject, v);
    }
  }

  lemma {:induction false} MatchingSubject(g: seq<Quad>, subject: Option<Iri>, pred: Option<Iri>, obj: Option<RdfTerm>)
    ensures forall q :: q in Matching(g, subject, pred, obj) ==> FitsPattern(q, subject, pred, obj)
  {
    if g != [] {
      MatchingSubject(g[..|g| - 1], subject, pred, obj);
    }
  }

  lemma PropertiesAppend(g: seq<Quad>, q: Quad, subject: Iri, reserved: set<Vocab>)
    ensures !IsProperty(q, subject, reserved) ==> PropertiesAt(g + [q], subject, reserved) == PropertiesAt(g, subject, reserved)
    ensures IsProperty(q, subject, reserved) ==>
              PropertiesAt(g + [q], subject, reserved) ==
              (if PropertiesAt(g, subject, reserved).Err? || TermAsString(q.obj).Err? then Err
               else Ok(PropertiesAt(g, subject, reserved).value[DecodePropertyKey(q.pred) := TermAsString(q.obj).value]))
  {
    hide DecodePropertyKey, TermAsString, IsProperty;
    assert (g + [q])[..|g|] == g;
  }

  lemma {:induction false} PropertiesOfMatching(g: seq<Quad>, subject: Iri, reserved: set<Vocab>)
    ensures PropertiesAt(Matching(g, Some(subject), None, None), subject, reserved) == PropertiesAt(g, subject, reserved)
  {
    if g != [] {
      var rest, last := g[..|g| - 1], g[|g| - 1];
      PropertiesOfMatching(rest, subject, reserved);
      PropertiesAppend(rest, last, subject, reserved);
      PropertiesAppend(Matching(rest, Some(subject), None, None), last, subject, reserved);
      assert rest + [last] == g;
      hide PropertiesAt, TermAsString, DecodePropertyKey;
      var before := Matching(rest, Some(subject), None, None);
      assert before + [] == before;
      assert Matching(g, Some(subject), None, None) == if last.subject == NamedNode(subject) then before + [last] else before;
    }
  }

  lemma {:induction false} PropertiesFail(g: seq<Quad>, n: nat, subject: Iri, reserved: set<Vocab>)
    requires n <= |g| && PropertiesAt(g[..n], subject, reserved).Err?
    ensures PropertiesAt(g, subject, reserved).Err?
    decreases |g| - n
  {
    if n < |g| {
      assert g[..n + 1][..n] == g[..n];
      PropertiesFail(g, n + 1, subject, reserved);
    } else {
      assert g[..n] == g;
    }
  }

  lemma {:induction false} CatalogSubjectIsFirst(g: seq<Quad>)
    ensures var typed := Matching(g, None, Some(Term(RdfType)), Some(NamedNode(Term(CatalogClass))));
            CatalogSubject(g) == if typed == [] then None else Some(typed[0].subject)
  {
    if g != [] {
      CatalogSubjectIsFirst(g[..|g| - 1]);
    }
  }

  // ----- Loops over a list's links -----

  lemma {:induction false} TraverseAppend<T>(ts: seq<RdfTerm>, t: RdfTerm, load: Iri -> Result<Indexed<T>>)
    ensures Traverse(ts + [t], load) ==
            if Traverse(ts, load).Ok? && t.NamedNode? && load(t.iri).Ok?
            then Ok(Traverse(ts, load).value + [load(t.iri).value]) else Err
  {
    var all := ts + [t];
    if ts == [] {
      assert all[0] == t && all[1..] == [] && Traverse(all[1..], load) == Ok([]);
      assert t.NamedNode? && load(t.iri).Ok? ==> [load(t.iri).value] + [] == [] + [load(t.iri).value];
    } else {
      assert all[0] == ts[0] && all[1..] == ts[1..] + [t];
      TraverseAppend(ts[1..], t, load);
      if Traverse(all, load).Ok? {
        var entry, rest, x := load(ts[0].iri).value, Traverse(ts[1..], load).value, load(t.iri).value;
        assert [entry] + (rest + [x]) == ([entry] + rest) + [x];
      }
    }
  }

  lemma {:induction false} TraverseFail<T>(ts: seq<RdfTerm>, n: nat, load: Iri -> Result<Indexed<T>>)
    requires n <= |ts| && Traverse(ts[..n], load).Err?
    ensures Traverse(ts, load).Err?
    decreases |ts| - n
  {
    if n < |ts| {
      TraverseAppend(ts[..n], ts[n], load);
      assert ts[..n + 1] == ts[..n] + [ts[n]];
      TraverseFail(ts, n + 1, load);
    } else {
      assert ts[..n] == ts;
    }
  }

  /** One step of a loop over links, whether it goes on or stops with an error. */
  lemma TraverseStep<T>(ts: seq<RdfTerm>, i: nat, load: Iri -> Result<Indexed<T>>)
    requires i < |ts|
    ensures Traverse(ts[..i], load).Ok? ==>
              if ts[i].NamedNode? && load(ts[i].iri).Ok?
              then Traverse(ts[..i + 1], load) == Ok(Traverse(ts[..i], load).value + [load(ts[i].iri).value])
              else Traverse(ts, load).Err?
  {
    TraverseAppend(ts[..i], ts[i], load);
    assert ts[..i + 1] == ts[..i] + [ts[i]];
    if Traverse(ts[..i + 1], load).Err? {
      TraverseFail(ts, i + 1, load);
    }
  }

  lemma TraverseNothing<T>(ts: seq<RdfTerm>, load: Iri -> Result<Indexed<T>>)
    ensures Traverse(ts[..0], load) == Ok([])
  {
  }

  function ExpectNamedNode(t: RdfTerm): (r: Result<Iri>) {
    match t
    case NamedNode(iri) => Ok(iri)
    case _ => Err
  }

  predicate NotAGroup(marker: RdfTerm) {
    !(marker.NamedNode? && marker.iri.Term? && marker.iri.term.Group?)
  }

  /** The quads of one named graph, read from one state of the store. */
  class GraphSnapshot {
    var quads: seq<Quad>
    var bySubject: map<RdfTerm, seq<nat>>

    ghost predicate Valid()
      reads this
    {
      forall s ::
        && (s in bySubject <==> Positions(quads, s) != [])
        && (s in bySubject ==> bySubject[s] == Positions(quads, s))
    }

    constructor ()
      ensures Valid() && quads == []
    {
      quads := [];
      bySubject := map[];
    }

    /** Adds the next quad of the scan. */
    method Push(q: Quad)
      requires Valid()
      modifies this
      ensures Valid() && quads == old(quads) + [q]
    {
      var known := if q.subject in bySubject then bySubject[q.subject] else [];
      bySubject := bySubject[q.subject := known + [|quads|]];
      quads := quads + [q];
      assert quads[..|quads| - 1] == old(quads);
    }

    method MatchingQuads(subject: Option<Iri>, pred: Option<Iri>, obj: Option<RdfTerm>) returns (qs: seq<Quad>)
      requires Valid()
      ensures qs == Matching(quads, subject, pred, obj)
    {
      qs := [];
      match subject {
        case Some(iri) =>
          var ps := if NamedNode(iri) in bySubject then bySubject[NamedNode(iri)] else [];
          for i := 0 to |ps|
            invariant qs == AtPositions(quads, ps[..i], pred, obj)
          {
            assert ps[..i + 1][..i] == ps[..i];
            if FitsPattern(quads[ps[i]], None, pred, obj) {
              qs := qs + [quads[ps[i]]];
            }
          }
          assert ps[..|ps|] == ps;
          IndexFindsMatching(quads, iri, pred, obj);
        case None =>
          for i := 0 to |quads|
            invariant qs == Matching(quads[..i], None, pred, obj)
          {
            assert quads[..i + 1][..i] == quads[..i];
            if FitsPattern(quads[i], None, pred, obj) {
              qs := qs + [quads[i]];
            }
          }
          assert quads[..|quads|] == quads;
      }
    }

    method Links(subject: Iri, v: Vocab) returns (os: seq<RdfTerm>)
      requires Valid()
      ensures os == Objects(quads, subject, v)
    {
      var qs := MatchingQuads(Some(subject), Some(Term(v)), None);
      ObjectsAreMatching(quads, subject, v);
      os := ObjectsOf(qs);
    }

    method First(subject: Iri, v: Vocab) returns (o: Option<RdfTerm>)
      requires Valid()
      ensures o == FirstObject(quads, subject, v)
    {
      var os := Links(subject, v);
      o := if os == [] then None else Some(os[0]);
    }

    method Text(subject: Iri, v: Vocab) returns (r: Result<Option<string>>)
      requires Valid()
      ensures r == OptionalString(quads, subject, v)
    {
      var o := First(subject, v);
      match o {
        case None => r := Ok(None);
        case Some(t) =>
          var s :- TermAsString(t);
          r := Ok(Some(s));
      }
    }

    method Required(subject: Iri, v: Vocab) returns (r: Result<string>)
      requires Valid()
      ensures r == RequiredString(quads, subject, v)
    {
      var s :- Text(subject, v);
      r := match s case None => Err case Some(text) => Ok(text);
    }

    method Index(subject: Iri) returns (r: Result<nat>)
      requires Valid()
      ensures r == SequenceIndexAt(quads, subject)
    {
      var o := First(subject, SequenceIndex);
      if o.Some? && o.value.Literal? {
        var n := ParseNat(o.value.value);
        r := match n case None => Err case Some(index) => Ok(index);
      } else {
        r := Err;
      }
    }

    method LoadProperties(subject: Iri, reserved: set<Vocab>) returns (r: Result<map<string, string>>)
      requires Valid()
      ensures r == PropertiesAt(quads, subject, reserved)
    {
      hide DecodePropertyKey;
      PropertiesOfMatching(quads, subject, reserved);
      MatchingSubject(quads, Some(subject), None, None);
      var qs := MatchingQuads(Some(subject), None, None);
      var properties := map[];
      for i := 0 to |qs|
        invariant PropertiesAt(qs[..i], subject, reserved) == Ok(properties)
      {
        assert qs[..i + 1][..i] == qs[..i];
        assert qs[i] in qs;
        if !(qs[i].pred.Term? && qs[i].pred.term in reserved) {
          var value := TermAsString(qs[i].obj);
          if value.Err? {
            PropertiesFail(qs, i + 1, subject, reserved);
            return Err;
          }
          properties := properties[DecodePropertyKey(qs[i].pred) := value.value];
        }
      }
      assert qs[..|qs|] == qs;
      r := Ok(properties);
    }

    /** The group's combinator: the marked one, or the first that links a child. */
    method ChooseCombinator(subject: Iri) returns (r: Result<Combinator>)
      requires Valid()
      ensures r == CombinatorAt(quads, subject)
    {
      hide Objects, Valid;
      var marker := First(subject, LogicalOperator);
      var chosen: Option<Combinator> := None;
      for i := 0 to |COMBINATORS|
        invariant marker.Some? ==> forall j :: 0 <= j < i ==>
                    marker.value == NamedNode(Term(Group(COMBINATORS[j]))) || Objects(quads, subject, Group(COMBINATORS[j])) == []
        invariant marker.Some? ==>
                    match chosen
                    case None => forall j :: 0 <= j < i ==> marker.value != NamedNode(Term(Group(COMBINATORS[j])))
                    case Some(c) => marker.value == NamedNode(Term(Group(c)))
        invariant marker.None? ==>
                    FirstLinked(quads, subject, COMBINATORS) ==
                    match chosen case Some(c) => Ok(c) case None => FirstLinked(quads, subject, COMBINATORS[i..])
      {
        var c := COMBINATORS[i];
        var isMarker := marker == Some(NamedNode(Term(Group(c))));
        var links := Links(subject, Group(c));
        if marker.Some? && !isMarker && links != [] {
          assert c in COMBINATORS;
          return Err;
        }
        if chosen.None? && (isMarker || (marker.None? && links != [])) {
          chosen := Some(c);
        }
      }
      assert COMBINATORS[0] == Xone && COMBINATORS[1] == Or && COMBINATORS[2] == And && COMBINATORS[3] == AndSequence;
      assert marker.Some? && chosen.None? ==> NotAGroup(marker.value);
      r := match chosen case Some(c) => Ok(c) case None => Err;
    }

    /** The constraint at `subject`, `depth` groups below its rule. */
    method LoadConstraint(subject: Iri, depth: nat) returns (r: Result<Indexed<Constraint>>)
      requires Valid()
      ensures r == ConstraintAt(quads, subject, depth)
      decreases if depth > MAX_CONSTRAINT_DEPTH then 0 else MAX_CONSTRAINT_DEPTH + 1 - depth
    {
      hide Valid, Objects, CombinatorAt, SequenceIndexAt, RequiredString, Traverse, SortByIndex, Values;
      if depth > MAX_CONSTRAINT_DEPTH {
        return Err;
      }
      var index :- Index(subject);
      var leftTerm := First(subject, LeftOperand);
      if leftTerm.Some? {
        var left :- TermAsString(leftTerm.value);
        var operator :- Required(subject, Operator);
        var right :- Required(subject, RightOperand);
        return Ok(Indexed(index, Atomic(left, operator, right)));
      }
      var combinator :- ChooseCombinator(subject);
      var links := Links(subject, Group(combinator));
      var entries: seq<Indexed<Constraint>> := [];
      ghost var load := ConstraintReader(quads, depth + 1);
      TraverseNothing(links, load);
      for i := 0 to |links|
        invariant Traverse(links[..i], load) == Ok(entries)
      {
        TraverseStep(links, i, load);
        var child :- ExpectNamedNode(links[i]);
        var entry :- LoadConstraint(child, depth + 1);
        entries := entries + [entry];
      }
      assert links[..|links|] == links;
      r := Ok(Indexed(index, Logical(combinator, Values(SortByIndex(entries)))));
    }

    method LoadRule(subject: Iri) returns (r: Result<Indexed<Rule>>)
      requires Valid()
      ensures r == RuleAt(quads, subject)
    {
      hide Valid, Objects, SequenceIndexAt, RequiredString, Traverse, SortByIndex, Values, ConstraintAt;
      var index :- Index(subject);
      var action :- Required(subject, Action);
      var constraintLinks := Links(subject, ConstraintLink);
      var constraintEntries: seq<Indexed<Constraint>> := [];
      ghost var constraintLoad := ConstraintReader(quads, 0);
      TraverseNothing(constraintLinks, constraintLoad);
      for i := 0 to |constraintLinks|
        invariant Traverse(constraintLinks[..i], constraintLoad) == Ok(constraintEntries)
      {
        TraverseStep(constraintLinks, i, constraintLoad);
        var node :- ExpectNamedNode(constraintLinks[i]);
        var entry :- LoadConstraint(node, 0);
        constraintEntries := constraintEntries + [entry];
      }
      assert constraintLinks[..|constraintLinks|] == constraintLinks;
      var constraints := Values(SortByIndex(constraintEntries));
      r := Ok(Indexed(index, Rule(action, constraints)));
    }

    method LoadRules(subject: Iri, link: Vocab) returns (r: Result<seq<Rule>>)
      requires Valid()
      ensures r == RulesAt(quads, subject, link)
    {
      hide Valid, Objects, Traverse, SortByIndex, Values, RuleAt;
      var ruleLinks := Links(subject, link);
      var ruleEntries: seq<Indexed<Rule>> := [];
      ghost var ruleLoad := RuleReader(quads);
      TraverseNothing(ruleLinks, ruleLoad);
      for i := 0 to |ruleLinks|
        invariant Traverse(ruleLinks[..i], ruleLoad) == Ok(ruleEntries)
      {
        TraverseStep(ruleLinks, i, ruleLoad);
        var node :- ExpectNamedNode(ruleLinks[i]);
        var entry :- LoadRule(node);
        ruleEntries := ruleEntries + [entry];
      }
      assert ruleLinks[..|ruleLinks|] == ruleLinks;
      var rules := Values(SortByIndex(ruleEntries));
      r := Ok(rules);
    }

    method LoadPolicy(subject: Iri) returns (r: Result<Indexed<Policy>>)
      requires Valid()
      ensures r == PolicyAt(quads, subject)
    {
      hide Valid, Objects, RulesAt, SequenceIndexAt, OptionalString;
      var index :- Index(subject);
      var kindTerm := First(subject, RdfType);
      if kindTerm.None? {
        return Err;
      }
      var class_ :- ExpectNamedNode(kindTerm.value);
      if !(class_.Term? && class_.term.PolicyClass?) {
        return Err;
      }
      var id :- Text(subject, PolicyId);
      var assigner :- Text(subject, Assigner);
      var assignee :- Text(subject, Assignee);
      var permissions :- LoadRules(subject, Permission);
      var prohibitions :- LoadRules(subject, Prohibition);
      var obligations :- LoadRules(subject, Obligation);
      r := Ok(Indexed(index, Policy(id, class_.term.kind, assigner, assignee, permissions, prohibitions, obligations)));
    }

    method LoadDistribution(base: string, subject: Iri) returns (r: Result<Indexed<Distribution>>)
      requires Valid()
      ensures r == DistributionAt(quads, base, subject)
    {
      hide Valid, Objects, SequenceIndexAt, RequiredString, StripPrefixDecode, Spell;
      var index :- Index(subject);
      var format :- Required(subject, Format);
      var service := First(subject, AccessService);
      if service.None? {
        return Err;
      }
      var node :- ExpectNamedNode(service.value);
      var id :- StripPrefixDecode(Spell(node), base + "/services/");
      r := Ok(Indexed(index, Distribution(format, id)));
    }

    method LoadDataService(base: string, subject: Iri) returns (r: Result<Indexed<DataService>>)
      requires Valid()
      ensures r == DataServiceAt(quads, base, subject)
    {
      hide Valid, Objects, SequenceIndexAt, RequiredString, OptionalString, StripPrefixDecode, Spell;
      var id :- StripPrefixDecode(Spell(subject), base + "/services/");
      var index :- Index(subject);
      var url :- Required(subject, EndpointUrl);
      var description :- Text(subject, EndpointDescription);
      r := Ok(Indexed(index, DataService(id, url, description)));
    }

    method LoadDataset(base: string, subject: Iri) returns (r: Result<Indexed<Dataset>>)
      requires Valid()
      ensures r == DatasetAt(quads, base, subject)
    {
      hide Valid, Objects, SequenceIndexAt, StripPrefixDecode, Spell, Traverse, SortByIndex, Values, DistributionAt, PolicyAt, PropertiesAt;
      var id :- StripPrefixDecode(Spell(subject), base + "/datasets/");
      var index :- Index(subject);
      var distributionLinks := Links(subject, DistributionLink);
      var distributionEntries: seq<Indexed<Distribution>> := [];
      ghost var distributionLoad := DistributionReader(quads, base);
      TraverseNothing(distributionLinks, distributionLoad);
      for i := 0 to |distributionLinks|
        invariant Traverse(distributionLinks[..i], distributionLoad) == Ok(distributionEntries)
      {
        TraverseStep(distributionLinks, i, distributionLoad);
        var node :- ExpectNamedNode(distributionLinks[i]);
        var entry :- LoadDistribution(base, node);
        distributionEntries := distributionEntries + [entry];
      }
      assert distributionLinks[..|distributionLinks|] == distributionLinks;
      var distributions := Values(SortByIndex(distributionEntries));
      var policyLinks := Links(subject, HasPolicy);
      var policyEntries: seq<Indexed<Policy>> := [];
      ghost var policyLoad := PolicyReader(quads);
      TraverseNothing(policyLinks, policyLoad);
      for i := 0 to |policyLinks|
        invariant Traverse(policyLinks[..i], policyLoad) == Ok(policyEntries)
      {
        TraverseStep(policyLinks, i, policyLoad);
        var node :- ExpectNamedNode(policyLinks[i]);
        var entry :- LoadPolicy(node);
        policyEntries := policyEntries + [entry];
      }
      assert policyLinks[..|policyLinks|] == policyLinks;
      var policies := Values(SortByIndex(policyEntries));
      var properties :- LoadProperties(subject, DATASET_RESERVED);
      r := Ok(Indexed(index, Dataset(id, properties, distributions, policies)));
    }

    /** The catalog this graph holds for `node`, if any. */
    method LoadCatalog(node: string) returns (r: Result<Option<Catalog>>)
      requires Valid()
      ensures r == CatalogAt(quads, node)
    {
      hide Valid, Objects, OptionalString, StripPrefixDecode, Spell, Traverse, SortByIndex, Values, DatasetAt, DataServiceAt,
           PropertiesAt, Matching, CatalogSubject;
      var base := NodeBase(node);
      var typed := MatchingQuads(None, Some(Term(RdfType)), Some(NamedNode(Term(CatalogClass))));
      CatalogSubjectIsFirst(quads);
      if typed == [] {
        return Ok(None);
      }
      var subject :- ExpectNamedNode(typed[0].subject);
      var id :- StripPrefixDecode(Spell(subject), base + "/catalogs/");
      var participantId :- Text(subject, ParticipantId);
      var properties :- LoadProperties(subject, CATALOG_RESERVED);
      var datasetLinks := Links(subject, DatasetLink);
      var datasetEntries: seq<Indexed<Dataset>> := [];
      ghost var datasetLoad := DatasetReader(quads, base);
      TraverseNothing(datasetLinks, datasetLoad);
      for i := 0 to |datasetLinks|
        invariant Traverse(datasetLinks[..i], datasetLoad) == Ok(datasetEntries)
      {
        TraverseStep(datasetLinks, i, datasetLoad);
        var child :- ExpectNamedNode(datasetLinks[i]);
        var entry :- LoadDataset(base, child);
        datasetEntries := datasetEntries + [entry];
      }
      assert datasetLinks[..|datasetLinks|] == datasetLinks;
      var datasets := Values(SortByIndex(datasetEntries));
      var serviceLinks := Links(subject, ServiceLink);
      var serviceEntries: seq<Indexed<DataService>> := [];
      ghost var serviceLoad := DataServiceReader(quads, base);
      TraverseNothing(serviceLinks, serviceLoad);
      for i := 0 to |serviceLinks|
        invariant Traverse(serviceLinks[..i], serviceLoad) == Ok(serviceEntries)
      {
        TraverseStep(serviceLinks, i, serviceLoad);
        var child :- ExpectNamedNode(serviceLinks[i]);
        var entry :- LoadDataService(base, child);
        serviceEntries := serviceEntries + [entry];
      }
      assert serviceLinks[..|serviceLinks|] == serviceLinks;
      var services := Values(SortByIndex(serviceEntries));
      r := Ok(Some(Catalog(id, node, participantId, datasets, services, properties)));
    }
  }
}
