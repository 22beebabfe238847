/** Crawl cycles (`crawler/lib.rs`): every participant is crawled once per
    cycle, in any completion order, and catalogs not refreshed for too long are
    removed. What the network and the store's disk answer are parameters. */
module Harvester {
  import opened Text
  import opened CatalogCore
  import opened Read
  import opened RoundTrip
  import opened Store

  /** What happens to participant `i` in one cycle: what its crawl yields,
      whether the store takes it, and when it ends. */
  datatype Crawl = Crawl(fetched: Result<Catalog>, written: bool, end: nat)

  predicate Succeeds(crawl: Crawl) {
    crawl.fetched.Ok? && crawl.written
  }

  datatype Outcome = Outcome(ok: bool, end: nat)

  datatype CrawlSummary = CrawlSummary(
    attempted: nat, succeeded: nat, failed: nat, succeededIds: seq<string>, failures: seq<string>, finished: map<string, nat>)

  datatype ParticipantStatus = ParticipantStatus(lastAttempt: Option<nat>, lastSuccess: Option<nat>, failing: bool, cached: bool)

  datatype CycleReport = CycleReport(summary: CrawlSummary, expired: seq<string>)

  // ----- What a cycle amounts to -----

  ghost predicate DistinctIds(ids: seq<string>) {
    forall i, j :: 0 <= i < j < |ids| ==> ids[i] != ids[j]
  }

  /** The ids whose crawl ended as `wanted`, in participant order. */
  function IdsWith(ids: seq<string>, crawls: seq<Crawl>, wanted: bool): (r: seq<string>)
    requires |ids| == |crawls|
  {
    if ids == [] then []
    else
      var n := |ids| - 1;
      IdsWith(ids[..n], crawls[..n], wanted) + if Succeeds(crawls[n]) == wanted then [ids[n]] else []
  }

  /** The catalogs harvested this cycle. */
  function Harvested(ids: seq<string>, crawls: seq<Crawl>): (r: map<string, Catalog>)
    requires |ids| == |crawls|
  {
    if ids == [] then map[]
    else
      var n := |ids| - 1;
      var rest := Harvested(ids[..n], crawls[..n]);
      if Succeeds(crawls[n]) then rest[ids[n] := crawls[n].fetched.value] else rest
  }

  function EndTimes(ids: seq<string>, crawls: seq<Crawl>): (r: map<string, nat>)
    requires |ids| == |crawls|
  {
    if ids == [] then map[]
    else
      var n := |ids| - 1;
      EndTimes(ids[..n], crawls[..n])[ids[n] := crawls[n].end]
  }

  function SummaryOf(ids: seq<string>, crawls: seq<Crawl>): (s: CrawlSummary)
    requires |ids| == |crawls|
  {
    CrawlSummary(|ids|, |IdsWith(ids, crawls, true)|, |IdsWith(ids, crawls, false)|,
                 IdsWith(ids, crawls, true), IdsWith(ids, crawls, false), EndTimes(ids, crawls))
  }

  lemma {:induction false} IdsWithMembers(ids: seq<string>, crawls: seq<Crawl>, wanted: bool)
    requires |ids| == |crawls|
    ensures forall id :: id in IdsWith(ids, crawls, wanted) <==> exists i :: 0 <= i < |ids| && ids[i] == id && Succeeds(crawls[i]) == wanted
  {
    if ids != [] {
      var n := |ids| - 1;
      IdsWithMembers(ids[..n], crawls[..n], wanted);
    }
  }

  lemma IdsWithStep(ids: seq<string>, crawls: seq<Crawl>, wanted: bool)
    requires |ids| == |crawls| > 0
    ensures var n := |ids| - 1;
            var before := IdsWith(ids[..n], crawls[..n], wanted);
            IdsWith(ids, crawls, wanted) == if Succeeds(crawls[n]) == wanted then before + [ids[n]] else before
  {
  }

  lemma {:induction false} ListsSplit(ids: seq<string>, crawls: seq<Crawl>)
    requires |ids| == |crawls|
    ensures multiset(IdsWith(ids, crawls, true)) + multiset(IdsWith(ids, crawls, false)) == multiset(ids)
    ensures |IdsWith(ids, crawls, true)| + |IdsWith(ids, crawls, false)| == |ids|
  {
    if ids == [] {
    } else {
      hide *;
      var n := |ids| - 1;
      ListsSplit(ids[..n], crawls[..n]);
      IdsWithStep(ids, crawls, true);
      IdsWithStep(ids, crawls, false);
      OneMoreId(IdsWith(ids[..n], crawls[..n], true), IdsWith(ids[..n], crawls[..n], false), ids[..n], ids[n]);
      assert ids == ids[..n] + [ids[n]];
    }
  }

  lemma OneMoreId(yes: seq<string>, no: seq<string>, ids: seq<string>, id: string)
    requires multiset(yes) + multiset(no) == multiset(ids)
    ensures multiset(yes + [id]) + multiset(no) == multiset(ids + [id]) == multiset(yes) + multiset(no + [id])
  {
  }

  /** The two lists of a summary split the participants, each in configured order. */
  lemma SummaryPartitions(ids: seq<string>, crawls: seq<Crawl>)
    requires |ids| == |crawls|
    ensures var s := SummaryOf(ids, crawls);
            && s.succeeded + s.failed == s.attempted
            && multiset(s.succeededIds) + multiset(s.failures) == multiset(ids)
    ensures DistinctIds(ids) ==> forall id :: !(id in IdsWith(ids, crawls, true) && id in IdsWith(ids, crawls, false))
  {
    hide IdsWith, EndTimes;
    ListsSplit(ids, crawls);
    IdsWithMembers(ids, crawls, true);
    IdsWithMembers(ids, crawls, false);
    assert DistinctIds(ids) ==> forall i, j :: 0 <= i < |ids| && 0 <= j < |ids| && ids[i] == ids[j] ==> i == j;
  }

  lemma {:induction false} HarvestedKeys(ids: seq<string>, crawls: seq<Crawl>)
    requires |ids| == |crawls|
    ensures forall id :: id in Harvested(ids, crawls) <==> id in IdsWith(ids, crawls, true)
    ensures EndTimes(ids, crawls).Keys == Members(ids)
  {
    if ids != [] {
      var n := |ids| - 1;
      HarvestedKeys(ids[..n], crawls[..n]);
      assert ids == ids[..n] + [ids[n]];
    }
  }

  // ----- Completion order -----

  /** `order` visits each of `n` participants once. */
  ghost predicate IsOrder(order: seq<nat>, n: nat) {
    && (forall k :: 0 <= k < |order| ==> order[k] < n)
    && (forall j, k :: 0 <= j < k < |order| ==> order[j] != order[k])
    && forall i: nat :: i < n ==> i in order
  }

  /** The catalogs cached by the crawls that have completed, in whatever order. */
  function HarvestedSoFar(ids: seq<string>, crawls: seq<Crawl>, order: seq<nat>): (r: map<string, Catalog>)
    requires |ids| == |crawls| && forall k :: 0 <= k < |order| ==> order[k] < |ids|
  {
    if order == [] then map[]
    else
      var last := order[|order| - 1];
      var rest := HarvestedSoFar(ids, crawls, order[..|order| - 1]);
      if Succeeds(crawls[last]) then rest[ids[last] := crawls[last].fetched.value] else rest
  }

  lemma {:induction false} HarvestedSoFarIs(ids: seq<string>, crawls: seq<Crawl>, order: seq<nat>)
    requires |ids| == |crawls| && DistinctIds(ids) && forall k :: 0 <= k < |order| ==> order[k] < |ids|
    ensures forall id :: id in HarvestedSoFar(ids, crawls, order) <==>
                         exists k :: 0 <= k < |order| && ids[order[k]] == id && Succeeds(crawls[order[k]])
    ensures forall k :: 0 <= k < |order| && Succeeds(crawls[order[k]]) ==>
                        ids[order[k]] in HarvestedSoFar(ids, crawls, order)
                        && HarvestedSoFar(ids, crawls, order)[ids[order[k]]] == crawls[order[k]].fetched.value
  {
    if order != [] {
      var n := |order| - 1;
      HarvestedSoFarIs(ids, crawls, order[..n]);
      assert forall i, j :: 0 <= i < |ids| && 0 <= j < |ids| && ids[i] == ids[j] ==> i == j;
    }
  }

  lemma {:induction false} HarvestedIs(ids: seq<string>, crawls: seq<Crawl>)
    requires |ids| == |crawls| && DistinctIds(ids)
    ensures forall i :: 0 <= i < |ids| && Succeeds(crawls[i]) ==>
                        ids[i] in Harvested(ids, crawls) && Harvested(ids, crawls)[ids[i]] == crawls[i].fetched.value
  {
    if ids != [] {
      HarvestedIs(ids[..|ids| - 1], crawls[..|ids| - 1]);
    }
  }

  /** What ends up cached does not depend on the order crawls complete in. */
  lemma OrderIsIrrelevant(ids: seq<string>, crawls: seq<Crawl>, order: seq<nat>)
    requires |ids| == |crawls| && DistinctIds(ids) && IsOrder(order, |ids|)
    ensures HarvestedSoFar(ids, crawls, order) == Harvested(ids, crawls)
  {
    var a, b := HarvestedSoFar(ids, crawls, order), Harvested(ids, crawls);
    HarvestedSoFarIs(ids, crawls, order);
    HarvestedIs(ids, crawls);
    HarvestedKeys(ids, crawls);
    IdsWithMembers(ids, crawls, true);
    forall id ensures id in a <==> id in b {
      if id in b {
        var i :| 0 <= i < |ids| && ids[i] == id && Succeeds(crawls[i]);
        assert i in order;
      }
    }
    forall id | id in a ensures a[id] == b[id] {
      var k :| 0 <= k < |order| && ids[order[k]] == id && Succeeds(crawls[order[k]]);
    }
  }

  // ----- The harvester -----

  function SortIds(ids: seq<string>): (r: seq<string>) {
    if ids == [] then [] else InsertId(ids[0], SortIds(ids[1..]))
  }

  function InsertId(id: string, sorted: seq<string>): (r: seq<string>)
    ensures forall x :: x in r <==> x == id || x in sorted
  {
    if sorted == [] || !StringLess(sorted[0], id) then [id] + sorted else [sorted[0]] + InsertId(id, sorted[1..])
  }

  lemma {:induction false} SortIdsMembers(ids: seq<string>)
    ensures forall x :: x in SortIds(ids) <==> x in ids
  {
    hide InsertId;
    if ids != [] {
      SortIdsMembers(ids[1..]);
    }
  }

  /** A catalog not crawled successfully for longer than `maxAge`. */
  predicate IsStale(lastSuccess: map<string, nat>, id: string, now: nat, maxAge: nat) {
    id in lastSuccess && now > lastSuccess[id] + maxAge
  }

  function OutcomesOf(crawls: seq<Crawl>): (r: seq<Outcome>) {
    seq(|crawls|, i requires 0 <= i < |crawls| => Outcome(Succeeds(crawls[i]), crawls[i].end))
  }

  lemma OutcomesSorted(crawls: seq<Crawl>, order: seq<nat>, outcomes: seq<Indexed<Outcome>>)
    requires IsOrder(order, |crawls|) && |outcomes| == |order|
    requires forall k :: 0 <= k < |order| ==> outcomes[k] == Indexed(order[k], OutcomesOf(crawls)[order[k]])
    ensures Values(SortByIndex(outcomes)) == OutcomesOf(crawls)
  {
    forall i: nat | i < |crawls| ensures HasIndex(outcomes, i) {
      assert i in order;
      var k :| 0 <= k < |order| && order[k] == i;
      assert outcomes[k].index == i;
    }
    SortedValues(outcomes, OutcomesOf(crawls));
  }

  class CrawlHarvester {
    const participants: seq<string>
    const maxCatalogAge: nat
    /** The catalogs in the store, by node. */
    var cache: map<string, Catalog>
    var lastSuccess: map<string, nat>
    var status: map<string, ParticipantStatus>
    var cyclesCompleted: nat

    /** The ids with a last success, those whose status says `cached`, and the
        nodes holding a catalog are the same; the reported time of an id's last
        success is the one its age counts from. */
    ghost predicate Valid()
      reads this
    {
      && DistinctIds(participants)
      && status.Keys == Members(participants)
      && lastSuccess.Keys == cache.Keys == (set id | id in status && status[id].cached)
      && TimesReported(lastSuccess, status)
    }

    constructor (participants: seq<string>, maxCatalogAge: nat)
      requires DistinctIds(participants)
      ensures Valid() && this.participants == participants && this.maxCatalogAge == maxCatalogAge
      ensures cache == map[] && lastSuccess == map[] && cyclesCompleted == 0
    {
      this.participants := participants;
      this.maxCatalogAge := maxCatalogAge;
      cache := map[];
      lastSuccess := map[];
      status := map id | id in participants :: ParticipantStatus(None, None, false, false);
      cyclesCompleted := 0;
    }

    /** `crawl_once`: the crawls complete in `order`; the summary is in
        participant order all the same. */
    method CrawlOnce(crawls: seq<Crawl>, order: seq<nat>) returns (summary: CrawlSummary)
      requires DistinctIds(participants) && |crawls| == |participants| && IsOrder(order, |participants|)
      modifies `cache
      ensures summary == SummaryOf(participants, crawls)
      ensures cache == old(cache) + Harvested(participants, crawls)
    {
      hide Harvested, IdsWith, EndTimes;
      var outcomes: seq<Indexed<Outcome>> := [];
      for k := 0 to |order|
        invariant |outcomes| == k && forall j :: 0 <= j < k ==> outcomes[j] == Indexed(order[j], OutcomesOf(crawls)[order[j]])
        invariant cache == old(cache) + HarvestedSoFar(participants, crawls, order[..k])
      {
        assert order[..k + 1][..k] == order[..k];
        var i := order[k];
        if crawls[i].fetched.Ok? && crawls[i].written {
          cache := cache[participants[i] := crawls[i].fetched.value];
        }
        outcomes := outcomes + [Indexed(i, Outcome(Succeeds(crawls[i]), crawls[i].end))];
      }
      assert order[..|order|] == order;
      OrderIsIrrelevant(participants, crawls, order);
      OutcomesSorted(crawls, order, outcomes);
      summary := Summarize(Values(SortByIndex(outcomes)), crawls);
    }

    method Summarize(outcomes: seq<Outcome>, ghost crawls: seq<Crawl>) returns (s: CrawlSummary)
      requires |crawls| == |participants| && outcomes == OutcomesOf(crawls)
      ensures s == SummaryOf(participants, crawls)
    {
      s := CrawlSummary(0, 0, 0, [], [], map[]);
      for i := 0 to |participants|
        invariant s == SummaryOf(participants[..i], crawls[..i])
      {
        assert participants[..i + 1][..i] == participants[..i] && crawls[..i + 1][..i] == crawls[..i];
        var id := participants[i];
        s := s.(attempted := s.attempted + 1, finished := s.finished[id := outcomes[i].end]);
        if outcomes[i].ok {
          s := s.(succeeded := s.succeeded + 1, succeededIds := s.succeededIds + [id]);
        } else {
          s := s.(failed := s.failed + 1, failures := s.failures + [id]);
        }
      }
      assert participants[..|participants|] == participants && crawls[..|participants|] == crawls;
    }

    /** `run_cycle`: `deletable` says whether the store manages to remove a node. */
    method RunCycle(crawls: seq<Crawl>, order: seq<nat>, deletable: string -> bool, now: nat) returns (report: CycleReport)
      requires Valid() && |crawls| == |participants| && IsOrder(order, |participants|)
      modifies this
      ensures Valid() && cyclesCompleted == old(cyclesCompleted) + 1
      ensures report.summary == SummaryOf(participants, crawls)
      // What is left is what was there or harvested, less what expired.
      ensures cache == (old(cache) + Harvested(participants, crawls)) - Members(report.expired)
      ensures lastSuccess == Refreshed(old(lastSuccess), report.summary, now) - Members(report.expired)
      // What expires is what is stale and can be removed.
      ensures forall id :: id in report.expired <==>
                           IsStale(Refreshed(old(lastSuccess), report.summary, now), id, now, maxCatalogAge) && deletable(id)
      ensures forall id :: id in cache && IsStale(lastSuccess, id, now, maxCatalogAge) ==> !deletable(id)
      ensures forall id :: id in status ==> status[id] == StatusAfter(old(status)[id], id, report.summary, report.expired, now)
      ensures forall p :: 0 <= p < |participants| ==>
                && participants[p] in old(status) && participants[p] in status
                && ReportsCrawl(old(status)[participants[p]], status[participants[p]], crawls[p], participants[p] in report.expired)
    {
      hide Harvested, IdsWith, EndTimes, IsOrder, DistinctIds, StatusAfter, IsStale, Refreshed, TimesReported, ReportsCrawl;
      var summary := CrawlOnce(crawls, order);
      HarvestedKeys(participants, crawls);
      SucceededAreParticipants(participants, crawls);
      assert cache.Keys == lastSuccess.Keys + Members(summary.succeededIds);
      var expired := Settle(summary, deletable, now);
      report := CycleReport(summary, expired);
      forall p | 0 <= p < |participants|
        ensures participants[p] in status
        ensures ReportsCrawl(old(status)[participants[p]], status[participants[p]], crawls[p], participants[p] in expired)
      {
        assert participants[p] in Members(participants);
        StatusReportsCrawl(participants, crawls, p, old(status)[participants[p]], expired, now);
      }
    }

    /** The rest of a cycle, once every participant has been crawled. */
    method Settle(summary: CrawlSummary, deletable: string -> bool, now: nat) returns (expired: seq<string>)
      requires DistinctIds(participants) && status.Keys == Members(participants)
      requires lastSuccess.Keys == (set id | id in status && status[id].cached) && TimesReported(lastSuccess, status)
      requires cache.Keys == lastSuccess.Keys + Members(summary.succeededIds)
      requires Members(summary.succeededIds) + Members(summary.failures) <= Members(participants)
      modifies this
      ensures Valid() && cyclesCompleted == old(cyclesCompleted) + 1
      ensures cache == old(cache) - Members(expired)
      ensures lastSuccess == Refreshed(old(lastSuccess), summary, now) - Members(expired)
      ensures forall id :: id in expired <==>
                           IsStale(Refreshed(old(lastSuccess), summary, now), id, now, maxCatalogAge) && deletable(id)
      ensures forall id :: id in cache && IsStale(lastSuccess, id, now, maxCatalogAge) ==> !deletable(id)
      ensures forall id :: id in status ==> status[id] == StatusAfter(old(status)[id], id, summary, expired, now)
    {
      hide DistinctIds, StatusAfter, EndOf, TimesReported;
      RefreshTimes(summary, now);
      expired := ExpireStale(deletable, now);
      assert Members(expired) <= Members(participants);
      ghost var left := old(cache.Keys) - Members(expired);
      RecordStatus(summary, expired, now);
      StatusCached(old(status), summary, expired, now);
      TimesStayReported(old(lastSuccess), old(status), summary, expired, now, status);
      assert status.Keys == Members(participants);
      assert (set id | id in status && status[id].cached) == left;
    }

    /** Removes what is stale from the store; what could not be removed is kept
        for the next cycle. */
    method ExpireStale(deletable: string -> bool, now: nat) returns (expired: seq<string>)
      requires lastSuccess.Keys == cache.Keys
      modifies `cache, `lastSuccess
      ensures cache == old(cache) - Members(expired) && lastSuccess == old(lastSuccess) - Members(expired)
      ensures forall id :: id in expired <==> IsStale(old(lastSuccess), id, now, maxCatalogAge) && deletable(id)
    {
      var stale := StaleIds(now);
      expired := [];
      for i := 0 to |stale|
        invariant forall id :: id in expired <==> id in stale[..i] && deletable(id)
        invariant cache == old(cache) - Members(expired)
        invariant lastSuccess == old(lastSuccess) - Members(expired)
      {
        if deletable(stale[i]) {
          cache := cache - {stale[i]};
          lastSuccess := lastSuccess - {stale[i]};
          expired := expired + [stale[i]];
        }
      }
    }

    /** The last success of whoever succeeded is when that crawl ended. */
    method RefreshTimes(summary: CrawlSummary, now: nat)
      modifies `lastSuccess
      ensures lastSuccess == Refreshed(old(lastSuccess), summary, now)
    {
      for i := 0 to |summary.succeededIds|
        invariant lastSuccess.Keys == old(lastSuccess.Keys) + Members(summary.succeededIds[..i])
        invariant forall id :: id in lastSuccess ==>
                    lastSuccess[id] == if id in summary.succeededIds[..i] then EndOf(summary, id, now) else old(lastSuccess)[id]
      {
        var id := summary.succeededIds[i];
        lastSuccess := lastSuccess[id := EndOf(summary, id, now)];
      }
      assert lastSuccess == Refreshed(old(lastSuccess), summary, now);
    }

    method StaleIds(now: nat) returns (stale: seq<string>)
      ensures forall id :: id in stale <==> IsStale(lastSuccess, id, now, maxCatalogAge)
    {
      var rest := lastSuccess.Keys;
      stale := [];
      while rest != {}
        invariant rest <= lastSuccess.Keys
        invariant forall id :: id in stale <==> id !in rest && IsStale(lastSuccess, id, now, maxCatalogAge)
        decreases rest
      {
        var id :| id in rest;
        rest := rest - {id};
        if now > lastSuccess[id] + maxCatalogAge {
          stale := stale + [id];
        }
      }
      SortIdsMembers(stale);
      stale := SortIds(stale);
    }

    /** `record_status`. */
    method RecordStatus(summary: CrawlSummary, expired: seq<string>, cycleEnd: nat)
      modifies `status, `cyclesCompleted
      ensures cyclesCompleted == old(cyclesCompleted) + 1
      ensures status.Keys == old(status.Keys) + Members(summary.succeededIds) + Members(summary.failures) + Members(expired)
      ensures forall id :: id in old(status) ==> status[id] == StatusAfter(old(status)[id], id, summary, expired, cycleEnd)
    {
      RecordSuccesses(summary, cycleEnd);
      RecordFailures(summary, cycleEnd);
      RecordExpired(expired);
      cyclesCompleted := cyclesCompleted + 1;
    }

    method RecordSuccesses(summary: CrawlSummary, cycleEnd: nat)
      modifies `status
      ensures status.Keys == old(status.Keys) + Members(summary.succeededIds)
      ensures forall id :: id in status ==>
                status[id] == if id in summary.succeededIds then Successful(EndOf(summary, id, cycleEnd)) else old(status)[id]
    {
      hide Successful, EndOf;
      for i := 0 to |summary.succeededIds|
        invariant status.Keys == old(status.Keys) + Members(summary.succeededIds[..i])
        invariant forall id :: id in status ==>
                    status[id] == if id in summary.succeededIds[..i] then Successful(EndOf(summary, id, cycleEnd)) else old(status)[id]
      {
        var id := summary.succeededIds[i];
        status := status[id := Successful(EndOf(summary, id, cycleEnd))];
      }
    }

    function Entry(id: string): (e: ParticipantStatus)
      reads this
    {
      if id in status then status[id] else ParticipantStatus(None, None, false, false)
    }

    method RecordFailures(summary: CrawlSummary, cycleEnd: nat)
      modifies `status
      ensures status.Keys == old(status.Keys) + Members(summary.failures)
      ensures forall id :: id in old(status) ==>
                status[id] == if id in summary.failures then Failed(old(status)[id], EndOf(summary, id, cycleEnd)) else old(status)[id]
    {
      hide EndOf;
      for i := 0 to |summary.failures|
        invariant status.Keys == old(status.Keys) + Members(summary.failures[..i])
        invariant forall id :: id in old(status) ==>
                    status[id] == if id in summary.failures[..i] then Failed(old(status)[id], EndOf(summary, id, cycleEnd)) else old(status)[id]
      {
        var id := summary.failures[i];
        status := status[id := Failed(Entry(id), EndOf(summary, id, cycleEnd))];
      }
    }

    method RecordExpired(expired: seq<string>)
      modifies `status
      ensures status.Keys == old(status.Keys) + Members(expired)
      ensures forall id :: id in old(status) ==>
                status[id] == if id in expired then old(status)[id].(cached := false) else old(status)[id]
    {
      for i := 0 to |expired|
        invariant status.Keys == old(status.Keys) + Members(expired[..i])
        invariant forall id :: id in old(status) ==>
                    status[id] == if id in expired[..i] then old(status)[id].(cached := false) else old(status)[id]
      {
        status := status[expired[i] := Entry(expired[i]).(cached := false)];
      }
    }
  }

  function Members(ids: seq<string>): (r: set<string>) {
    set id | id in ids
  }

  function EndOf(summary: CrawlSummary, id: string, cycleEnd: nat): (at: nat) {
    if id in summary.finished then summary.finished[id] else cycleEnd
  }

  /** The last success of whoever succeeded is when that crawl ended. */
  function Refreshed(times: map<string, nat>, summary: CrawlSummary, now: nat): (r: map<string, nat>) {
    map id | id in times.Keys + Members(summary.succeededIds) ::
      if id in summary.succeededIds then EndOf(summary, id, now) else times[id]
  }

  /** The time of each id's last success is the one its status reports. */
  ghost predicate TimesReported(times: map<string, nat>, status: map<string, ParticipantStatus>) {
    forall id :: id in times ==> id in status && status[id].lastSuccess == Some(times[id])
  }

  lemma TimesStayReported(
    times: map<string, nat>, before: map<string, ParticipantStatus>, summary: CrawlSummary, expired: seq<string>, now: nat,
    after: map<string, ParticipantStatus>)
    requires TimesReported(times, before) && before.Keys == after.Keys && Members(summary.succeededIds) <= before.Keys
    requires forall id :: id in after ==> after[id] == StatusAfter(before[id], id, summary, expired, now)
    ensures TimesReported(Refreshed(times, summary, now) - Members(expired), after)
  {
    hide EndOf;
  }

  function Successful(at: nat): (e: ParticipantStatus) {
    ParticipantStatus(Some(at), Some(at), false, true)
  }

  function Failed(e: ParticipantStatus, at: nat): (r: ParticipantStatus) {
    e.(lastAttempt := Some(at), failing := true)
  }

  /** A participant's status after a cycle: its attempt, its error cleared by a
      success and kept otherwise, and `cached` until its catalog expires. */
  function StatusAfter(e: ParticipantStatus, id: string, summary: CrawlSummary, expired: seq<string>, cycleEnd: nat): (r: ParticipantStatus) {
    var at := EndOf(summary, id, cycleEnd);
    var attempted := if id in summary.succeededIds then Successful(at) else e;
    var settled := if id in summary.failures then Failed(attempted, at) else attempted;
    if id in expired then settled.(cached := false) else settled
  }

  lemma StatusCached(before: map<string, ParticipantStatus>, summary: CrawlSummary, expired: seq<string>, cycleEnd: nat)
    ensures forall id :: id in before ==>
              (StatusAfter(before[id], id, summary, expired, cycleEnd).cached <==>
               id !in expired && (id in summary.succeededIds || before[id].cached))
  {
  }

  lemma SucceededAreParticipants(ids: seq<string>, crawls: seq<Crawl>)
    requires |ids| == |crawls|
    ensures forall id :: id in IdsWith(ids, crawls, true) || id in IdsWith(ids, crawls, false) ==> id in ids
  {
    hide IdsWith;
    IdsWithMembers(ids, crawls, true);
    IdsWithMembers(ids, crawls, false);
  }

  // ----- A whole run -----

  datatype Cycle = Cycle(crawls: seq<Crawl>, order: seq<nat>, deletable: string -> bool, now: nat)

  ghost predicate AllCrawled(cycles: seq<Cycle>, n: nat) {
    forall c :: c in cycles ==> |c.crawls| == n && IsOrder(c.order, n)
  }

  /** In cycle `c` a catalog of `id` crawled at `end` is found stale and removed. */
  predicate Removes(c: Cycle, id: string, end: nat, maxAge: nat) {
    c.now > end + maxAge && c.deletable(id)
  }

  /** The crawl of participant `p` in cycle `k` is its last that succeeded, and
      no cycle since has removed its catalog. */
  ghost predicate HeldSince(cycles: seq<Cycle>, p: nat, k: nat, id: string, maxAge: nat)
    requires forall c :: c in cycles ==> p < |c.crawls|
  {
    && k < |cycles| && Succeeds(cycles[k].crawls[p])
    && (forall m :: k < m < |cycles| ==> !Succeeds(cycles[m].crawls[p]))
    && forall m :: k <= m < |cycles| ==> !Removes(cycles[m], id, cycles[k].crawls[p].end, maxAge)
  }

  /** The crawl whose catalog is held for participant `p` after `cycles`. */
  function HeldCrawl(cycles: seq<Cycle>, p: nat, id: string, maxAge: nat): (held: Option<Crawl>)
    requires forall c :: c in cycles ==> p < |c.crawls|
  {
    if cycles == [] then None
    else
      var n := |cycles| - 1;
      AfterCycle(HeldCrawl(cycles[..n], p, id, maxAge), cycles[n], p, id, maxAge)
  }

  function AfterCycle(held: Option<Crawl>, c: Cycle, p: nat, id: string, maxAge: nat): (r: Option<Crawl>)
    requires p < |c.crawls|
  {
    var crawl := if Succeeds(c.crawls[p]) then Some(c.crawls[p]) else held;
    if crawl.Some? && Removes(c, id, crawl.value.end, maxAge) then None else crawl
  }

  lemma HeldSinceStep(cycles: seq<Cycle>, p: nat, k: nat, id: string, maxAge: nat)
    requires cycles != [] && forall c :: c in cycles ==> p < |c.crawls|
    ensures var n := |cycles| - 1;
            var removed := k <= n && Removes(cycles[n], id, cycles[k].crawls[p].end, maxAge);
            HeldSince(cycles, p, k, id, maxAge) <==>
            if k == n then Succeeds(cycles[n].crawls[p]) && !removed
            else HeldSince(cycles[..n], p, k, id, maxAge) && !Succeeds(cycles[n].crawls[p]) && !removed
  {
    hide Succeeds, Removes;
    var n := |cycles| - 1;
    if k < n {
      assert cycles[..n][k] == cycles[k];
      assert forall m :: k < m < n ==> cycles[..n][m] == cycles[m];
    }
  }

  ghost predicate HeldSinceSome(cycles: seq<Cycle>, p: nat, id: string, maxAge: nat)
    requires forall c :: c in cycles ==> p < |c.crawls|
  {
    exists k: nat :: HeldSince(cycles, p, k, id, maxAge)
  }

  /** What is held is the participant's last successful crawl, from the cycle
      it succeeded in until one finds it stale and can remove it. */
  lemma {:induction false} HeldIsLastSuccess(cycles: seq<Cycle>, p: nat, id: string, maxAge: nat)
    requires forall c :: c in cycles ==> p < |c.crawls|
    ensures HeldCrawl(cycles, p, id, maxAge).Some? <==> HeldSinceSome(cycles, p, id, maxAge)
    ensures forall k: nat :: HeldSince(cycles, p, k, id, maxAge) ==>
              k < |cycles| && HeldCrawl(cycles, p, id, maxAge) == Some(cycles[k].crawls[p])
  {
    if cycles != [] {
      var n := |cycles| - 1;
      HeldIsLastSuccess(cycles[..n], p, id, maxAge);
      hide Succeeds, Removes, HeldSince;
      assert cycles[n] in cycles;
      HeldSinceStep(cycles, p, n, id, maxAge);
      forall k: nat
        ensures HeldSince(cycles, p, k, id, maxAge) ==> k < |cycles| && HeldCrawl(cycles, p, id, maxAge) == Some(cycles[k].crawls[p])
      {
        HeldSinceStep(cycles, p, k, id, maxAge);
      }
      if HeldCrawl(cycles, p, id, maxAge).Some? && !Succeeds(cycles[n].crawls[p]) {
        var k: nat :| HeldSince(cycles[..n], p, k, id, maxAge);
        HeldSinceStep(cycles, p, k, id, maxAge);
      }
    }
  }

  /** The store and the times agree with the crawl held for `id`, if any. */
  ghost predicate Holds(cache: map<string, Catalog>, times: map<string, nat>, id: string, held: Option<Crawl>) {
    && (id in cache <==> held.Some?) && (id in times <==> held.Some?)
    && (held.Some? ==> held.value.fetched.Ok? && cache[id] == held.value.fetched.value && times[id] == held.value.end)
  }

  lemma {:induction false} CrawlOf(ids: seq<string>, crawls: seq<Crawl>, p: nat)
    requires |ids| == |crawls| && DistinctIds(ids) && p < |ids|
    ensures ids[p] in IdsWith(ids, crawls, true) <==> Succeeds(crawls[p])
    ensures ids[p] in IdsWith(ids, crawls, false) <==> !Succeeds(crawls[p])
    ensures ids[p] in EndTimes(ids, crawls) && EndTimes(ids, crawls)[ids[p]] == crawls[p].end
  {
    var n := |ids| - 1;
    if p < n {
      CrawlOf(ids[..n], crawls[..n], p);
      assert ids[p] != ids[n];
    } else {
      IdsWithMembers(ids[..n], crawls[..n], true);
      IdsWithMembers(ids[..n], crawls[..n], false);
    }
  }

  /** `after` reports a participant's crawl: when it ended and whether it failed;
      a success is dated, a failure keeps the last date; what expired is no
      longer cached. */
  ghost predicate ReportsCrawl(before: ParticipantStatus, after: ParticipantStatus, crawl: Crawl, expired: bool) {
    && after.lastAttempt == Some(crawl.end)
    && (after.failing <==> crawl.fetched.Err? || !crawl.written)
    && after.lastSuccess == (if crawl.fetched.Ok? && crawl.written then Some(crawl.end) else before.lastSuccess)
    && (after.cached <==> !expired && ((crawl.fetched.Ok? && crawl.written) || before.cached))
  }

  lemma StatusReportsCrawl(
    ids: seq<string>, crawls: seq<Crawl>, p: nat, before: ParticipantStatus, expired: seq<string>, now: nat)
    requires DistinctIds(ids) && p < |ids| == |crawls|
    ensures ReportsCrawl(before, StatusAfter(before, ids[p], SummaryOf(ids, crawls), expired, now), crawls[p], ids[p] in expired)
  {
    CrawlOf(ids, crawls, p);
    hide IdsWith, EndTimes, DistinctIds;
  }

  /** One cycle moves what is held for participant `p` as `AfterCycle` says. */
  lemma CycleHolds(
    ids: seq<string>, p: nat, maxAge: nat, c: Cycle, held: Option<Crawl>,
    cache: map<string, Catalog>, times: map<string, nat>, expired: seq<string>)
    requires DistinctIds(ids) && p < |ids| == |c.crawls|
    requires Holds(cache, times, ids[p], held)
    requires ids[p] in expired <==>
             IsStale(Refreshed(times, SummaryOf(ids, c.crawls), c.now), ids[p], c.now, maxAge) && c.deletable(ids[p])
    ensures Holds((cache + Harvested(ids, c.crawls)) - Members(expired),
                  Refreshed(times, SummaryOf(ids, c.crawls), c.now) - Members(expired),
                  ids[p], AfterCycle(held, c, p, ids[p], maxAge))
  {
    CrawlOf(ids, c.crawls, p);
    HarvestedKeys(ids, c.crawls);
    HarvestedIs(ids, c.crawls);
    hide DistinctIds, IdsWith, EndTimes, Harvested;
  }

  /** A harvester's whole life: after any cycles it holds a participant's
      catalog exactly when that is the yield of its last successful crawl and
      no cycle since has found it stale and removed it; its age counts from the
      end of that crawl. */
  method Harvest(participants: seq<string>, maxCatalogAge: nat, cycles: seq<Cycle>) returns (h: CrawlHarvester)
    requires DistinctIds(participants) && AllCrawled(cycles, |participants|)
    ensures fresh(h) && h.Valid() && h.participants == participants && h.cyclesCompleted == |cycles|
    ensures forall p: nat :: p < |participants| ==>
              (participants[p] in h.cache <==> HeldSinceSome(cycles, p, participants[p], maxCatalogAge))
    ensures forall p: nat, k: nat :: p < |participants| && HeldSince(cycles, p, k, participants[p], maxCatalogAge) ==>
              && participants[p] in h.cache && cycles[k].crawls[p].fetched == Ok(h.cache[participants[p]])
              && participants[p] in h.lastSuccess && h.lastSuccess[participants[p]] == cycles[k].crawls[p].end
    ensures cycles != [] ==>
              var last := cycles[|cycles| - 1];
              forall id :: id in h.cache && IsStale(h.lastSuccess, id, last.now, maxCatalogAge) ==> !last.deletable(id)
  {
    hide IsOrder, DistinctIds, IsStale, Refreshed, Harvested, IdsWith, EndTimes, StatusAfter, AfterCycle, HeldSince, TimesReported;
    h := new CrawlHarvester(participants, maxCatalogAge);
    for i := 0 to |cycles|
      invariant fresh(h) && h.Valid() && h.cyclesCompleted == i && h.participants == participants && h.maxCatalogAge == maxCatalogAge
      invariant forall p: nat :: p < |participants| ==>
                  Holds(h.cache, h.lastSuccess, participants[p], HeldCrawl(cycles[..i], p, participants[p], maxCatalogAge))
      invariant i > 0 ==>
                  forall id :: id in h.cache && IsStale(h.lastSuccess, id, cycles[i - 1].now, maxCatalogAge) ==> !cycles[i - 1].deletable(id)
    {
      assert cycles[i] in cycles && cycles[..i + 1][..i] == cycles[..i];
      ghost var cache, times := h.cache, h.lastSuccess;
      var report := h.RunCycle(cycles[i].crawls, cycles[i].order, cycles[i].deletable, cycles[i].now);
      forall p: nat | p < |participants|
        ensures Holds(h.cache, h.lastSuccess, participants[p], HeldCrawl(cycles[..i + 1], p, participants[p], maxCatalogAge))
      {
        CycleHolds(participants, p, maxCatalogAge, cycles[i], HeldCrawl(cycles[..i], p, participants[p], maxCatalogAge),
                   cache, times, report.expired);
      }
    }
    assert cycles[..|cycles|] == cycles;
    forall p: nat | p < |participants| {
      HeldIsLastSuccess(cycles, p, participants[p], maxCatalogAge);
    }
  }
}
