/** The protocol that keeps a policy-filtered query on one store state
    (`WriteSequenceGuard` and the store's writers in `mod.rs`,
    `sparql_query_json_policy_filtered` in `sparql.rs`), as interleaved steps
    of any number of writers and readers. */
module Protocol {
  import opened Text
  import opened CatalogCore

  /** A committed state of the store: each node's catalog. */
  type Graphs = map<string, Catalog>

  /** `strict`: a writer's turn lasts until its guard drops. Otherwise the
      store may let the next writer in as soon as the transaction commits.
      `decide`: what the caller known by a key may see of one catalog. */
  datatype Config = Config(strict: bool, decide: (string, Catalog) -> set<string>)

  const ATTEMPTS := 5
  const CACHE_ENTRIES := 64

  /** `Open`: transaction started. `Writing`: guard alive, nothing committed.
      `Wrote`: committed, guard still alive. `Closing`: guard dropped,
      transaction not yet gone. */
  datatype Writer = Open | Writing | Wrote | Closing

  /** A list or progress kept for a key, with the write sequence it is for. */
  datatype Cached = Cached(tag: nat, visible: set<string>)
  datatype Partial = Partial(tag: nat, done: set<string>, visible: set<string>)

  datatype Reader =
    | Waiting(key: string, left: nat)
    | Chosen(key: string, left: nat, before: nat)
    | Scanned(key: string, left: nat, before: nat, snapshot: Graphs)
    | Deciding(key: string, left: nat, before: nat, snapshot: Graphs, done: set<string>, visible: set<string>)
    | Built(key: string, left: nat, before: nat, visible: set<string>)
    | Remembering(key: string, left: nat, before: nat, visible: set<string>)
    | Querying(key: string, left: nat, before: nat, visible: set<string>, looked: seq<Graphs>)
    | Returned(key: string, visible: set<string>, looked: seq<Graphs>, asOf: Graphs, quiet: bool)
    | Busy
    | Cancelled

  /** `finished` counts the guards dropped so far; the program keeps no such
      field. */
  datatype State = State(
    store: Graphs, counter: nat, lock: Option<nat>, writers: map<nat, Writer>, finished: nat,
    cache: map<string, Cached>, partials: map<string, Partial>, readers: map<nat, Reader>)

  const INITIAL := State(map[], 0, None, map[], 0, map[], map[], map[])

  function Live(s: State): (guards: set<nat>) {
    set w | w in s.writers && (s.writers[w] == Writing || s.writers[w] == Wrote)
  }

  /** What the caller known by `key` may see of `nodes` in `store`. */
  function AllowedIn(cfg: Config, key: string, store: Graphs, nodes: set<string>): (iris: set<string>) {
    set node, iri | node in nodes && node in store && iri in cfg.decide(key, store[node]) :: iri
  }

  // ----- Steps -----

  datatype Step =
    | Start(w: nat)
    | Begin(w: nat)
    | Commit(w: nat, next: Graphs)
    | ReleaseEarly(w: nat)
    | Drop(w: nat)
    | Release(w: nat)
    | Ask(r: nat, key: string)
    | Choose(r: nat)
    | UseCached(r: nat)
    | Scan(r: nat)
    | TakePartial(r: nat, young: bool)
    | Decide(r: nat, node: string)
    | KeepPartial(r: nat, evict: set<string>)
    | FinishBuild(r: nat)
    | CheckBuilt(r: nat)
    | Remember(r: nat, evict: set<string>)
    | Look(r: nat)
    | Finish(r: nat)
    | GiveUp(r: nat)
    | Cancel(r: nat)

  predicate Enabled(cfg: Config, s: State, step: Step) {
    match step
    case Start(w) => s.lock.None? && w !in s.writers
    case Begin(w) => w in s.writers && s.writers[w] == Open
    case Commit(w, _) => w in s.writers && s.writers[w] == Writing
    case ReleaseEarly(w) => !cfg.strict && w in s.writers && s.writers[w] == Wrote && s.lock == Some(w)
    case Drop(w) => w in Live(s)
    // A transaction that wrote nothing, or whose guard is gone.
    case Release(w) => w in s.writers && (s.writers[w] == Open || s.writers[w] == Closing)
    case Ask(r, _) => r !in s.readers
    case Choose(r) => r in s.readers && s.readers[r].Waiting? && s.readers[r].left > 0 && s.counter % 2 == 0
    case UseCached(r) =>
      r in s.readers && s.readers[r].Chosen? && s.readers[r].key in s.cache && s.cache[s.readers[r].key].tag == s.readers[r].before
    case Scan(r) => r in s.readers && s.readers[r].Chosen?
    case TakePartial(r, _) => r in s.readers && s.readers[r].Scanned?
    case Decide(r, node) =>
      r in s.readers && s.readers[r].Deciding? && node in s.readers[r].snapshot && node !in s.readers[r].done
    case KeepPartial(r, evict) =>
      r in s.readers && s.readers[r].Deciding? && |Kept(s.partials, evict, s.readers[r].key).Keys| < CACHE_ENTRIES
    case FinishBuild(r) => r in s.readers && s.readers[r].Deciding? && s.readers[r].snapshot.Keys <= s.readers[r].done
    case CheckBuilt(r) => r in s.readers && s.readers[r].Built?
    case Remember(r, evict) =>
      r in s.readers && s.readers[r].Remembering? && |Kept(s.cache, evict, s.readers[r].key).Keys| < CACHE_ENTRIES
    case Look(r) => r in s.readers && s.readers[r].Querying?
    case Finish(r) => r in s.readers && s.readers[r].Querying?
    case GiveUp(r) => r in s.readers && s.readers[r].Waiting? && (s.readers[r].left == 0 || s.counter % 2 == 1)
    case Cancel(r) => r in s.readers && !s.readers[r].Returned? && !s.readers[r].Busy?
  }

  /** The other keys' entries left after evicting `evict`. */
  function Kept<T>(m: map<string, T>, evict: set<string>, key: string): (r: map<string, T>) {
    m - evict - {key}
  }

  function AfterWriter(s: State, step: Step): (s': State)
    requires step.Start? || step.Begin? || step.Commit? || step.ReleaseEarly? || step.Drop? || step.Release?
  {
    match step
    case Start(w) => s.(lock := Some(w), writers := s.writers[w := Open])
    case Begin(w) => s.(counter := s.counter + 1, writers := s.writers[w := Writing])
    case Commit(w, next) => s.(store := next, writers := s.writers[w := Wrote])
    case ReleaseEarly(w) => s.(lock := None)
    case Drop(w) =>
      var s' := s.(counter := s.counter + 1, finished := s.finished + 1);
      if s.lock == Some(w) then s'.(writers := s.writers[w := Closing]) else s'.(writers := s.writers - {w})
    case Release(w) => s.(lock := None, writers := s.writers - {w})
  }

  predicate IsWriterStep(step: Step) {
    step.Start? || step.Begin? || step.Commit? || step.ReleaseEarly? || step.Drop? || step.Release?
  }

  function ReaderAfter(cfg: Config, s: State, step: Step): (reader: Reader)
    requires Enabled(cfg, s, step) && !IsWriterStep(step)
  {
    match step
    case Ask(_, key) => Waiting(key, ATTEMPTS)
    case Choose(r) =>
      var Waiting(key, left) := s.readers[r];
      Chosen(key, left - 1, s.counter)
    case UseCached(r) =>
      var Chosen(key, left, before) := s.readers[r];
      Querying(key, left, before, s.cache[key].visible, [])
    case Scan(r) =>
      var Chosen(key, left, before) := s.readers[r];
      Scanned(key, left, before, s.store)
    case TakePartial(r, young) =>
      var Scanned(key, left, before, snapshot) := s.readers[r];
      if young && key in s.partials && s.partials[key].tag == before
      then Deciding(key, left, before, snapshot, s.partials[key].done, s.partials[key].visible)
      else Deciding(key, left, before, snapshot, {}, {})
    case Decide(r, node) =>
      var Deciding(key, left, before, snapshot, done, visible) := s.readers[r];
      Deciding(key, left, before, snapshot, done + {node}, visible + cfg.decide(key, snapshot[node]))
    case FinishBuild(r) =>
      var Deciding(key, left, before, snapshot, done, visible) := s.readers[r];
      Built(key, left, before, visible)
    case CheckBuilt(r) =>
      var Built(key, left, before, visible) := s.readers[r];
      if s.counter == before then Remembering(key, left, before, visible) else Querying(key, left, before, visible, [])
    case Remember(r, _) =>
      var Remembering(key, left, before, visible) := s.readers[r];
      Querying(key, left, before, visible, [])
    case Look(r) =>
      var Querying(key, left, before, visible, looked) := s.readers[r];
      Querying(key, left, before, visible, looked + [s.store])
    case Finish(r) =>
      var Querying(key, left, before, visible, looked) := s.readers[r];
      if s.counter == before then Returned(key, visible, looked, s.store, Live(s) == {}) else Waiting(key, left)
    case GiveUp(_) => Busy
    case KeepPartial(_, _) => Cancelled
    case Cancel(_) => Cancelled
  }

  function CacheAfter(cfg: Config, s: State, step: Step): (cache: map<string, Cached>)
    requires Enabled(cfg, s, step)
  {
    match step
    case Remember(r, evict) =>
      var Remembering(key, _, before, visible) := s.readers[r];
      Kept(s.cache, evict, key)[key := Cached(before, visible)]
    case _ => s.cache
  }

  function PartialsAfter(cfg: Config, s: State, step: Step): (partials: map<string, Partial>)
    requires Enabled(cfg, s, step)
  {
    match step
    case TakePartial(r, _) => s.partials - {s.readers[r].key}
    case KeepPartial(r, evict) =>
      var Deciding(key, _, before, _, done, visible) := s.readers[r];
      Kept(s.partials, evict, key)[key := Partial(before, done, visible)]
    case _ => s.partials
  }

  function After(cfg: Config, s: State, step: Step): (s': State)
    requires Enabled(cfg, s, step)
  {
    if IsWriterStep(step) then AfterWriter(s, step)
    else
      s.(cache := CacheAfter(cfg, s, step), partials := PartialsAfter(cfg, s, step),
         readers := s.readers[step.r := ReaderAfter(cfg, s, step)])
  }

  // ----- What every step keeps -----

  /** The state after `steps`, from the start; `None` when one of them was not
      possible. A run is a list of steps for which there is one. */
  function StateAfter(cfg: Config, steps: seq<Step>): (s: Option<State>) {
    if steps == [] then Some(INITIAL)
    else
      var last := steps[|steps| - 1];
      match StateAfter(cfg, steps[..|steps| - 1])
      case None => None
      case Some(s) => if Enabled(cfg, s, last) then Some(After(cfg, s, last)) else None
  }

  /** The counter is twice the finished writes plus the live guards, and a
      transaction's holder is the one writer between its start and its commit. */
  ghost predicate WritersSound(cfg: Config, s: State) {
    && s.counter == 2 * s.finished + |Live(s)|
    && (s.lock.Some? ==> s.lock.value in s.writers)
    && forall w :: w in s.writers ==> (s.writers[w] != Wrote || cfg.strict) ==> s.lock == Some(w)
  }

  /** `tag` is the present counter and no write is under way: whatever was
      learnt since the counter took that value is still so. */
  ghost predicate Quiet(s: State, tag: nat) {
    tag == s.counter && Live(s) == {}
  }

  ghost predicate Agrees(cfg: Config, store: Graphs, key: string, nodes: set<string>, visible: set<string>) {
    nodes <= store.Keys && visible == AllowedIn(cfg, key, store, nodes)
  }

  ghost predicate CacheSound(cfg: Config, s: State, cache: map<string, Cached>) {
    && |cache.Keys| <= CACHE_ENTRIES
    && forall key :: key in cache ==>
         var e := cache[key];
         e.tag <= s.counter && e.tag % 2 == 0 && (Quiet(s, e.tag) ==> Agrees(cfg, s.store, key, s.store.Keys, e.visible))
  }

  ghost predicate PartialsSound(cfg: Config, s: State, partials: map<string, Partial>) {
    && |partials.Keys| <= CACHE_ENTRIES
    && forall key :: key in partials ==>
         var e := partials[key];
         e.tag <= s.counter && e.tag % 2 == 0 && (Quiet(s, e.tag) ==> Agrees(cfg, s.store, key, e.done, e.visible))
  }

  /** A returned result used one committed state: its allow-list is that
      state's, and every lookup read that state. */
  ghost predicate OneState(cfg: Config, reader: Reader)
    requires reader.Returned?
  {
    && reader.visible == AllowedIn(cfg, reader.key, reader.asOf, reader.asOf.Keys)
    && forall i :: 0 <= i < |reader.looked| ==> reader.looked[i] == reader.asOf
  }

  ghost predicate ReaderSound(cfg: Config, s: State, reader: Reader) {
    match reader
    case Chosen(_, _, before) => before <= s.counter && before % 2 == 0
    case Scanned(_, _, before, snapshot) => before <= s.counter && before % 2 == 0 && (Quiet(s, before) ==> snapshot == s.store)
    case Deciding(key, _, before, snapshot, done, visible) =>
      && before <= s.counter && before % 2 == 0
      && (Quiet(s, before) ==> snapshot == s.store && Agrees(cfg, s.store, key, done, visible))
    case Built(key, _, before, visible) =>
      before <= s.counter && before % 2 == 0 && (Quiet(s, before) ==> Agrees(cfg, s.store, key, s.store.Keys, visible))
    case Remembering(key, _, before, visible) =>
      before <= s.counter && before % 2 == 0 && (Quiet(s, before) ==> Agrees(cfg, s.store, key, s.store.Keys, visible))
    case Querying(key, _, before, visible, looked) =>
      && before <= s.counter && before % 2 == 0
      && (Quiet(s, before) ==> Agrees(cfg, s.store, key, s.store.Keys, visible))
      && (Quiet(s, before) ==> forall i :: 0 <= i < |looked| ==> looked[i] == s.store)
    case Returned(_, _, _, _, quiet) => (quiet || cfg.strict) ==> OneState(cfg, reader)
    case _ => true
  }

  ghost predicate ReadersSound(cfg: Config, s: State) {
    forall r :: r in s.readers ==> ReaderSound(cfg, s, s.readers[r])
  }

  /** Besides the writers: every list or progress still current agrees with the
      store, whether cached or in a reader's hands. */
  ghost predicate Sound(cfg: Config, s: State) {
    WritersSound(cfg, s) && CacheSound(cfg, s, s.cache) && PartialsSound(cfg, s, s.partials) && ReadersSound(cfg, s)
  }

  /** From `s` to `s'`, while the counter stands still and no guard is alive,
      the store has not changed. */
  ghost predicate Bracketed(s: State, s': State) {
    && s'.counter >= s.counter
    && forall tag: nat :: tag <= s.counter && Quiet(s', tag) ==> Quiet(s, tag) && s'.store == s.store
  }

  lemma WriterStepIsBracketed(s: State, step: Step)
    requires IsWriterStep(step) && Enabled(Config(false, (k, c) => {}), s, step)
    ensures Bracketed(s, AfterWriter(s, step))
  {
    var s' := AfterWriter(s, step);
    if step.Commit? || step.Begin? {
      assert step.w in Live(s');
    } else if s'.counter == s.counter {
      assert Live(s') == Live(s);
    }
  }

  lemma GuardStarts(s: State, w: nat)
    requires w in s.writers && s.writers[w] == Open
    ensures Live(AfterWriter(s, Begin(w))) == Live(s) + {w} && w !in Live(s)
  {
  }

  lemma GuardDrops(s: State, w: nat)
    requires w in Live(s)
    ensures Live(AfterWriter(s, Drop(w))) == Live(s) - {w}
  {
  }

  lemma GuardsStay(s: State, step: Step)
    requires IsWriterStep(step) && !step.Begin? && !step.Drop?
    requires Enabled(Config(false, (k, c) => {}), s, step)
    ensures Live(AfterWriter(s, step)) == Live(s)
  {
  }

  lemma WritersKept(cfg: Config, s: State, step: Step)
    requires WritersSound(cfg, s) && IsWriterStep(step) && Enabled(cfg, s, step)
    ensures WritersSound(cfg, AfterWriter(s, step))
  {
    if step.Begin? {
      GuardStarts(s, step.w);
    } else if step.Drop? {
      GuardDrops(s, step.w);
    } else {
      GuardsStay(s, step);
    }
    hide Live;
  }

  lemma ReaderCarried(cfg: Config, s: State, s': State, reader: Reader)
    requires Bracketed(s, s') && ReaderSound(cfg, s, reader)
    ensures ReaderSound(cfg, s', reader)
  {
    hide Quiet, Agrees, OneState;
  }

  lemma CachesCarried(cfg: Config, s: State, s': State, cache: map<string, Cached>, partials: map<string, Partial>)
    requires Bracketed(s, s') && CacheSound(cfg, s, cache) && PartialsSound(cfg, s, partials)
    ensures CacheSound(cfg, s', cache) && PartialsSound(cfg, s', partials)
  {
    hide Quiet, Agrees;
  }

  /** What holds of a state's data still holds after a step that keeps the bracket. */
  lemma ReadersCarried(cfg: Config, s: State, s': State, readers: map<nat, Reader>)
    requires Bracketed(s, s')
    requires forall r :: r in readers ==> ReaderSound(cfg, s, readers[r])
    ensures forall r :: r in readers ==> ReaderSound(cfg, s', readers[r])
  {
    forall r | r in readers ensures ReaderSound(cfg, s', readers[r]) {
      ReaderCarried(cfg, s, s', readers[r]);
    }
  }

  lemma WriterStepKept(cfg: Config, s: State, step: Step)
    requires Sound(cfg, s) && IsWriterStep(step) && Enabled(cfg, s, step)
    ensures Sound(cfg, AfterWriter(s, step))
  {
    var s' := AfterWriter(s, step);
    assert s'.cache == s.cache && s'.partials == s.partials && s'.readers == s.readers;
    WriterStepIsBracketed(s, step);
    WritersKept(cfg, s, step);
    hide *;
    CachesCarried(cfg, s, s', s.cache, s.partials);
    ReadersCarried(cfg, s, s', s.readers);
  }

  // ----- Reader steps -----

  lemma AllowedGrows(cfg: Config, key: string, store: Graphs, nodes: set<string>, node: string)
    requires node in store
    ensures AllowedIn(cfg, key, store, nodes + {node}) == AllowedIn(cfg, key, store, nodes) + cfg.decide(key, store[node])
  {
  }

  /** The list a build starts from, moves through and ends with. */
  lemma BuildStepSound(cfg: Config, s: State, step: Step)
    requires PartialsSound(cfg, s, s.partials) && ReadersSound(cfg, s) && Enabled(cfg, s, step)
    requires step.TakePartial? || step.Decide? || step.FinishBuild?
    ensures ReaderSound(cfg, s, ReaderAfter(cfg, s, step))
  {
    hide Quiet;
    var reader := s.readers[step.r];
    assert ReaderSound(cfg, s, reader);
    if step.Decide? && Quiet(s, reader.before) {
      AllowedGrows(cfg, reader.key, s.store, reader.done, step.node);
    }
  }

  lemma FinishSound(cfg: Config, s: State, r: nat)
    requires Sound(cfg, s) && Enabled(cfg, s, Finish(r))
    ensures ReaderSound(cfg, s, ReaderAfter(cfg, s, Finish(r)))
  {
    var reader := s.readers[r];
    assert ReaderSound(cfg, s, reader);
    if s.counter == reader.before && cfg.strict {
      StrictEvenIsQuiet(cfg, s);
    }
  }

  /** With turns that last until the guard drops, at most one guard is alive,
      so an even counter means none is. */
  lemma StrictEvenIsQuiet(cfg: Config, s: State)
    requires cfg.strict && WritersSound(cfg, s) && s.counter % 2 == 0
    ensures Live(s) == {}
  {
    var holder := match s.lock case Some(w) => w case None => 0;
    assert Live(s) <= {holder};
    assert Live(s) == {} || Live(s) == {holder};
  }

  lemma OtherStepSound(cfg: Config, s: State, step: Step)
    requires CacheSound(cfg, s, s.cache) && Enabled(cfg, s, step) && !IsWriterStep(step)
    requires step.r in s.readers ==> ReaderSound(cfg, s, s.readers[step.r])
    requires !(step.TakePartial? || step.Decide? || step.FinishBuild? || step.Finish?)
    ensures ReaderSound(cfg, s, ReaderAfter(cfg, s, step))
  {
    hide Quiet, Agrees, AllowedIn, Live, Kept;
  }

  lemma EvictedBound<T>(m: map<string, T>, evict: set<string>, key: string, value: T)
    requires |Kept(m, evict, key).Keys| < CACHE_ENTRIES
    ensures |Kept(m, evict, key)[key := value].Keys| <= CACHE_ENTRIES
  {
    assert Kept(m, evict, key)[key := value].Keys == Kept(m, evict, key).Keys + {key};
  }

  lemma CacheInsert(cfg: Config, s: State, evict: set<string>, key: string, e: Cached)
    requires CacheSound(cfg, s, s.cache) && |Kept(s.cache, evict, key).Keys| < CACHE_ENTRIES
    requires e.tag <= s.counter && e.tag % 2 == 0 && (Quiet(s, e.tag) ==> Agrees(cfg, s.store, key, s.store.Keys, e.visible))
    ensures CacheSound(cfg, s, Kept(s.cache, evict, key)[key := e])
  {
    hide Quiet, Agrees;
    EvictedBound(s.cache, evict, key, e);
  }

  lemma PartialInsert(cfg: Config, s: State, evict: set<string>, key: string, e: Partial)
    requires PartialsSound(cfg, s, s.partials) && |Kept(s.partials, evict, key).Keys| < CACHE_ENTRIES
    requires e.tag <= s.counter && e.tag % 2 == 0 && (Quiet(s, e.tag) ==> Agrees(cfg, s.store, key, e.done, e.visible))
    ensures PartialsSound(cfg, s, Kept(s.partials, evict, key)[key := e])
  {
    hide Quiet, Agrees;
    EvictedBound(s.partials, evict, key, e);
  }

  lemma CacheKept(cfg: Config, s: State, step: Step)
    requires CacheSound(cfg, s, s.cache) && ReadersSound(cfg, s) && Enabled(cfg, s, step)
    ensures CacheSound(cfg, s, CacheAfter(cfg, s, step))
  {
    hide Quiet, Agrees, CacheSound, Kept, Live;
    if step.Remember? {
      var Remembering(key, left, before, visible) := s.readers[step.r];
      assert ReaderSound(cfg, s, s.readers[step.r]);
      CacheInsert(cfg, s, step.evict, key, Cached(before, visible));
    }
  }

  lemma PartialRemove(cfg: Config, s: State, key: string)
    requires PartialsSound(cfg, s, s.partials)
    ensures PartialsSound(cfg, s, s.partials - {key})
  {
    hide Quiet, Agrees;
    SubsetBound((s.partials - {key}).Keys, s.partials.Keys);
  }

  lemma PartialsKept(cfg: Config, s: State, step: Step)
    requires PartialsSound(cfg, s, s.partials) && ReadersSound(cfg, s) && Enabled(cfg, s, step)
    ensures PartialsSound(cfg, s, PartialsAfter(cfg, s, step))
  {
    hide Quiet, Agrees, PartialsSound;
    if step.KeepPartial? {
      var Deciding(key, left, before, snapshot, done, visible) := s.readers[step.r];
      assert ReaderSound(cfg, s, s.readers[step.r]);
      PartialInsert(cfg, s, step.evict, key, Partial(before, done, visible));
    } else if step.TakePartial? {
      PartialRemove(cfg, s, s.readers[step.r].key);
    }
  }

  lemma {:induction false} SubsetBound(a: set<string>, b: set<string>)
    requires a <= b
    ensures |a| <= |b|
  {
    if a != {} {
      var x :| x in a;
      SubsetBound(a - {x}, b - {x});
    }
  }

  lemma NewReaderSound(cfg: Config, s: State, step: Step)
    requires Sound(cfg, s) && Enabled(cfg, s, step) && !IsWriterStep(step)
    ensures ReaderSound(cfg, s, ReaderAfter(cfg, s, step))
  {
    hide ReaderSound, ReaderAfter, Enabled, WritersSound, CacheSound, PartialsSound;
    if step.TakePartial? || step.Decide? || step.FinishBuild? {
      BuildStepSound(cfg, s, step);
    } else if step.Finish? {
      FinishSound(cfg, s, step.r);
    } else {
      OtherStepSound(cfg, s, step);
    }
  }

  /** A reader step leaves the store, the counter and the writers alone. */
  lemma ReaderStepKept(cfg: Config, s: State, step: Step)
    requires Sound(cfg, s) && Enabled(cfg, s, step) && !IsWriterStep(step)
    ensures Sound(cfg, After(cfg, s, step))
  {
    var s' := After(cfg, s, step);
    NewReaderSound(cfg, s, step);
    CacheKept(cfg, s, step);
    PartialsKept(cfg, s, step);
    assert s'.store == s.store && s'.counter == s.counter && Live(s') == Live(s);
    assert WritersSound(cfg, s');
    assert Bracketed(s, s');
    hide ReaderAfter, CacheAfter, PartialsAfter, Enabled, Bracketed, ReaderSound, CacheSound, PartialsSound, WritersSound;
    CachesCarried(cfg, s, s', s'.cache, s'.partials);
    ReadersCarried(cfg, s, s', s'.readers);
  }

  /** Every step of every writer and reader keeps the protocol sound. */
  lemma StepKept(cfg: Config, s: State, step: Step)
    requires Sound(cfg, s) && Enabled(cfg, s, step)
    ensures Sound(cfg, After(cfg, s, step))
  {
    hide Sound;
    if IsWriterStep(step) {
      WriterStepKept(cfg, s, step);
    } else {
      ReaderStepKept(cfg, s, step);
    }
  }

  /** In every run: the counter, the caches and every reader's data. */
  lemma {:induction false} RunsAreSound(cfg: Config, steps: seq<Step>)
    requires StateAfter(cfg, steps).Some?
    ensures Sound(cfg, StateAfter(cfg, steps).value)
  {
    if steps == [] {
      assert Live(INITIAL) == {};
    } else {
      var before := steps[..|steps| - 1];
      RunsAreSound(cfg, before);
      StepKept(cfg, StateAfter(cfg, before).value, steps[|steps| - 1]);
    }
  }

  // ----- What a run guarantees -----

  /** The counter is always twice the finished writes plus the live guards. */
  lemma CounterCountsGuards(cfg: Config, steps: seq<Step>)
    requires StateAfter(cfg, steps).Some?
    ensures var s := StateAfter(cfg, steps).value; s.counter == 2 * s.finished + |Live(s)|
    ensures var s := StateAfter(cfg, steps).value; forall w :: w in s.writers && s.writers[w] == Writing ==> s.lock == Some(w)
  {
    hide After, Enabled;
    RunsAreSound(cfg, steps);
  }

  /** A store state committed at some point of the run. */
  ghost predicate Committed(cfg: Config, steps: seq<Step>, store: Graphs) {
    exists n :: 0 <= n <= |steps| && StateAfter(cfg, steps[..n]).Some? && StateAfter(cfg, steps[..n]).value.store == store
  }

  lemma {:induction false} ReturnedAsOfCommitted(cfg: Config, steps: seq<Step>, r: nat)
    requires StateAfter(cfg, steps).Some? && r in StateAfter(cfg, steps).value.readers
    requires StateAfter(cfg, steps).value.readers[r].Returned?
    ensures Committed(cfg, steps, StateAfter(cfg, steps).value.readers[r].asOf)
  {
    hide CacheAfter, PartialsAfter, Live, Kept, AllowedIn;
    if steps != [] {
      var before := steps[..|steps| - 1];
      var s, s' := StateAfter(cfg, before).value, StateAfter(cfg, steps).value;
      if r in s.readers && s.readers[r] == s'.readers[r] {
        ReturnedAsOfCommitted(cfg, before, r);
        var n :| 0 <= n <= |before| && StateAfter(cfg, before[..n]).Some? && StateAfter(cfg, before[..n]).value.store == s'.readers[r].asOf;
        assert before[..n] == steps[..n];
      } else {
        assert steps[..|steps| - 1] == before;
        assert steps[|steps| - 1].Finish? && s'.readers[r].asOf == s.store;
      }
    }
  }

  /** When a writer's turn lasts until its guard drops, every result that is
      returned used one committed state for its allow-list, wherever that came
      from, and for all its lookups. Without that, the same holds of a result
      returned while no guard was alive. */
  lemma ResultsUseOneState(cfg: Config, steps: seq<Step>, r: nat)
    requires StateAfter(cfg, steps).Some? && r in StateAfter(cfg, steps).value.readers
    requires StateAfter(cfg, steps).value.readers[r].Returned?
    requires cfg.strict || StateAfter(cfg, steps).value.readers[r].quiet
    ensures OneState(cfg, StateAfter(cfg, steps).value.readers[r])
    ensures Committed(cfg, steps, StateAfter(cfg, steps).value.readers[r].asOf)
  {
    hide StateAfter, Committed, OneState;
    var s := StateAfter(cfg, steps).value;
    RunsAreSound(cfg, steps);
    assert ReaderSound(cfg, s, s.readers[r]);
    ReturnedAsOfCommitted(cfg, steps, r);
  }

  lemma GuardlessStep(cfg: Config, s: State, step: Step)
    requires Enabled(cfg, s, step) && Live(s) == {} && After(cfg, s, step).counter == s.counter
    ensures !step.Commit? && After(cfg, s, step).store == s.store && Live(After(cfg, s, step)) == {}
  {
    hide CacheAfter, PartialsAfter, ReaderAfter, AllowedIn;
    assert forall w :: w in s.writers && s.writers[w] == Writing ==> w in Live(s);
    if step.Start? || step.ReleaseEarly? || step.Release? {
      GuardsStay(s, step);
    }
  }

  /** Two equal readings of the counter, no guard alive at the first, enclose
      no commit. */
  lemma {:induction false} EqualReadingsEncloseNoCommit(cfg: Config, steps: seq<Step>, n: nat)
    requires StateAfter(cfg, steps).Some? && n <= |steps| && StateAfter(cfg, steps[..n]).Some?
    requires Quiet(StateAfter(cfg, steps[..n]).value, StateAfter(cfg, steps).value.counter)
    ensures StateAfter(cfg, steps).value.store == StateAfter(cfg, steps[..n]).value.store
    ensures Quiet(StateAfter(cfg, steps).value, StateAfter(cfg, steps).value.counter)
    ensures forall i :: n <= i < |steps| ==> !steps[i].Commit?
    decreases |steps|
  {
    hide CacheAfter, PartialsAfter, ReaderAfter, AllowedIn;
    if n < |steps| {
      var before, last := steps[..|steps| - 1], steps[|steps| - 1];
      assert before[..n] == steps[..n];
      CounterNeverFalls(cfg, before, n);
      var s := StateAfter(cfg, before).value;
      assert s.counter <= StateAfter(cfg, steps).value.counter;
      EqualReadingsEncloseNoCommit(cfg, before, n);
      GuardlessStep(cfg, s, last);
    } else {
      assert steps[..n] == steps;
    }
  }

  lemma {:induction false} CounterNeverFalls(cfg: Config, steps: seq<Step>, n: nat)
    requires StateAfter(cfg, steps).Some? && n <= |steps| && StateAfter(cfg, steps[..n]).Some?
    ensures StateAfter(cfg, steps[..n]).value.counter <= StateAfter(cfg, steps).value.counter
    decreases |steps|
  {
    hide CacheAfter, PartialsAfter, ReaderAfter, AllowedIn, Live;
    if n < |steps| {
      assert steps[..|steps| - 1][..n] == steps[..n];
      CounterNeverFalls(cfg, steps[..|steps| - 1], n);
    } else {
      assert steps[..n] == steps;
    }
  }

  /** No writer is between its guard and its commit. */
  predicate NobodyWriting(s: State) {
    forall w :: w in s.writers ==> s.writers[w] != Writing
  }

  lemma NobodyStartsWriting(cfg: Config, s: State, step: Step)
    requires NobodyWriting(s) && Enabled(cfg, s, step) && After(cfg, s, step).counter == s.counter
    ensures !step.Commit? && NobodyWriting(After(cfg, s, step))
  {
    hide CacheAfter, PartialsAfter, ReaderAfter, AllowedIn;
  }

  lemma {:induction false} NoCommitWhileNobodyWrites(cfg: Config, steps: seq<Step>, more: seq<Step>)
    requires StateAfter(cfg, steps).Some? && NobodyWriting(StateAfter(cfg, steps).value)
    requires StateAfter(cfg, steps + more).Some?
    requires StateAfter(cfg, steps + more).value.counter == StateAfter(cfg, steps).value.counter
    ensures forall i :: 0 <= i < |more| ==> !more[i].Commit?
    ensures NobodyWriting(StateAfter(cfg, steps + more).value)
  {
    hide After, Enabled, NobodyWriting;
    if more == [] {
      assert steps + more == steps;
    } else {
      var fewer, last := more[..|more| - 1], more[|more| - 1];
      assert (steps + more)[..|steps + more| - 1] == steps + fewer;
      assert (steps + fewer)[..|steps|] == steps && (steps + more)[..|steps + fewer|] == steps + fewer;
      CounterNeverFalls(cfg, steps + fewer, |steps|);
      CounterNeverFalls(cfg, steps + more, |steps + fewer|);
      NoCommitWhileNobodyWrites(cfg, steps, fewer);
      NobodyStartsWriting(cfg, StateAfter(cfg, steps + fewer).value, last);
    }
  }

  /** Whether `more`, going on from `steps`, commits while the counter ends where it was. */
  ghost predicate CommitsUnseen(cfg: Config, steps: seq<Step>, more: seq<Step>) {
    && StateAfter(cfg, steps).Some? && StateAfter(cfg, steps + more).Some?
    && StateAfter(cfg, steps + more).value.counter == StateAfter(cfg, steps).value.counter
    && exists i :: 0 <= i < |more| && more[i].Commit?
  }

  /** Exactly when an unchanged counter rules a commit out: when it was read, no
      writer was between its guard and its commit. Strict turns and an even
      counter make it so; evenness alone does not. */
  lemma UnchangedCounterRulesOutCommitExactlyWhen(cfg: Config, steps: seq<Step>)
    requires StateAfter(cfg, steps).Some?
    ensures (forall more :: !CommitsUnseen(cfg, steps, more)) <==> NobodyWriting(StateAfter(cfg, steps).value)
    ensures cfg.strict && StateAfter(cfg, steps).value.counter % 2 == 0 ==> NobodyWriting(StateAfter(cfg, steps).value)
  {
    var s := StateAfter(cfg, steps).value;
    if NobodyWriting(s) {
      hide After, Enabled, StateAfter;
      forall more ensures !CommitsUnseen(cfg, steps, more) {
        if CommitsUnseen(cfg, steps, more) {
          NoCommitWhileNobodyWrites(cfg, steps, more);
        }
      }
    } else {
      var w :| w in s.writers && s.writers[w] == Writing;
      assert w in Live(s);
      var step := Commit(w, s.store);
      assert (steps + [step])[..|steps|] == steps;
      assert [step][0].Commit?;
      assert CommitsUnseen(cfg, steps, [step]);
      RunsAreSound(cfg, steps);
      if cfg.strict && s.counter % 2 == 0 {
        StrictEvenIsQuiet(cfg, s);
      }
    }
  }

  /** What every committed state satisfies, every state of the run does. */
  lemma {:induction false} StoresCommittedHold(cfg: Config, steps: seq<Step>, holds: Graphs -> bool)
    requires StateAfter(cfg, steps).Some?
    requires holds(map[]) && forall step :: step in steps && step.Commit? ==> holds(step.next)
    ensures holds(StateAfter(cfg, steps).value.store)
  {
    hide CacheAfter, PartialsAfter, ReaderAfter, AllowedIn, Live;
    if steps != [] {
      assert steps[|steps| - 1] in steps;
      StoresCommittedHold(cfg, steps[..|steps| - 1], holds);
    }
  }

  lemma CommittedHolds(cfg: Config, steps: seq<Step>, store: Graphs, holds: Graphs -> bool)
    requires Committed(cfg, steps, store)
    requires holds(map[]) && forall step :: step in steps && step.Commit? ==> holds(step.next)
    ensures holds(store)
  {
    hide StateAfter;
    var n :| 0 <= n <= |steps| && StateAfter(cfg, steps[..n]).Some? && StateAfter(cfg, steps[..n]).value.store == store;
    StoresCommittedHold(cfg, steps[..n], holds);
  }

  /** A cached list that still matches the counter is what a fresh build would
      give, however builds were cancelled, resumed or raced by writes; so is
      kept progress, for the catalogs it covers. */
  lemma CurrentListsAreFresh(cfg: Config, steps: seq<Step>, key: string)
    requires StateAfter(cfg, steps).Some?
    ensures var s := StateAfter(cfg, steps).value;
            && |s.cache| <= CACHE_ENTRIES && |s.partials| <= CACHE_ENTRIES
            && (key in s.cache && s.cache[key].tag == s.counter && (cfg.strict || Live(s) == {})
                ==> s.cache[key].visible == AllowedIn(cfg, key, s.store, s.store.Keys))
            && (key in s.partials && s.partials[key].tag == s.counter && (cfg.strict || Live(s) == {})
                ==> s.partials[key].done <= s.store.Keys
                    && s.partials[key].visible == AllowedIn(cfg, key, s.store, s.partials[key].done))
  {
    hide StateAfter, AllowedIn, Live;
    var s := StateAfter(cfg, steps).value;
    RunsAreSound(cfg, steps);
    if cfg.strict && s.counter % 2 == 0 {
      StrictEvenIsQuiet(cfg, s);
    }
    assert |s.cache| == |s.cache.Keys| && |s.partials| == |s.partials.Keys|;
  }

  // ----- Without strict turns -----

  const LOOSE := Config(false, (key: string, c: Catalog) => {c.id})

  function CatalogNamed(id: string): (c: Catalog) {
    Catalog(id, "n", None, [], [], map[])
  }

  ghost predicate Leads(s: State, step: Step, s': State) {
    Enabled(LOOSE, s, step) && After(LOOSE, s, step) == s'
  }

  lemma Lead(steps: seq<Step>, s: State, step: Step, s': State) returns (more: seq<Step>)
    requires StateAfter(LOOSE, steps) == Some(s) && Leads(s, step, s')
    ensures StateAfter(LOOSE, more) == Some(s')
  {
    hide Enabled, After;
    more := steps + [step];
    assert more[..|steps|] == steps;
  }

  const OLD_STORE: Graphs := map["n" := CatalogNamed("old")]
  const NEW_STORE: Graphs := map["n" := CatalogNamed("new")]

  /** Both guards alive, and the counter even. */
  const BOTH_ALIVE := State(OLD_STORE, 2, Some(2), map[1 := Wrote, 2 := Writing], 0, map[], map[], map[])

  function Writers(store: Graphs, counter: nat, lock: Option<nat>, writers: map<nat, Writer>): (s: State) {
    State(store, counter, lock, writers, 0, map[], map[], map[])
  }

  lemma FirstWriter() returns (steps: seq<Step>)
    ensures StateAfter(LOOSE, steps) == Some(Writers(OLD_STORE, 1, Some(1), map[1 := Wrote]))
  {
    var s1, s2 := Writers(map[], 0, Some(1), map[1 := Open]), Writers(map[], 1, Some(1), map[1 := Writing]);
    var s3 := Writers(OLD_STORE, 1, Some(1), map[1 := Wrote]);
    steps := [];
    assert StateAfter(LOOSE, steps) == Some(INITIAL);
    hide StateAfter, ReaderAfter, CacheAfter, PartialsAfter, LOOSE, OLD_STORE;
    steps := Lead(steps, INITIAL, Start(1), s1);
    assert s1.writers[1 := Writing] == s2.writers && s2.writers[1 := Wrote] == s3.writers;
    steps := Lead(steps, s1, Begin(1), s2);
    steps := Lead(steps, s2, Commit(1, OLD_STORE), s3);
  }

  /** The second writer starts, and its guard makes the counter even, while the
      first one's guard is still alive. */
  lemma WritersOverlap() returns (steps: seq<Step>)
    ensures StateAfter(LOOSE, steps) == Some(BOTH_ALIVE)
  {
    var s3 := Writers(OLD_STORE, 1, Some(1), map[1 := Wrote]);
    var s4 := Writers(OLD_STORE, 1, None, map[1 := Wrote]);
    var s5 := Writers(OLD_STORE, 1, Some(2), map[1 := Wrote, 2 := Open]);
    steps := FirstWriter();
    hide StateAfter, ReaderAfter, CacheAfter, PartialsAfter, OLD_STORE;
    steps := Lead(steps, s3, ReleaseEarly(1), s4);
    assert s4.writers[2 := Open] == s5.writers && s5.writers[2 := Writing] == BOTH_ALIVE.writers;
    steps := Lead(steps, s4, Start(2), s5);
    steps := Lead(steps, s5, Begin(2), BOTH_ALIVE);
  }

  function Reading(reader: Reader): (s: State) {
    BOTH_ALIVE.(readers := map[0 := reader])
  }

  lemma ReaderLeads(reader: Reader, step: Step, reader': Reader)
    requires step.Choose? || step.Scan? || step.TakePartial? || step.Decide? || step.FinishBuild? || step.CheckBuilt?
    requires step.r == 0 && Enabled(LOOSE, Reading(reader), step) && ReaderAfter(LOOSE, Reading(reader), step) == reader'
    ensures Leads(Reading(reader), step, Reading(reader'))
  {
    hide ReaderAfter, LOOSE, OLD_STORE, Kept;
    assert BOTH_ALIVE.partials - {reader.key} == map[];
    assert map[0 := reader][0 := reader'] == map[0 := reader'];
  }

  /** A reader starts now, takes the even value, and builds its list from the
      store as it is. */
  lemma ListStarted() returns (steps: seq<Step>)
    ensures StateAfter(LOOSE, steps) == Some(Reading(Deciding("k", 4, 2, OLD_STORE, {}, {})))
  {
    steps := WritersOverlap();
    hide StateAfter, LOOSE, OLD_STORE;
    steps := Lead(steps, BOTH_ALIVE, Ask(0, "k"), Reading(Waiting("k", 5)));
    ReaderLeads(Waiting("k", 5), Choose(0), Chosen("k", 4, 2));
    ReaderLeads(Chosen("k", 4, 2), Scan(0), Scanned("k", 4, 2, OLD_STORE));
    ReaderLeads(Scanned("k", 4, 2, OLD_STORE), TakePartial(0, true), Deciding("k", 4, 2, OLD_STORE, {}, {}));
    hide Leads;
    steps := Lead(steps, Reading(Waiting("k", 5)), Choose(0), Reading(Chosen("k", 4, 2)));
    steps := Lead(steps, Reading(Chosen("k", 4, 2)), Scan(0), Reading(Scanned("k", 4, 2, OLD_STORE)));
    steps := Lead(steps, Reading(Scanned("k", 4, 2, OLD_STORE)), TakePartial(0, true), Reading(Deciding("k", 4, 2, OLD_STORE, {}, {})));
  }

  lemma DecideLeads()
    ensures Leads(Reading(Deciding("k", 4, 2, OLD_STORE, {}, {})), Decide(0, "n"), Reading(Deciding("k", 4, 2, OLD_STORE, {"n"}, {"old"})))
  {
    assert {} + LOOSE.decide("k", OLD_STORE["n"]) == {"old"} && {} + {"n"} == {"n"};
    ReaderLeads(Deciding("k", 4, 2, OLD_STORE, {}, {}), Decide(0, "n"), Deciding("k", 4, 2, OLD_STORE, {"n"}, {"old"}));
  }

  lemma BuiltLeads()
    ensures Leads(Reading(Deciding("k", 4, 2, OLD_STORE, {"n"}, {"old"})), FinishBuild(0), Reading(Built("k", 4, 2, {"old"})))
    ensures Leads(Reading(Built("k", 4, 2, {"old"})), CheckBuilt(0), Reading(Remembering("k", 4, 2, {"old"})))
  {
    hide LOOSE;
    ReaderLeads(Deciding("k", 4, 2, OLD_STORE, {"n"}, {"old"}), FinishBuild(0), Built("k", 4, 2, {"old"}));
    ReaderLeads(Built("k", 4, 2, {"old"}), CheckBuilt(0), Remembering("k", 4, 2, {"old"}));
  }

  lemma ListBuilt() returns (steps: seq<Step>)
    ensures StateAfter(LOOSE, steps) == Some(Reading(Remembering("k", 4, 2, {"old"})))
  {
    hide *;
    steps := ListStarted();
    DecideLeads();
    BuiltLeads();
    steps := Lead(steps, Reading(Deciding("k", 4, 2, OLD_STORE, {}, {})), Decide(0, "n"), Reading(Deciding("k", 4, 2, OLD_STORE, {"n"}, {"old"})));
    steps := Lead(steps, Reading(Deciding("k", 4, 2, OLD_STORE, {"n"}, {"old"})), FinishBuild(0), Reading(Built("k", 4, 2, {"old"})));
    steps := Lead(steps, Reading(Built("k", 4, 2, {"old"})), CheckBuilt(0), Reading(Remembering("k", 4, 2, {"old"})));
  }

  /** The reader's list is in the cache from here on. */
  function Listed(store: Graphs, second: Writer, reader: Reader): (s: State) {
    State(store, 2, Some(2), map[1 := Wrote, 2 := second], 0, map["k" := Cached(2, {"old"})], map[], map[0 := reader])
  }

  lemma RememberLeads()
    ensures Leads(Reading(Remembering("k", 4, 2, {"old"})), Remember(0, {}), Listed(OLD_STORE, Writing, Querying("k", 4, 2, {"old"}, [])))
  {
    var s, s' := Reading(Remembering("k", 4, 2, {"old"})), Listed(OLD_STORE, Writing, Querying("k", 4, 2, {"old"}, []));
    assert Kept(s.cache, {}, "k") == map[];
    hide Kept, OLD_STORE, LOOSE;
    assert s.readers[0 := s'.readers[0]] == s'.readers;
  }

  lemma LookLeads(store: Graphs, second: Writer, looked: seq<Graphs>)
    ensures Leads(Listed(store, second, Querying("k", 4, 2, {"old"}, looked)), Look(0),
                  Listed(store, second, Querying("k", 4, 2, {"old"}, looked + [store])))
  {
    var s, s' := Listed(store, second, Querying("k", 4, 2, {"old"}, looked)), Listed(store, second, Querying("k", 4, 2, {"old"}, looked + [store]));
    hide LOOSE;
    assert s.readers[0 := s'.readers[0]] == s'.readers;
  }

  lemma CommitLeads(store: Graphs, next: Graphs, reader: Reader)
    ensures Leads(Listed(store, Writing, reader), Commit(2, next), Listed(next, Wrote, reader))
  {
    hide LOOSE;
    assert map[1 := Wrote, 2 := Writing][2 := Wrote] == map[1 := Wrote, 2 := Wrote];
  }

  lemma FinishLeads(store: Graphs, looked: seq<Graphs>)
    ensures Leads(Listed(store, Wrote, Querying("k", 4, 2, {"old"}, looked)), Finish(0),
                  Listed(store, Wrote, Returned("k", {"old"}, looked, store, false)))
  {
    var s := Listed(store, Wrote, Querying("k", 4, 2, {"old"}, looked));
    var s' := Listed(store, Wrote, Returned("k", {"old"}, looked, store, false));
    assert 1 in Live(s);
    hide LOOSE, Live;
    assert s.readers[0 := s'.readers[0]] == s'.readers;
  }

  lemma MixedResult() returns (steps: seq<Step>)
    ensures StateAfter(LOOSE, steps) ==
            Some(Listed(NEW_STORE, Wrote, Returned("k", {"old"}, [OLD_STORE, NEW_STORE], NEW_STORE, false)))
  {
    hide *;
    steps := ListBuilt();
    RememberLeads();
    LookLeads(OLD_STORE, Writing, []);
    CommitLeads(OLD_STORE, NEW_STORE, Querying("k", 4, 2, {"old"}, [OLD_STORE]));
    LookLeads(NEW_STORE, Wrote, [OLD_STORE]);
    FinishLeads(NEW_STORE, [OLD_STORE, NEW_STORE]);
    assert [] + [OLD_STORE] == [OLD_STORE] && [OLD_STORE] + [NEW_STORE] == [OLD_STORE, NEW_STORE];
    steps := Lead(steps, Reading(Remembering("k", 4, 2, {"old"})), Remember(0, {}), Listed(OLD_STORE, Writing, Querying("k", 4, 2, {"old"}, [])));
    steps := Lead(steps, Listed(OLD_STORE, Writing, Querying("k", 4, 2, {"old"}, [])), Look(0),
                  Listed(OLD_STORE, Writing, Querying("k", 4, 2, {"old"}, [OLD_STORE])));
    steps := Lead(steps, Listed(OLD_STORE, Writing, Querying("k", 4, 2, {"old"}, [OLD_STORE])), Commit(2, NEW_STORE),
                  Listed(NEW_STORE, Wrote, Querying("k", 4, 2, {"old"}, [OLD_STORE])));
    steps := Lead(steps, Listed(NEW_STORE, Wrote, Querying("k", 4, 2, {"old"}, [OLD_STORE])), Look(0),
                  Listed(NEW_STORE, Wrote, Querying("k", 4, 2, {"old"}, [OLD_STORE, NEW_STORE])));
    steps := Lead(steps, Listed(NEW_STORE, Wrote, Querying("k", 4, 2, {"old"}, [OLD_STORE, NEW_STORE])), Finish(0),
                  Listed(NEW_STORE, Wrote, Returned("k", {"old"}, [OLD_STORE, NEW_STORE], NEW_STORE, false)));
  }

  /** Without strict turns an even counter promises nothing: in this run the
      same even value brackets the whole query, and the result still mixes two
      states; the list left in the cache is stale as well. */
  lemma EvenCounterIsNotEnough() returns (steps: seq<Step>)
    ensures StateAfter(LOOSE, steps).Some?
    ensures var s := StateAfter(LOOSE, steps).value;
            && s.counter == 2
            && 0 in s.readers && s.readers[0].Returned? && s.readers[0].looked == [OLD_STORE, NEW_STORE]
            && !OneState(LOOSE, s.readers[0])
            && "k" in s.cache && s.cache["k"].tag == s.counter
            && s.cache["k"].visible != AllowedIn(LOOSE, "k", s.store, s.store.Keys)
  {
    steps := MixedResult();
    assert "old" !in AllowedIn(LOOSE, "k", NEW_STORE, NEW_STORE.Keys) by {
      assert LOOSE.decide("k", NEW_STORE["n"]) == {"new"};
    }
    hide StateAfter, AllowedIn, LOOSE;
  }
}

