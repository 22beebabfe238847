/** Re-spelling a whole response: any number of changes to how the ODRL keys are
    spelled and what they say is held, at any depth of any dataset, leave the
    parsed catalog as it is (`aliased_all`, `one_or_many`, `json_ld_scalar`,
    `crawler/lib.rs`). */
module Respelling {
  import opened Text
  import opened CatalogCore
  import opened Parser
  import opened Response
  import opened SpellingIndependence

  /** How the entries of a key may be held. */
  datatype Shape = InList | InSet | InArray | Unwrapped

  /** How a scalar may be written. */
  datatype Writing = InOneArray | AsValue | AsNode | Bare

  /** One change to a node: spelling `i` of key `n` becomes spelling `j`; the
      array at `p` is divided over `i` and `j`, or theirs are joined at `p`; the
      entries at `q` are held in another shape, or the scalar there is written
      another way; one entry at `q` is changed. */
  datatype Edit =
    | Move(n: string, i: nat, j: nat)
    | Divide(n: string, p: nat, i: nat, j: nat, at: nat)
    | Join(n: string, p: nat, i: nat, j: nat)
    | Reshape(n: string, q: nat, shape: Shape)
    | Rewrite(n: string, q: nat, writing: Writing)
    | Inside(n: string, q: nat, entry: nat, edit: Edit)

  predicate HoldsArray(f: map<string, Json>, key: string) {
    key in f && f[key].Arr?
  }

  /** The key is one of ODRL's, what is changed is there, and no other spelling
      of the key is in the way. */
  predicate Applies(e: Edit, f: map<string, Json>) {
    match e
    case Move(n, i, j) =>
      n in ODRL_KEYS && i < 3 && j < 3 && Spelled(n, i) in f && Free(f, n, Min(i, j), Max(i, j), {i})
    case Divide(n, p, i, j, at) =>
      && n in LIST_KEYS && p < 3 && i < j < 3 && HoldsArray(f, Spelled(n, p)) && at <= |f[Spelled(n, p)].items|
      && Free(f, n, Min(p, i), Max(p, j), {p})
    case Join(n, p, i, j) =>
      && n in LIST_KEYS && p < 3 && i < j < 3 && HoldsArray(f, Spelled(n, i)) && HoldsArray(f, Spelled(n, j))
      && Free(f, n, Min(p, i), Max(p, j), {i, j})
    case Reshape(n, q, _) =>
      n in LIST_KEYS && q < 3 && Spelled(n, q) in f
    case Rewrite(n, q, _) =>
      n in SCALAR_KEYS && q < 3 && Spelled(n, q) in f
    case Inside(n, q, entry, _) =>
      n in LIST_KEYS && q < 3 && Spelled(n, q) in f && entry < |OneOrMany(f[Spelled(n, q)])|
  }

  function Joint(f: map<string, Json>, n: string, p: nat, i: nat, j: nat): (g: map<string, Json>)
    requires p < 3 && i < j < 3 && HoldsArray(f, Spelled(n, i)) && HoldsArray(f, Spelled(n, j))
  {
    (f - {Spelled(n, i), Spelled(n, j)})[Spelled(n, p) := Arr(f[Spelled(n, i)].items + f[Spelled(n, j)].items)]
  }

  predicate Wraps(v: Json, key: string) {
    v.Obj? && |v.fields| == 1 && key in v.fields
  }

  /** `v` with its entries held as `shape` says, where it can hold them so. */
  function Reshaped(v: Json, shape: Shape): (r: Json) {
    match shape
    case InList => Obj(map["@list" := v])
    case InSet => Obj(map["@set" := v])
    case InArray => if OneOrMany(v) == [v] then Arr([v]) else v
    case Unwrapped =>
      if Wraps(v, "@list") then v.fields["@list"]
      else if Wraps(v, "@set") then v.fields["@set"]
      else if v.Arr? && |v.items| == 1 && OneOrMany(v.items[0]) == v.items then v.items[0]
      else v
  }

  predicate IsPrimitive(v: Json) {
    v.Str? || v.Number? || v.Bool?
  }

  /** `v` written as `writing` says, where it can be. */
  function Rewritten(v: Json, writing: Writing): (r: Json) {
    match writing
    case InOneArray => Arr([v])
    case AsValue => if IsPrimitive(v) then Obj(map["@value" := v]) else v
    case AsNode => if v.Str? then Obj(map["@id" := v]) else v
    case Bare =>
      if v.Arr? && |v.items| == 1 then v.items[0]
      else if v.Obj? && "@value" in v.fields && IsPrimitive(v.fields["@value"]) then v.fields["@value"]
      else if v.Obj? && v.fields.Keys == {"@id"} && v.fields["@id"].Str? then v.fields["@id"]
      else v
  }

  /** `v` with `x` in place of its entry `i`, held as before. */
  function WithEntry(v: Json, i: nat, x: Json): (r: Json)
    requires i < |OneOrMany(v)|
  {
    if v.Arr? then Arr(v.items[i := x])
    else if Wraps(v, "@list") then Obj(v.fields["@list" := WithEntry(v.fields["@list"], i, x)])
    else if Wraps(v, "@set") then Obj(v.fields["@set" := WithEntry(v.fields["@set"], i, x)])
    else x
  }

  /** A change that does not apply leaves the node as it is. */
  function Respell(e: Edit, v: Json): (r: Json)
    decreases e
  {
    if !v.Obj? || !Applies(e, v.fields) then v
    else
      var f := v.fields;
      match e
      case Move(n, i, j) => Obj(Moved(f, n, i, j))
      case Divide(n, p, i, j, at) =>
        var items := f[Spelled(n, p)].items;
        Obj(Split(f, n, p, i, j, items[..at], items[at..]))
      case Join(n, p, i, j) => Obj(Joint(f, n, p, i, j))
      case Reshape(n, q, shape) => Obj(f[Spelled(n, q) := Reshaped(f[Spelled(n, q)], shape)])
      case Rewrite(n, q, writing) => Obj(f[Spelled(n, q) := Rewritten(f[Spelled(n, q)], writing)])
      case Inside(n, q, entry, inner) =>
        var value := f[Spelled(n, q)];
        Obj(f[Spelled(n, q) := WithEntry(value, entry, Respell(inner, OneOrMany(value)[entry]))])
  }

  /** How many nodes deep the change is. */
  function Levels(e: Edit): (levels: nat) {
    match e
    case Inside(_, _, _, inner) => Levels(inner) + 1
    case _ => 1
  }

  // ----- Entries and scalars stay what they are -----

  lemma RewrittenScalar(v: Json, writing: Writing)
    ensures JsonLdScalar(Rewritten(v, writing)) == JsonLdScalar(v)
  {
    assert |"@value"| == 6 && |"@id"| == 3;
    if v.Obj? && v.fields.Keys == {"@id"} {
      assert "@value" !in v.fields;
    }
  }

  lemma ReshapedEntries(v: Json, shape: Shape)
    ensures OneOrMany(Reshaped(v, shape)) == OneOrMany(v)
  {
    assert |map["@list" := v]| == 1 && |map["@set" := v]| == 1;
    assert |"@list"| == 5 && |"@set"| == 4;
    if Wraps(v, "@set") {
      OneKey(v.fields, "@set");
    }
  }

  lemma {:induction false} EntryReplaced(v: Json, i: nat, x: Json)
    requires i < |OneOrMany(v)|
    requires OneOrMany(OneOrMany(v)[i]) == [OneOrMany(v)[i]] ==> OneOrMany(x) == [x]
    ensures OneOrMany(WithEntry(v, i, x)) == OneOrMany(v)[i := x]
    decreases v
  {
    if v.Arr? {
    } else if Wraps(v, "@list") {
      EntryReplaced(v.fields["@list"], i, x);
      assert v.fields["@list" := WithEntry(v.fields["@list"], i, x)].Keys == v.fields.Keys;
    } else if Wraps(v, "@set") {
      EntryReplaced(v.fields["@set"], i, x);
      assert v.fields["@set" := WithEntry(v.fields["@set"], i, x)].Keys == v.fields.Keys;
    }
  }

  lemma NodeIsOneEntry(f: map<string, Json>, n: string, q: nat)
    requires n in ODRL_KEYS && q < 3 && Spelled(n, q) in f
    ensures OneOrMany(Obj(f)) == [Obj(f)]
  {
    KeysArePlain();
    assert ODRL_NS[0] == 'h' && "@list"[0] == '@' == "@set"[0];
    assert Spelled(n, q) != "" && Spelled(n, q)[0] == '@' ==> '@' in n;
    hide Spelled, ODRL_KEYS, ODRL_NS;
    if |f| == 1 {
      assert forall key :: key in f ==> key == Spelled(n, q) by {
        OneKey(f, Spelled(n, q));
      }
    }
  }

  lemma OneKey(f: map<string, Json>, k: string)
    requires |f| == 1 && k in f
    ensures forall key :: key in f ==> key == k
  {
    assert |f.Keys - {k}| == |f.Keys| - 1 == 0;
    assert forall key :: key in f ==> key in f.Keys - {k} || key == k;
  }

  // ----- One change reads the same -----

  lemma JointReadsTheSame(f: map<string, Json>, n: string, p: nat, i: nat, j: nat)
    requires Applies(Join(n, p, i, j), f)
    ensures SameReading(Obj(f), Obj(Joint(f, n, p, i, j)), 1)
  {
    var xs, ys := f[Spelled(n, i)].items, f[Spelled(n, j)].items;
    var g := Joint(f, n, p, i, j);
    SpelledApart(n);
    hide Spelled, LIST_KEYS, SameReading;
    assert Split(g, n, p, i, j, xs, ys) == f;
    SplitListReadsTheSame(g, n, p, i, j, xs, ys);
  }

  lemma DividedReadsTheSame(f: map<string, Json>, n: string, p: nat, i: nat, j: nat, at: nat)
    requires Applies(Divide(n, p, i, j, at), f)
    ensures SameReading(Obj(f), Respell(Divide(n, p, i, j, at), Obj(f)), 1)
  {
    var items := f[Spelled(n, p)].items;
    assert items == items[..at] + items[at..];
    hide Spelled, LIST_KEYS, SameReading, Split;
    SplitListReadsTheSame(f, n, p, i, j, items[..at], items[at..]);
  }

  /** A changed node still holds the key it was changed at. */
  lemma HoldsItsKey(e: Edit, f: map<string, Json>)
    requires Applies(e, f)
    ensures e.n in ODRL_KEYS && Respell(e, Obj(f)).Obj?
    ensures exists q :: 0 <= q < 3 && Spelled(e.n, q) in f
    ensures exists q :: 0 <= q < 3 && Spelled(e.n, q) in Respell(e, Obj(f)).fields
  {
    hide Spelled, Reshaped, Rewritten, WithEntry, LIST_KEYS, SCALAR_KEYS, MARKED_KEYS;
    match e {
      case Move(n, i, j) => assert Spelled(n, j) in Moved(f, n, i, j);
      case Divide(n, p, i, j, at) => assert Spelled(n, j) in Respell(e, Obj(f)).fields;
      case Join(n, p, i, j) => assert Spelled(n, p) in Joint(f, n, p, i, j);
      case Reshape(n, q, _) => assert Spelled(n, q) in Respell(e, Obj(f)).fields;
      case Rewrite(n, q, _) => assert Spelled(n, q) in Respell(e, Obj(f)).fields;
      case Inside(n, q, _, _) => assert Spelled(n, q) in Respell(e, Obj(f)).fields;
    }
  }

  lemma StaysOneEntry(e: Edit, v: Json)
    ensures OneOrMany(v) == [v] ==> OneOrMany(Respell(e, v)) == [Respell(e, v)]
  {
    if v.Obj? && Applies(e, v.fields) {
      HoldsItsKey(e, v.fields);
      var g := Respell(e, v).fields;
      var q: nat :| q < 3 && Spelled(e.n, q) in g;
      NodeIsOneEntry(g, e.n, q);
    }
  }

  /** Whatever the change and wherever it is, the node reads the same. */
  lemma {:induction false} ChangeReadsTheSame(e: Edit, v: Json)
    ensures SameReading(v, Respell(e, v), Levels(e))
    decreases e
  {
    hide SameReading, LIST_KEYS, SCALAR_KEYS, MARKED_KEYS, Spelled, Free, Moved, Split, Joint, Reshaped, Rewritten, WithEntry, JsonLdScalar;
    if !v.Obj? || !Applies(e, v.fields) {
      ReadsAsItself(v, Levels(e));
    } else {
      var f := v.fields;
      match e {
        case Move(n, i, j) => MovedKeyReadsTheSame(f, n, i, j);
        case Divide(n, p, i, j, at) => DividedReadsTheSame(f, n, p, i, j, at);
        case Join(n, p, i, j) => JointReadsTheSame(f, n, p, i, j);
        case Reshape(n, q, shape) =>
          var value := f[Spelled(n, q)];
          ReshapedEntries(value, shape);
          EntriesAreThemselves(OneOrMany(value), 0);
          NestedChangesReadTheSame(f, n, q, Reshaped(value, shape), 0);
        case Rewrite(n, q, writing) =>
          RewrittenScalar(f[Spelled(n, q)], writing);
          RewrittenScalarReadsTheSame(f, n, q, Rewritten(f[Spelled(n, q)], writing));
        case Inside(n, q, entry, inner) =>
          var value := f[Spelled(n, q)];
          var before := OneOrMany(value);
          var x := Respell(inner, before[entry]);
          ChangeReadsTheSame(inner, before[entry]);
          StaysOneEntry(inner, before[entry]);
          EntryReplaced(value, entry, x);
          OneEntryChanged(before, entry, x, Levels(inner));
          NestedChangesReadTheSame(f, n, q, WithEntry(value, entry, x), Levels(inner));
      }
    }
  }

  lemma ReadsAsItself(v: Json, levels: nat)
    ensures SameReading(v, v, levels)
  {
  }

  lemma OneEntryChanged(entries: seq<Json>, i: nat, x: Json, levels: nat)
    requires i < |entries| && SameReading(entries[i], x, levels)
    ensures SameEntries(entries, entries[i := x], levels)
  {
    EntriesAreThemselves(entries, levels);
    hide SameReading;
  }

  /** A change leaves every key alone that does not spell one of ODRL's. */
  lemma OthersStay(e: Edit, v: Json, key: string)
    requires forall n :: n in ODRL_KEYS ==> key !in Spellings(n)
    ensures Get(Respell(e, v), key) == Get(v, key)
  {
    if v.Obj? && Applies(e, v.fields) {
      SpelledApart(e.n);
      HoldsItsKey(e, v.fields);
      hide Spelled, Spellings, Free, LIST_KEYS, SCALAR_KEYS, MARKED_KEYS, Reshaped, Rewritten, WithEntry, OneOrMany;
    }
  }

  // ----- The keys of a dataset that are not ODRL's -----

  /** Begins as the names of ODRL's keys do. */
  predicate LikeOdrl(n: string) {
    n != "" && (n[0] in "lorapxh" || (n[0] == 'c' && |n| == 10) || (n[0] == 't' && |n| == 6) || (n[0] == 'd' && |n| == 4))
  }

  lemma OdrlKeysAreLikeOdrl()
    ensures forall n :: n in ODRL_KEYS ==> LikeOdrl(n)
  {
    assert |"target"| == 6 && |"duty"| == 4 && |"constraint"| == 10;
    assert "leftOperand"[0] == 'l' && "operator"[0] == 'o' && "rightOperand"[0] == 'r' && "action"[0] == 'a' && "assigner"[0] == 'a'
           && "assignee"[0] == 'a' && "permission"[0] == 'p' && "prohibition"[0] == 'p' && "obligation"[0] == 'o' && "constraint"[0] == 'c'
           && "xone"[0] == 'x' && "or"[0] == 'o' && "and"[0] == 'a' && "andSequence"[0] == 'a' && "hasPolicy"[0] == 'h'
           && "target"[0] == 't' && "duty"[0] == 'd';
    assert forall n :: n in ODRL_KEYS ==> n in SCALAR_KEYS || n in LIST_KEYS || n in MARKED_KEYS;
  }

  lemma PlainKeyIsNoSpelling(key: string)
    requires ':' !in key && key !in ODRL_KEYS
    ensures forall n :: n in ODRL_KEYS ==> key !in Spellings(n)
  {
    hide ODRL_KEYS;
    assert ODRL_NS[4] == ':' && |ODRL_NS| > 5;
    forall n | n in ODRL_KEYS ensures key !in Spellings(n) {
      assert ("odrl:" + n)[4] == ':' && (ODRL_NS + n)[4] == ':';
      assert ':' in "odrl:" + n && ':' in ODRL_NS + n;
    }
  }

  const DATASET_KEYS: seq<string> := ["@id", "id", "distribution"]

  predicate NoneLikeOdrl(keys: seq<string>) {
    keys == [] || (!LikeOdrl(keys[0]) && ':' !in keys[0] && NoneLikeOdrl(keys[1..]))
  }

  lemma {:induction false} EachUnlikeOdrl(keys: seq<string>)
    requires NoneLikeOdrl(keys)
    ensures forall key :: key in keys ==> !LikeOdrl(key) && ':' !in key
  {
    hide LikeOdrl;
    if keys != [] {
      EachUnlikeOdrl(keys[1..]);
    }
  }

  lemma DescriptorsAreUnlikeOdrl()
    ensures NoneLikeOdrl(DESCRIPTOR_KEYS)
  {
  }

  lemma DatasetKeysAreUnlikeOdrl()
    ensures NoneLikeOdrl(DATASET_KEYS)
  {
  }

  /** So no change reaches what a dataset says besides its policies. */
  lemma DatasetKeysStay(e: Edit, v: Json)
    ensures forall key :: key in DATASET_KEYS || key in DESCRIPTOR_KEYS ==> Get(Respell(e, v), key) == Get(v, key)
  {
    hide *;
    OdrlKeysAreLikeOdrl();
    DescriptorsAreUnlikeOdrl();
    DatasetKeysAreUnlikeOdrl();
    EachUnlikeOdrl(DESCRIPTOR_KEYS);
    EachUnlikeOdrl(DATASET_KEYS);
    forall key | key in DATASET_KEYS || key in DESCRIPTOR_KEYS ensures Get(Respell(e, v), key) == Get(v, key) {
      PlainKeyIsNoSpelling(key);
      OthersStay(e, v, key);
    }
  }

  // ----- Datasets and responses -----

  function ErasedDataset(d: Dataset): (r: Dataset) {
    d.(policies := ErasedPolicies(d.policies))
  }

  function ErasedDatasets(ds: seq<Dataset>): (r: seq<Dataset>) {
    seq(|ds|, i requires 0 <= i < |ds| => ErasedDataset(ds[i]))
  }

  /** A catalog apart from the raw text its markers keep. */
  function ErasedCatalog(c: Catalog): (r: Catalog) {
    c.(datasets := ErasedDatasets(c.datasets))
  }

  /** Two entries that are collected alike. */
  ghost predicate SameEntry(render: Json -> string, a: Entry, b: Entry) {
    a == b
    || (a.DatasetEntry? && b.DatasetEntry? && IdOf(a.v) == IdOf(b.v)
        && GetItems(a.v, "distribution") == GetItems(b.v, "distribution")
        && forall id :: ErasedDataset(DatasetOf(render, a.v, id)) == ErasedDataset(DatasetOf(render, b.v, id)))
  }

  ghost predicate SameFlat(render: Json -> string, a: seq<Entry>, b: seq<Entry>) {
    |a| == |b| && forall i :: 0 <= i < |a| ==> SameEntry(render, a[i], b[i])
  }

  lemma SameDescription(v: Json, w: Json)
    requires forall key :: key in DATASET_KEYS || key in DESCRIPTOR_KEYS ==> Get(w, key) == Get(v, key)
    ensures IdOf(v) == IdOf(w) && GetItems(v, "distribution") == GetItems(w, "distribution")
    ensures StringsOf(v, DESCRIPTOR_KEYS) == StringsOf(w, DESCRIPTOR_KEYS)
  {
    assert DATASET_KEYS[0] == "@id" && DATASET_KEYS[1] == "id" && DATASET_KEYS[2] == "distribution";
    hide DATASET_KEYS, DESCRIPTOR_KEYS, Get;
  }

  lemma ChangedDataset(render: Json -> string, e: Edit, v: Json)
    ensures SameEntry(render, DatasetEntry(v), DatasetEntry(Respell(e, v)))
  {
    ChangeReadsTheSame(e, v);
    SamePolicies(render, v, Respell(e, v), Levels(e));
    DatasetKeysStay(e, v);
    SameDescription(v, Respell(e, v));
    hide Respell, PoliciesOf, ErasedPolicies, DESCRIPTOR_KEYS, DATASET_KEYS, SameReading, GetItems, IdOf, Get, StringsOf, DistributionOf;
  }

  predicate SameCollected(a: Collected, b: Collected) {
    a.services == b.services && ErasedDatasets(a.datasets) == ErasedDatasets(b.datasets)
  }

  lemma SameIds(a: seq<Dataset>, b: seq<Dataset>)
    requires ErasedDatasets(a) == ErasedDatasets(b)
    ensures DatasetIds(a) == DatasetIds(b)
  {
    hide ErasedPolicies;
    assert |a| == |ErasedDatasets(a)| == |b|;
    forall i | 0 <= i < |a| ensures a[i].id == b[i].id {
      assert ErasedDatasets(a)[i] == ErasedDatasets(b)[i];
    }
    forall id ensures id in DatasetIds(a) <==> id in DatasetIds(b) {
      if id in DatasetIds(a) {
        var i :| 0 <= i < |a| && a[i].id == id;
        assert b[i] in b;
      }
      if id in DatasetIds(b) {
        var i :| 0 <= i < |b| && b[i].id == id;
        assert a[i] in a;
      }
    }
  }

  lemma ErasedPush(ds: seq<Dataset>, d: Dataset)
    ensures ErasedDatasets(ds + [d]) == ErasedDatasets(ds) + [ErasedDataset(d)]
  {
    hide ErasedDataset;
  }

  lemma AbsorbSame(render: Json -> string, a: Collected, b: Collected, e: Entry, e': Entry)
    requires SameCollected(a, b) && SameEntry(render, e, e')
    ensures SameCollected(Absorb(render, a, e), Absorb(render, b, e'))
  {
    SameIds(a.datasets, b.datasets);
    hide IdOf, DatasetOf, AddEmbedded, AddService, DataServiceOf, DatasetIds, ErasedDatasets, ErasedDataset, GetItems;
    if e.DatasetEntry? && IdOf(e.v).Some? {
      var id := IdOf(e.v).value;
      ErasedPush(a.datasets, DatasetOf(render, e.v, id));
      ErasedPush(b.datasets, DatasetOf(render, e'.v, id));
    }
  }

  lemma {:induction false} AbsorbAllSame(render: Json -> string, c: Collected, a: seq<Entry>, b: seq<Entry>)
    requires SameFlat(render, a, b)
    ensures SameCollected(AbsorbAll(render, c, a), AbsorbAll(render, c, b))
  {
    hide Absorb, SameEntry;
    if a != [] {
      var n := |a| - 1;
      AbsorbAllSame(render, c, a[..n], b[..n]);
      AbsorbSame(render, AbsorbAll(render, c, a[..n]), AbsorbAll(render, c, b[..n]), a[n], b[n]);
    }
  }

  // ----- Changes to a response -----

  /** A change to a dataset of the response, or of a catalog nested in it. */
  datatype ResponseEdit = InDataset(i: nat, edit: Edit) | InCatalog(i: nat, nested: ResponseEdit)

  function WithItem(v: Json, key: string, i: nat, x: Json): (r: Json)
    requires i < |GetItems(v, key)|
  {
    Obj(v.fields[key := Arr(GetItems(v, key)[i := x])])
  }

  function RespellResponse(e: ResponseEdit, v: Json): (r: Json)
    decreases e
  {
    match e
    case InDataset(i, edit) =>
      var items := GetItems(v, "dataset");
      if i < |items| then WithItem(v, "dataset", i, Respell(edit, items[i])) else v
    case InCatalog(i, nested) =>
      var items := GetItems(v, "catalog");
      if i < |items| then WithItem(v, "catalog", i, RespellResponse(nested, items[i])) else v
  }

  function RespellAll(edits: seq<ResponseEdit>, v: Json): (r: Json) {
    if edits == [] then v else RespellResponse(edits[|edits| - 1], RespellAll(edits[..|edits| - 1], v))
  }

  lemma WithItemElsewhere(v: Json, key: string, i: nat, x: Json)
    requires i < |GetItems(v, key)|
    ensures GetItems(WithItem(v, key, i, x), key) == GetItems(v, key)[i := x]
    ensures forall other :: other != key ==> Get(WithItem(v, key, i, x), other) == Get(v, other)
  {
  }

  lemma ResponseKeysApart()
    ensures "dataset" != "catalog" && "service" != "dataset" && "service" != "catalog" && "@id" != "dataset" && "@id" != "catalog"
  {
    assert "dataset"[0] == 'd' && "catalog"[0] == 'c' && "service"[0] == 's' && "@id"[0] == '@';
  }

  lemma FlatParts(v: Json)
    ensures forall i :: 0 <= i < |GetItems(v, "catalog")| ==> GetItems(v, "catalog")[i] < v
    ensures Flat(v) == ServiceEntries(GetItems(v, "service")) + DatasetEntries(GetItems(v, "dataset")) + FlatAll(v, GetItems(v, "catalog"))
  {
    hide ServiceEntries, DatasetEntries, FlatAll;
  }

  lemma FlatReadsItself(render: Json -> string, entries: seq<Entry>)
    ensures SameFlat(render, entries, entries)
  {
  }

  lemma FlatsReadThemselves(render: Json -> string, items: seq<Json>)
    ensures forall i :: 0 <= i < |items| ==> SameFlat(render, Flat(items[i]), Flat(items[i]))
  {
    hide SameFlat, Flat;
    forall i | 0 <= i < |items| {
      FlatReadsItself(render, Flat(items[i]));
    }
  }

  lemma FlatAppended(render: Json -> string, a: seq<Entry>, b: seq<Entry>, a': seq<Entry>, b': seq<Entry>)
    requires SameFlat(render, a, a') && SameFlat(render, b, b')
    ensures SameFlat(render, a + b, a' + b')
  {
    hide SameEntry;
  }

  lemma {:induction false} NestedFlat(render: Json -> string, v: Json, items: seq<Json>, w: Json, items': seq<Json>)
    requires |items| == |items'|
    requires forall i :: 0 <= i < |items| ==> items[i] < v
    requires forall i :: 0 <= i < |items| ==> items'[i] < w
    requires forall i :: 0 <= i < |items| ==> SameFlat(render, Flat(items[i]), Flat(items'[i]))
    ensures SameFlat(render, FlatAll(v, items), FlatAll(w, items'))
    decreases |items|
  {
    hide SameFlat, Flat;
    FlatReadsItself(render, []);
    if items != [] {
      var n := |items| - 1;
      NestedFlat(render, v, items[..n], w, items'[..n]);
      FlatAppended(render, FlatAll(v, items[..n]), Flat(items[n]), FlatAll(w, items'[..n]), Flat(items'[n]));
    }
  }

  lemma {:induction false} ChangedFlat(render: Json -> string, e: ResponseEdit, v: Json)
    ensures SameFlat(render, Flat(v), Flat(RespellResponse(e, v)))
    ensures Get(RespellResponse(e, v), "@id") == Get(v, "@id")
    decreases e
  {
    ResponseKeysApart();
    FlatReadsItself(render, Flat(v));
    var w := RespellResponse(e, v);
    hide SameFlat, Flat, Respell, ServiceEntries, DatasetEntries, WithItem;
    match e {
      case InDataset(i, edit) =>
        if i < |GetItems(v, "dataset")| {
          WithItemElsewhere(v, "dataset", i, Respell(edit, GetItems(v, "dataset")[i]));
          ChangedDatasetEntries(render, GetItems(v, "dataset"), i, edit);
          FlatsReadThemselves(render, GetItems(v, "catalog"));
          ChangedParts(render, v, w);
        }
      case InCatalog(i, inner) =>
        if i < |GetItems(v, "catalog")| {
          WithItemElsewhere(v, "catalog", i, RespellResponse(inner, GetItems(v, "catalog")[i]));
          ChangedFlat(render, inner, GetItems(v, "catalog")[i]);
          FlatsReadThemselves(render, GetItems(v, "catalog"));
          FlatReadsItself(render, DatasetEntries(GetItems(v, "dataset")));
          ChangedParts(render, v, w);
        }
    }
  }

  lemma ChangedDatasetEntries(render: Json -> string, items: seq<Json>, i: nat, edit: Edit)
    requires i < |items|
    ensures SameFlat(render, DatasetEntries(items), DatasetEntries(items[i := Respell(edit, items[i])]))
  {
    ChangedDataset(render, edit, items[i]);
    hide Respell;
  }

  lemma ChangedParts(render: Json -> string, v: Json, w: Json)
    requires GetItems(v, "service") == GetItems(w, "service")
    requires SameFlat(render, DatasetEntries(GetItems(v, "dataset")), DatasetEntries(GetItems(w, "dataset")))
    requires |GetItems(v, "catalog")| == |GetItems(w, "catalog")|
    requires forall i :: 0 <= i < |GetItems(v, "catalog")| ==>
               SameFlat(render, Flat(GetItems(v, "catalog")[i]), Flat(GetItems(w, "catalog")[i]))
    ensures SameFlat(render, Flat(v), Flat(w))
  {
    hide *;
    var services := ServiceEntries(GetItems(v, "service"));
    var datasets, datasets' := DatasetEntries(GetItems(v, "dataset")), DatasetEntries(GetItems(w, "dataset"));
    var nested, nested' := GetItems(v, "catalog"), GetItems(w, "catalog");
    FlatParts(v);
    FlatParts(w);
    NestedFlat(render, v, nested, w, nested');
    FlatReadsItself(render, services);
    FlatAppended(render, services, datasets, services, datasets');
    FlatAppended(render, services + datasets, FlatAll(v, nested), services + datasets', FlatAll(w, nested'));
  }

  /** `w` is `v` after any number of changes. */
  ghost predicate Respelled(v: Json, w: Json) {
    exists edits :: w == RespellAll(edits, v)
  }

  lemma OneChangeParsesTheSame(render: Json -> string, e: ResponseEdit, v: Json, p: Participant, uuid: string)
    ensures ErasedCatalog(ParsedCatalog(render, RespellResponse(e, v), p, uuid)) == ErasedCatalog(ParsedCatalog(render, v, p, uuid))
  {
    ChangedFlat(render, e, v);
    AbsorbAllSame(render, Collected([], []), Flat(v), Flat(RespellResponse(e, v)));
    hide AbsorbAll, Flat, ErasedDatasets, RespellResponse, Get;
  }

  lemma {:induction false} ChangesParseTheSame(render: Json -> string, edits: seq<ResponseEdit>, v: Json, p: Participant, uuid: string)
    ensures ErasedCatalog(ParsedCatalog(render, RespellAll(edits, v), p, uuid)) == ErasedCatalog(ParsedCatalog(render, v, p, uuid))
  {
    hide ErasedCatalog, ParsedCatalog, RespellResponse;
    if edits != [] {
      var n := |edits| - 1;
      ChangesParseTheSame(render, edits[..n], v, p, uuid);
      OneChangeParsesTheSame(render, edits[n], RespellAll(edits[..n], v), p, uuid);
    }
  }

  /** However a response spells and holds its policies, it parses to the same
      catalog, apart from the raw text markers keep. */
  lemma RespelledCatalogParsesTheSame(render: Json -> string, v: Json, w: Json, p: Participant, uuid: string)
    requires Respelled(v, w)
    ensures ErasedCatalog(ParsedCatalog(render, v, p, uuid)) == ErasedCatalog(ParsedCatalog(render, w, p, uuid))
  {
    hide ErasedCatalog, ParsedCatalog, RespellAll;
    var edits :| w == RespellAll(edits, v);
    ChangesParseTheSame(render, edits, v, p, uuid);
  }
}
