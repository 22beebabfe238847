/** A token's claims as the engine sees them, and the key a caller's allow-list
    is cached under (`odrl_filter.rs`). */
module TokenClaims {
  import opened Text
  import opened CatalogCore
  import opened Parser
  import opened Mapper
  import opened PolicyRoutes
  import opened Vocabulary

  predicate IsAsciiWhitespace(c: char) {
    c == ' ' || c == '\t' || c == '\n' || c == '\r' || c as int == 0x0C
  }

  /** The words of `s`; `word` is the one being read. */
  function Words(s: string, word: string): (words: seq<string>) {
    if s == "" then if word == "" then [] else [word]
    else if IsAsciiWhitespace(s[0]) then (if word == "" then [] else [word]) + Words(s[1..], "")
    else Words(s[1..], word + [s[0]])
  }

  /** A stretch of `s` without white space that does not go on either side. */
  predicate WordAt(s: string, i: nat, j: nat) {
    && i < j <= |s| && (forall k :: i <= k < j ==> !IsAsciiWhitespace(s[k]))
    && (i == 0 || IsAsciiWhitespace(s[i - 1])) && (j == |s| || IsAsciiWhitespace(s[j]))
  }

  ghost predicate IsWord(s: string, w: string) {
    exists i: nat, j: nat :: WordAt(s, i, j) && w == s[i..j]
  }

  function NonBlank(s: string): (r: string) {
    if s == "" then "" else (if IsAsciiWhitespace(s[0]) then [] else [s[0]]) + NonBlank(s[1..])
  }

  function Together(words: seq<string>): (r: string) {
    if words == [] then "" else words[0] + Together(words[1..])
  }

  predicate Blankless(s: string) {
    forall k :: 0 <= k < |s| ==> !IsAsciiWhitespace(s[k])
  }

  lemma OnlyWord(s: string, w: string)
    requires Blankless(s)
    ensures IsWord(s, w) <==> s != "" && w == s
  {
    if s != "" {
      assert WordAt(s, 0, |s|) && s[0..|s|] == s;
    }
  }

  /** Behind a blank, the words of `rest` stay words. */
  lemma WordMoves(before: string, rest: string, i: nat, j: nat)
    requires before != "" && IsAsciiWhitespace(before[|before| - 1]) && i < j <= |rest|
    ensures WordAt(before + rest, |before| + i, |before| + j) <==> WordAt(rest, i, j)
    ensures (before + rest)[|before| + i..|before| + j] == rest[i..j]
  {
    hide IsAsciiWhitespace;
    var s, n := before + rest, |before|;
    assert s[n - 1] == before[n - 1];
    assert forall k :: 0 <= k < |rest| ==> s[n + k] == rest[k];
    if WordAt(rest, i, j) {
      assert forall k :: n + i <= k < n + j ==> s[k] == rest[k - n];
    }
  }

  lemma WordsBefore(word: string, c: char, rest: string, i: nat, j: nat)
    requires Blankless(word) && IsAsciiWhitespace(c) && i <= |word|
    ensures WordAt(word + [c] + rest, i, j) <==> i == 0 && j == |word| && word != ""
  {
    hide IsAsciiWhitespace;
    var s := word + [c] + rest;
    assert forall k :: 0 <= k < |word| ==> s[k] == word[k] && !IsAsciiWhitespace(s[k]);
    assert s[|word|] == c;
  }

  lemma FirstWord(word: string, c: char, rest: string, w: string)
    requires Blankless(word) && IsAsciiWhitespace(c)
    ensures IsWord(word + [c] + rest, w) <==> (word != "" && w == word) || IsWord(rest, w)
  {
    hide IsAsciiWhitespace, Blankless;
    var before := word + [c];
    var s, n := before + rest, |before|;
    WordsBefore(word, c, rest, 0, |word|);
    assert s[0..|word|] == word;
    if i: nat, j: nat :| WordAt(rest, i, j) && w == rest[i..j] {
      WordMoves(before, rest, i, j);
    }
    if i: nat, j: nat :| WordAt(s, i, j) && w == s[i..j] && !(word != "" && w == word) {
      if i < n {
        WordsBefore(word, c, rest, i, j);
      }
      WordMoves(before, rest, i - n, j - n);
    }
  }

  lemma {:induction false} WordsAre(s: string, word: string)
    requires Blankless(word)
    ensures forall w :: w in Words(s, word) <==> IsWord(word + s, w)
    ensures Together(Words(s, word)) == word + NonBlank(s)
    decreases |s|
  {
    hide IsWord, IsAsciiWhitespace;
    if s == "" {
      assert word + s == word;
      forall w {
        OnlyWord(word, w);
      }
      assert word != "" ==> [word][1..] == [];
    } else if IsAsciiWhitespace(s[0]) {
      assert word + s == word + [s[0]] + s[1..] && "" + s[1..] == s[1..];
      WordsAre(s[1..], "");
      forall w {
        FirstWord(word, s[0], s[1..], w);
      }
      assert word != "" ==> ([word] + Words(s[1..], ""))[1..] == Words(s[1..], "");
      assert [] + Words(s[1..], "") == Words(s[1..], "");
    } else {
      assert word + s == (word + [s[0]]) + s[1..];
      WordsAre(s[1..], word + [s[0]]);
      assert word + NonBlank(s) == (word + [s[0]]) + NonBlank(s[1..]);
    }
  }

  function AllStrings(items: seq<Json>): (r: Option<seq<string>>) {
    if items == [] then Some([])
    else if !items[0].Str? then None
    else
      match AllStrings(items[1..])
      case Some(rest) => Some([items[0].content] + rest)
      case None => None
  }

  /** A claim the engine can represent: a string, a list of strings, or the
      words of a `scope`. */
  function ClaimOf(name: string, v: Json): (c: Option<ClaimValue>) {
    match v
    case Str(s) => Some(if name == "scope" then Multi(Words(s, "")) else Single(s))
    case Arr(items) =>
      (match AllStrings(items)
       case Some(values) => Some(Multi(values))
       case None => None)
    case _ => None
  }

  function EngineClaims(token: Json): (claims: Claims) {
    if token.Obj? then map name | name in token.fields && ClaimOf(name, token.fields[name]).Some? :: ClaimOf(name, token.fields[name]).value
    else map[]
  }

  lemma {:induction false} AllStringsAre(items: seq<Json>)
    ensures AllStrings(items).Some? <==> forall item :: item in items ==> item.Str?
    ensures AllStrings(items).Some? ==>
              |AllStrings(items).value| == |items| && forall i :: 0 <= i < |items| ==> items[i] == Str(AllStrings(items).value[i])
  {
    if items != [] {
      AllStringsAre(items[1..]);
      assert forall item :: item in items <==> item == items[0] || item in items[1..];
    }
  }

  /** `v` under `name` is the claim `c`: a string itself, but the words of a
      `scope`, which together are its text without the blanks; a list of strings
      those strings. Anything else is no claim. */
  ghost predicate ClaimIs(name: string, v: Json, c: Option<ClaimValue>) {
    match v
    case Str(s) =>
      if name == "scope" then
        c.Some? && c.value.Multi? && Together(c.value.values) == NonBlank(s) && forall w :: w in c.value.values <==> IsWord(s, w)
      else c == Some(Single(s))
    case Arr(items) =>
      if forall item :: item in items ==> item.Str? then
        && c.Some? && c.value.Multi? && |c.value.values| == |items|
        && forall i :: 0 <= i < |items| ==> items[i] == Str(c.value.values[i])
      else c == None
    case _ => c == None
  }

  lemma ClaimOfIs(name: string, v: Json)
    ensures ClaimIs(name, v, ClaimOf(name, v))
  {
    hide IsWord, Words;
    match v {
      case Str(s) =>
        WordsAre(s, "");
        assert "" + s == s && "" + NonBlank(s) == NonBlank(s);
      case Arr(items) => AllStringsAre(items);
      case _ =>
    }
  }

  /** `jwt_claims_to_engine_claims`. */
  method MapClaims(token: Json) returns (claims: Claims)
    ensures claims == EngineClaims(token)
    ensures forall name :: name in claims ==> token.Obj? && name in token.fields
    ensures token.Obj? ==> forall name :: name in token.fields ==>
              ClaimIs(name, token.fields[name], if name in claims then Some(claims[name]) else None)
  {
    hide ClaimOf, ClaimIs;
    forall name, v {
      ClaimOfIs(name, v);
    }
    claims := map[];
    if !token.Obj? {
      return;
    }
    var rest := token.fields.Keys;
    while rest != {}
      invariant rest <= token.fields.Keys
      invariant claims == map name | name in token.fields && name !in rest && ClaimOf(name, token.fields[name]).Some?
                            :: ClaimOf(name, token.fields[name]).value
      decreases rest
    {
      var name :| name in rest;
      rest := rest - {name};
      var claim := ClaimOf(name, token.fields[name]);
      if claim.Some? {
        claims := claims[name := claim.value];
      }
    }
  }

  const PER_TOKEN_CLAIMS: set<string> := {"jti", "iat", "exp", "nbf"}

  /** The key: every claim the engine is given except those of one token. Its
      serialization to text, in name order, is one to one. */
  function AllowListKey(token: Json): (key: Claims) {
    EngineClaims(token) - PER_TOKEN_CLAIMS
  }

  /** It leaves out exactly these. */
  lemma KeyLeavesOut(token: Json, name: string)
    ensures name in AllowListKey(token) <==> name in EngineClaims(token) && name !in {"jti", "iat", "exp", "nbf"}
    ensures name in AllowListKey(token) ==> AllowListKey(token)[name] == EngineClaims(token)[name]
  {
    hide EngineClaims;
  }

  /** With the clock's claim laid over whatever the token said. */
  function WithContext(claims: Claims, now: string): (r: Claims) {
    claims["dateTime" := Single(now)]
  }

  /** A `dateTime` constraint, however its left operand is spelled, is checked
      against the host's clock whatever the token claims; no other claim is
      touched. */
  lemma ClockIsTheHosts(token: Json, now: string, name: string)
    ensures var claims := WithContext(EngineClaims(token), now);
            && (forall left :: left in {"dateTime", "odrl:dateTime", "http://www.w3.org/ns/odrl/2/dateTime"} ==>
                  NormalizeLeftOperand(left) in claims && claims[NormalizeLeftOperand(left)] == Single(now))
            && (name != "dateTime" ==> (name in claims <==> name in EngineClaims(token)))
            && (name != "dateTime" && name in claims ==> claims[name] == EngineClaims(token)[name])
  {
    assert "dateTime"[0] == 'd' && ODRL_NS[0] == 'h';
    assert "odrl:" + "dateTime" == "odrl:dateTime" && ODRL_NS + "dateTime" == "http://www.w3.org/ns/odrl/2/dateTime";
    LeftOperandsAreBare("dateTime");
    hide NormalizeLeftOperand, EngineClaims;
  }

  // ----- The claims a policy names -----

  function ConstraintNames(c: EngineConstraint): (names: set<string>) {
    match c
    case EngineAtomic(left, _, _) => {left}
    case EngineGroup(_, children) => set child, name | child in children && name in ConstraintNames(child) :: name
  }

  function RuleNames(rules: seq<EngineRule>): (names: set<string>) {
    set rule, c, name | rule in rules && c in rule.constraints && name in ConstraintNames(c) :: name
  }

  /** The left operands of its constraints, at any depth, and the claim that
      tells who the caller is. */
  function PolicyNames(w: WirePolicy): (names: set<string>) {
    {"sub"} + RuleNames(w.permissions) + RuleNames(w.prohibitions) + RuleNames(w.obligations)
  }

  /** The engine looks claims up by the names the policy at hand uses. */
  ghost predicate ReadsNamed(allows: EngineRequest -> bool) {
    forall r: EngineRequest, claims: Claims ::
      (forall name :: name in PolicyNames(r.policy) ==> (name in claims <==> name in r.claims) && (name in claims ==> claims[name] == r.claims[name]))
      ==> allows(r.(claims := claims)) == allows(r)
  }

  function OfferPolicy(d: Dataset, i: nat): (w: WirePolicy)
    requires i < |d.policies|
  {
    WireOf(d.policies[i], FallbackId(d, i))
  }

  /** Offer `i` gets as far as the engine when no offer before it decides. */
  predicate Reachable(d: Dataset, i: nat, cfg: FilterConfig)
    requires i < |d.policies|
  {
    && (cfg.unmappable.SkipConstraint? || PolicyMappable(d.policies[i]))
    && (cfg.unmappable.HideDataset? ==> forall j :: 0 <= j < i ==> PolicyMappable(d.policies[j]))
  }

  /** No offer the engine may be asked about names a claim of a single token. */
  predicate NamesNoPerTokenClaim(d: Dataset, cfg: FilterConfig) {
    forall i :: 0 <= i < |d.policies| && Reachable(d, i, cfg) ==> PolicyNames(OfferPolicy(d, i)) !! PER_TOKEN_CLAIMS
  }

  lemma SameKeySameClaims(a: Json, b: Json, now: string, name: string)
    requires AllowListKey(a) == AllowListKey(b) && name !in PER_TOKEN_CLAIMS
    ensures var ca, cb := WithContext(EngineClaims(a), now), WithContext(EngineClaims(b), now);
            (name in ca <==> name in cb) && (name in ca ==> ca[name] == cb[name])
  {
    hide EngineClaims;
    assert name in EngineClaims(a) <==> name in AllowListKey(a);
    assert name in EngineClaims(b) <==> name in AllowListKey(b);
  }

  lemma SameOffer(allows: EngineRequest -> bool, a: Json, b: Json, now: string, d: Dataset, i: nat, action: string, cfg: FilterConfig)
    requires ReadsNamed(allows) && AllowListKey(a) == AllowListKey(b)
    requires i < |d.policies| && PolicyNames(OfferPolicy(d, i)) !! PER_TOKEN_CLAIMS
    ensures OfferAllows(allows, d, i, WithContext(EngineClaims(a), now), action, cfg) ==
            OfferAllows(allows, d, i, WithContext(EngineClaims(b), now), action, cfg)
  {
    hide WithContext, EngineClaims, PolicyMappable, WireOf, FallbackId, NormalizeAction, RuleActions, PolicyNames;
    var ca, cb := WithContext(EngineClaims(a), now), WithContext(EngineClaims(b), now);
    var r := RequestFor(d, OfferPolicy(d, i), action, ca, cfg);
    forall name | name in PolicyNames(r.policy) {
      SameKeySameClaims(a, b, now, name);
    }
    assert RequestFor(d, OfferPolicy(d, i), action, cb, cfg) == r.(claims := cb);
  }

  /** Tokens with one key see the same datasets at one moment, when no offer of
      theirs names a claim that belongs to a single token. */
  lemma SameKeySameVisibility(
    allows: EngineRequest -> bool, a: Json, b: Json, now: string, d: Dataset, action: string, cfg: FilterConfig)
    requires ReadsNamed(allows) && NamesNoPerTokenClaim(d, cfg)
    requires AllowListKey(a) == AllowListKey(b)
    ensures Visible(allows, d, WithContext(EngineClaims(a), now), action, cfg) ==
            Visible(allows, d, WithContext(EngineClaims(b), now), action, cfg)
  {
    hide WithContext, EngineClaims, PolicyMappable, OfferPolicy, RequestFor, WireOf, FallbackId, PolicyNames, AllowListKey, ReadsNamed;
    forall i | 0 <= i < |d.policies| && Reachable(d, i, cfg)
      ensures OfferAllows(allows, d, i, WithContext(EngineClaims(a), now), action, cfg) ==
              OfferAllows(allows, d, i, WithContext(EngineClaims(b), now), action, cfg)
    {
      SameOffer(allows, a, b, now, d, i, action, cfg);
    }
  }

  /** So they share the allow-list of every catalog, and of every store. */
  lemma SameKeySameIris(allows: EngineRequest -> bool, a: Json, b: Json, now: string, c: Catalog, action: string, cfg: FilterConfig)
    requires ReadsNamed(allows) && (forall d :: d in c.datasets ==> NamesNoPerTokenClaim(d, cfg))
    requires AllowListKey(a) == AllowListKey(b)
    ensures VisibleResourceIris(c, Decider(allows, WithContext(EngineClaims(a), now), action, cfg)) ==
            VisibleResourceIris(c, Decider(allows, WithContext(EngineClaims(b), now), action, cfg))
  {
    hide WithContext, EngineClaims, Visible, NamesNoPerTokenClaim, AllowListKey, ReadsNamed, DatasetResourceIri, ServiceResourceIri,
         ServicesUsedBy, ServiceIsVisible, Retain;
    var da := Decider(allows, WithContext(EngineClaims(a), now), action, cfg);
    var db := Decider(allows, WithContext(EngineClaims(b), now), action, cfg);
    forall d | d in c.datasets ensures da(d) == db(d) {
      SameKeySameVisibility(allows, a, b, now, d, action, cfg);
    }
    RetainSame(c.datasets, da, db);
    assert forall id :: ServiceShown(c, da, id) == ServiceShown(c, db, id);
  }

  function Decider(allows: EngineRequest -> bool, claims: Claims, action: string, cfg: FilterConfig): (decide: Dataset -> bool) {
    d => Visible(allows, d, claims, action, cfg)
  }

  /** An engine that lets a caller in when the policy names `name` and the
      caller's claim of that name is "1". */
  function OnlyHolderOf(name: string): (allows: EngineRequest -> bool) {
    (r: EngineRequest) => name in PolicyNames(r.policy) && name in r.claims && r.claims[name] == Single("1")
  }

  lemma OnlyHolderReadsNamed(name: string)
    ensures ReadsNamed(OnlyHolderOf(name))
  {
    hide PolicyNames;
  }

  /** The token whose one claim is `name`. */
  function Token(name: string): (token: Json) {
    Obj(map[name := Str("1")])
  }

  lemma TokensShareAKey(name: string, now: string)
    requires name in PER_TOKEN_CLAIMS
    ensures AllowListKey(Token(name)) == AllowListKey(Obj(map[]))
    ensures var claims := WithContext(EngineClaims(Token(name)), now); name in claims && claims[name] == Single("1")
    ensures name !in WithContext(EngineClaims(Obj(map[])), now)
  {
    assert |"scope"| == 5 && |"dateTime"| == 8;
    assert EngineClaims(Token(name)) == map[name := Single("1")];
    assert EngineClaims(Obj(map[])) == map[];
    assert AllowListKey(Token(name)) == map[] == AllowListKey(Obj(map[]));
  }

  /** A reachable offer that names a claim of a single token tells two tokens
      with one key apart. */
  lemma NamedClaimTellsTokensApart(d: Dataset, i: nat, name: string, now: string, action: string, cfg: FilterConfig)
    requires i < |d.policies| && Reachable(d, i, cfg) && name in PolicyNames(OfferPolicy(d, i)) && name in PER_TOKEN_CLAIMS
    ensures AllowListKey(Token(name)) == AllowListKey(Obj(map[]))
    ensures Visible(OnlyHolderOf(name), d, WithContext(EngineClaims(Token(name)), now), action, cfg)
    ensures !Visible(OnlyHolderOf(name), d, WithContext(EngineClaims(Obj(map[])), now), action, cfg)
  {
    TokensShareAKey(name, now);
    hide WithContext, EngineClaims, PolicyMappable, WireOf, FallbackId, NormalizeAction, RuleActions, PolicyNames, AllowListKey, Token;
    assert OfferAllows(OnlyHolderOf(name), d, i, WithContext(EngineClaims(Token(name)), now), action, cfg);
  }

  /** The key is sound for `d`: whatever the engine, as long as it looks claims
      up by name, tokens with one key see `d` alike. */
  ghost predicate KeyIsSound(d: Dataset, action: string, cfg: FilterConfig) {
    forall allows: EngineRequest -> bool, a: Json, b: Json, now: string ::
      ReadsNamed(allows) && AllowListKey(a) == AllowListKey(b) ==>
        Visible(allows, d, WithContext(EngineClaims(a), now), action, cfg) ==
        Visible(allows, d, WithContext(EngineClaims(b), now), action, cfg)
  }

  /** The key is documented as sound for every policy. It is so exactly when no
      offer that can reach the engine names a claim of a single token. */
  lemma KeyIsSoundExactlyWhen(d: Dataset, action: string, cfg: FilterConfig)
    ensures KeyIsSound(d, action, cfg) <==> NamesNoPerTokenClaim(d, cfg)
  {
    hide WithContext, EngineClaims, AllowListKey, Visible, OfferPolicy, PolicyNames, Reachable, ReadsNamed, OnlyHolderOf;
    if NamesNoPerTokenClaim(d, cfg) {
      forall allows: EngineRequest -> bool, a: Json, b: Json, now: string | ReadsNamed(allows) && AllowListKey(a) == AllowListKey(b)
        ensures Visible(allows, d, WithContext(EngineClaims(a), now), action, cfg) ==
                Visible(allows, d, WithContext(EngineClaims(b), now), action, cfg)
      {
        SameKeySameVisibility(allows, a, b, now, d, action, cfg);
      }
    } else {
      var i :| 0 <= i < |d.policies| && Reachable(d, i, cfg) && !(PolicyNames(OfferPolicy(d, i)) !! PER_TOKEN_CLAIMS);
      var name :| name in PolicyNames(OfferPolicy(d, i)) && name in PER_TOKEN_CLAIMS;
      NamedClaimTellsTokensApart(d, i, name, "", action, cfg);
      OnlyHolderReadsNamed(name);
    }
  }

  /** A dataset offered under the constraint `jti eq "1"`. */
  function OfferedToOneToken(): (d: Dataset) {
    Dataset("d", map[], [], [Policy(None, Set, None, None, [Rule("odrl:use", [Atomic("jti", "eq", "1")])], [], [])])
  }

  lemma OneTokenIsNamed(cfg: FilterConfig)
    ensures Reachable(OfferedToOneToken(), 0, cfg)
    ensures "jti" in PolicyNames(OfferPolicy(OfferedToOneToken(), 0))
  {
    var c := Atomic("jti", "eq", "1");
    var rule := Rule("odrl:use", [c]);
    var p := OfferedToOneToken().policies[0];
    hide NormalizeAction, FallbackId;
    assert !("odrl:" <= "eq") && !("odrl:" <= "jti") && !(ODRL_NS <= "jti");
    assert Translation(c, 0) == Some(EngineAtomic("jti", Eq, "1"));
    assert Mappable(c, 0) && RuleMappable(rule) && PolicyMappable(p);
    hide Translation, ParseOperator, NormalizeLeftOperand;
    var e := EngineAtomic("jti", Eq, "1");
    assert rule.constraints[..0] == [];
    assert Translations(rule.constraints[..0], 0) == [];
    assert Translations(rule.constraints, 0) == [] + [e];
    var w := OfferPolicy(OfferedToOneToken(), 0);
    assert w.permissions[0] in w.permissions && w.permissions[0] == TranslatedRule(rule) && e in w.permissions[0].constraints;
    assert "jti" in ConstraintNames(e);
  }

  /** There: two tokens with one key, one of which sees the dataset. */
  lemma SameKeyDifferentVisibility(now: string, action: string, cfg: FilterConfig)
    ensures AllowListKey(Token("jti")) == AllowListKey(Obj(map[])) && ReadsNamed(OnlyHolderOf("jti"))
    ensures Visible(OnlyHolderOf("jti"), OfferedToOneToken(), WithContext(EngineClaims(Token("jti")), now), action, cfg)
    ensures !Visible(OnlyHolderOf("jti"), OfferedToOneToken(), WithContext(EngineClaims(Obj(map[])), now), action, cfg)
  {
    OneTokenIsNamed(cfg);
    OnlyHolderReadsNamed("jti");
    assert |OfferedToOneToken().policies| == 1;
    hide OfferedToOneToken, OfferPolicy, Reachable, PolicyNames;
    NamedClaimTellsTokensApart(OfferedToOneToken(), 0, "jti", now, action, cfg);
  }
}
