/** From a harvested policy to the ODRL engine's, and from the engine's answers
    to whether a dataset is visible (`odrl_filter.rs`). The engine itself is a
    parameter: whether it allows a request. */
module Mapper {
  import opened Text
  import opened CatalogCore
  import opened Parser

  datatype UnmappableConstraintAction = SkipConstraint | DropPolicy | HideDataset

  datatype NoPolicyVisibility = Open | Closed

  datatype FilterConfig = FilterConfig(unmappable: UnmappableConstraintAction, noPolicy: NoPolicyVisibility)

  datatype EngineOperator = Eq | Neq | IsAnyOf | IsAllOf | IsNoneOf | IsPartOf | Lt | Lteq | Gt | Gteq

  datatype EngineConstraint =
    | EngineAtomic(leftOperand: string, operator: EngineOperator, rightOperand: string)
    | EngineGroup(combinator: Combinator, children: seq<EngineConstraint>)

  datatype EngineRule = EngineRule(action: string, constraints: seq<EngineConstraint>)

  datatype WirePolicy = WirePolicy(
    id: string, kind: PolicyKind, assigner: string, assignee: Option<string>,
    permissions: seq<EngineRule>, prohibitions: seq<EngineRule>, obligations: seq<EngineRule>)

  datatype ClaimValue = Single(value: string) | Multi(values: seq<string>)

  type Claims = map<string, ClaimValue>

  datatype EngineRequest = EngineRequest(
    datasetId: string, action: string, actions: set<string>, behaviour: NoPolicyVisibility, policy: WirePolicy, claims: Claims)

  // ----- Vocabulary -----

  function StripOdrl(s: string): (r: string) {
    if "odrl:" <= s then s[5..] else s
  }

  function ParseOperator(operator: string): (r: Option<EngineOperator>) {
    OperatorNamed(StripOdrl(operator))
  }

  function OperatorNamed(bare: string): (r: Option<EngineOperator>) {
    if bare == "eq" then Some(Eq)
    else if bare == "neq" then Some(Neq)
    else if bare == "isAnyOf" then Some(IsAnyOf)
    else if bare == "isAllOf" then Some(IsAllOf)
    else if bare == "isNoneOf" then Some(IsNoneOf)
    else if bare == "isPartOf" then Some(IsPartOf)
    else if bare == "lt" then Some(Lt)
    else if bare == "lteq" then Some(Lteq)
    else if bare == "gt" then Some(Gt)
    else if bare == "gteq" then Some(Gteq)
    else None
  }

  function NormalizeLeftOperand(left: string): (r: string) {
    if ODRL_NS <= left then left[|ODRL_NS|..] else StripOdrl(left)
  }

  /** The engine's operators as ODRL names them. */
  function OperatorName(op: EngineOperator): (name: string) {
    match op
    case Eq => "eq"
    case Neq => "neq"
    case IsAnyOf => "isAnyOf"
    case IsAllOf => "isAllOf"
    case IsNoneOf => "isNoneOf"
    case IsPartOf => "isPartOf"
    case Lt => "lt"
    case Lteq => "lteq"
    case Gt => "gt"
    case Gteq => "gteq"
  }

  /** An operator is read from its name, bare or with the prefix, and from
      nothing else. */
  lemma OperatorsAreRead(text: string, op: EngineOperator)
    ensures ParseOperator(text) == Some(op) <==> text == OperatorName(op) || text == "odrl:" + OperatorName(op)
  {
    OperatorsByName(StripOdrl(text), op);
    hide OperatorNamed;
    assert ("odrl:" + OperatorName(op))[5..] == OperatorName(op) && "odrl:"[0] == 'o';
    assert "odrl:" <= text ==> text == "odrl:" + StripOdrl(text);
  }

  lemma OperatorsByName(bare: string, op: EngineOperator)
    ensures OperatorNamed(bare) == Some(op) <==> bare == OperatorName(op)
  {
  }

  /** A claim is looked up by the bare name of a left operand, however spelled;
      any other operand is a claim's name as it stands. */
  lemma LeftOperandsAreBare(n: string)
    requires !(ODRL_NS <= n) && !("odrl:" <= n)
    ensures NormalizeLeftOperand(n) == n && NormalizeLeftOperand("odrl:" + n) == n && NormalizeLeftOperand(ODRL_NS + n) == n
  {
    assert ("odrl:" + n)[5..] == n && (ODRL_NS + n)[|ODRL_NS|..] == n;
    assert ("odrl:" + n)[0] == 'o' && ODRL_NS[0] == 'h';
  }

  lemma MarkerHasNoOperator()
    ensures ParseOperator(UNMAPPABLE_OPERATOR) == None
  {
    assert UNMAPPABLE_OPERATOR[0] == 'u' && |UNMAPPABLE_OPERATOR| == 26;
  }

  // ----- What a policy maps to -----

  /** What the engine is given for `c`: its translation without the parts that
      cannot be mapped; `None` when nothing of it can. */
  function Translation(c: Constraint, depth: nat): (e: Option<EngineConstraint>)
    decreases c
  {
    if depth > MAX_CONSTRAINT_DEPTH then None
    else
      match c
      case Atomic(left, operator, right) =>
        (match ParseOperator(operator)
         case Some(op) => Some(EngineAtomic(NormalizeLeftOperand(left), op, right))
         case None => None)
      case Logical(combinator, children) => Some(EngineGroup(combinator, Translations(children, depth + 1)))
  }

  function Translations(cs: seq<Constraint>, depth: nat): (es: seq<EngineConstraint>)
    decreases cs
  {
    if cs == [] then []
    else
      Translations(cs[..|cs| - 1], depth)
      + match Translation(cs[|cs| - 1], depth) case Some(e) => [e] case None => []
  }

  /** Every operator in `c` is known and nothing in it is nested too deep. */
  predicate Mappable(c: Constraint, depth: nat) {
    && depth <= MAX_CONSTRAINT_DEPTH
    && match c
       case Atomic(_, operator, _) => ParseOperator(operator).Some?
       case Logical(_, children) => forall child :: child in children ==> Mappable(child, depth + 1)
  }

  predicate RuleMappable(rule: Rule) {
    forall c :: c in rule.constraints ==> Mappable(c, 0)
  }

  predicate RulesMappable(rules: seq<Rule>) {
    forall rule :: rule in rules ==> RuleMappable(rule)
  }

  predicate PolicyMappable(policy: Policy) {
    RulesMappable(policy.permissions) && RulesMappable(policy.prohibitions) && RulesMappable(policy.obligations)
  }

  function TranslatedRule(rule: Rule): (e: EngineRule) {
    EngineRule(NormalizeAction(rule.action), Translations(rule.constraints, 0))
  }

  function TranslatedRules(rules: seq<Rule>): (es: seq<EngineRule>) {
    seq(|rules|, i requires 0 <= i < |rules| => TranslatedRule(rules[i]))
  }

  function WireOf(policy: Policy, fallbackId: string): (w: WirePolicy) {
    WirePolicy(
      match policy.id case Some(id) => id case None => fallbackId,
      policy.kind,
      match policy.assigner case Some(a) => a case None => "",
      policy.assignee,
      TranslatedRules(policy.permissions), TranslatedRules(policy.prohibitions), TranslatedRules(policy.obligations))
  }

  // ----- What the engine is left with -----

  predicate Known(c: Constraint, depth: nat) {
    depth <= MAX_CONSTRAINT_DEPTH && (c.Atomic? ==> exists op :: c.operator in {OperatorName(op), "odrl:" + OperatorName(op)})
  }

  /** `e` is `c` for the engine, without the parts below it that cannot be
      mapped: a test of the same claim against the same value, or the same group
      over what is left of its children. */
  ghost predicate Leaves(c: Constraint, e: EngineConstraint, depth: nat)
    decreases c
  {
    match (c, e)
    case (Atomic(left, operator, right), EngineAtomic(left', op, right')) =>
      left' == NormalizeLeftOperand(left) && operator in {OperatorName(op), "odrl:" + OperatorName(op)} && right' == right
    case (Logical(combinator, children), EngineGroup(combinator', children')) =>
      combinator' == combinator && AllLeave(children, children', depth + 1)
    case _ => false
  }

  /** `es` is what is left of `cs`, in order: those that can be mapped at all. */
  ghost predicate AllLeave(cs: seq<Constraint>, es: seq<EngineConstraint>, depth: nat)
    decreases cs
  {
    if cs == [] then es == []
    else
      var n := |cs| - 1;
      if Known(cs[n], depth) then
        es != [] && Leaves(cs[n], es[|es| - 1], depth) && AllLeave(cs[..n], es[..|es| - 1], depth)
      else AllLeave(cs[..n], es, depth)
  }

  ghost predicate RulesLeave(rules: seq<Rule>, es: seq<EngineRule>) {
    && |es| == |rules|
    && forall i :: 0 <= i < |rules| ==>
         es[i].action == NormalizeAction(rules[i].action) && AllLeave(rules[i].constraints, es[i].constraints, 0)
  }

  /** `w` is `policy` for the engine: every rule in the list it was in. */
  ghost predicate PolicyLeaves(policy: Policy, fallbackId: string, w: WirePolicy) {
    && (match policy.id case Some(id) => w.id == id case None => w.id == fallbackId)
    && w.kind == policy.kind
    && (match policy.assigner case Some(a) => w.assigner == a case None => w.assigner == "")
    && w.assignee == policy.assignee
    && RulesLeave(policy.permissions, w.permissions)
    && RulesLeave(policy.prohibitions, w.prohibitions)
    && RulesLeave(policy.obligations, w.obligations)
  }

  lemma KnownTranslates(c: Constraint, depth: nat)
    ensures Known(c, depth) <==> Translation(c, depth).Some?
  {
    hide OperatorName, Translations, NormalizeLeftOperand;
    if c.Atomic? {
      forall op {
        OperatorsAreRead(c.operator, op);
      }
      hide ParseOperator;
    }
  }

  lemma {:induction false} TranslationLeaves(c: Constraint, depth: nat)
    requires Translation(c, depth).Some?
    ensures Leaves(c, Translation(c, depth).value, depth)
    decreases c
  {
    hide OperatorName, NormalizeLeftOperand;
    match c {
      case Atomic(_, operator, _) =>
        OperatorsAreRead(operator, ParseOperator(operator).value);
      case Logical(_, children) => TranslationsLeave(children, depth + 1);
    }
  }

  lemma {:induction false} TranslationsLeave(cs: seq<Constraint>, depth: nat)
    ensures AllLeave(cs, Translations(cs, depth), depth)
    decreases cs
  {
    hide Known, Leaves, Translation;
    if cs != [] {
      var n := |cs| - 1;
      TranslationsLeave(cs[..n], depth);
      KnownTranslates(cs[n], depth);
      if Translation(cs[n], depth).Some? {
        TranslationLeaves(cs[n], depth);
        var es := Translations(cs, depth);
        assert es[..|es| - 1] == Translations(cs[..n], depth);
      } else {
        assert Translations(cs, depth) == Translations(cs[..n], depth);
      }
    }
  }

  lemma WireLeaves(policy: Policy, fallbackId: string)
    ensures PolicyLeaves(policy, fallbackId, WireOf(policy, fallbackId))
  {
    RulesTranslated(policy.permissions);
    RulesTranslated(policy.prohibitions);
    RulesTranslated(policy.obligations);
    hide RulesLeave, TranslatedRules;
  }

  lemma RulesTranslated(rules: seq<Rule>)
    ensures RulesLeave(rules, TranslatedRules(rules))
  {
    hide NormalizeAction, AllLeave, Translations;
    forall i | 0 <= i < |rules| ensures AllLeave(rules[i].constraints, TranslatedRules(rules)[i].constraints, 0) {
      TranslationsLeave(rules[i].constraints, 0);
    }
  }

  // ----- The mapper as it runs -----

  /** `Ok(Some)`, `Ok(None)` and `Err` of the source. */
  datatype Mapped<+T> = To(value: T) | Dropped | Fails

  method MapConstraint(c: Constraint, action: UnmappableConstraintAction, depth: nat) returns (r: Mapped<EngineConstraint>)
    ensures if action.SkipConstraint?
            then r == match Translation(c, depth) case Some(e) => To(e) case None => Dropped
            else if Mappable(c, depth) then Translation(c, depth).Some? && r == To(Translation(c, depth).value)
            else r == Fails
    decreases c
  {
    hide ParseOperator, NormalizeLeftOperand;
    if depth > MAX_CONSTRAINT_DEPTH {
      return if action.SkipConstraint? then Dropped else Fails;
    }
    match c {
      case Atomic(left, operator, right) =>
        match ParseOperator(operator) {
          case Some(op) => r := To(EngineAtomic(NormalizeLeftOperand(left), op, right));
          case None => r := if action.SkipConstraint? then Dropped else Fails;
        }
      case Logical(combinator, children) =>
        var mapped := MapConstraints(children, action, depth + 1);
        match mapped {
          case To(es) => r := To(EngineGroup(combinator, es));
          case _ => r := Fails;
        }
    }
  }

  method MapConstraints(cs: seq<Constraint>, action: UnmappableConstraintAction, depth: nat) returns (r: Mapped<seq<EngineConstraint>>)
    ensures if action.SkipConstraint? || (forall c :: c in cs ==> Mappable(c, depth)) then r == To(Translations(cs, depth)) else r == Fails
    decreases cs
  {
    hide ParseOperator, NormalizeLeftOperand, Mappable, Translation;
    var mapped: seq<EngineConstraint> := [];
    for i := 0 to |cs|
      invariant mapped == Translations(cs[..i], depth)
      invariant action.SkipConstraint? || forall c :: c in cs[..i] ==> Mappable(c, depth)
    {
      assert cs[..i + 1][..i] == cs[..i] && cs[i] in cs;
      var child := MapConstraint(cs[i], action, depth);
      match child {
        case To(e) => mapped := mapped + [e];
        case Dropped =>
        case Fails => return Fails;
      }
    }
    assert cs[..|cs|] == cs;
    r := To(mapped);
  }

  method MapRule(rule: Rule, action: UnmappableConstraintAction) returns (r: Mapped<EngineRule>)
    ensures r == if action.SkipConstraint? || RuleMappable(rule) then To(TranslatedRule(rule)) else Fails
  {
    hide Mappable, Translations, NormalizeAction;
    var constraints := MapConstraints(rule.constraints, action, 0);
    match constraints {
      case To(es) => r := To(EngineRule(NormalizeAction(rule.action), es));
      case _ => r := Fails;
    }
  }

  method MapRules(rules: seq<Rule>, action: UnmappableConstraintAction) returns (r: Mapped<seq<EngineRule>>)
    ensures r == if action.SkipConstraint? || RulesMappable(rules) then To(TranslatedRules(rules)) else Fails
  {
    hide RuleMappable, TranslatedRule;
    var mapped: seq<EngineRule> := [];
    for i := 0 to |rules|
      invariant |mapped| == i && forall j :: 0 <= j < i ==> mapped[j] == TranslatedRule(rules[j])
      invariant action.SkipConstraint? || forall j :: 0 <= j < i ==> RuleMappable(rules[j])
    {
      assert rules[i] in rules;
      var rule := MapRule(rules[i], action);
      match rule {
        case To(e) => mapped := mapped + [e];
        case _ =>
          return Fails;
      }
    }
    assert mapped == TranslatedRules(rules);
    r := To(mapped);
  }

  /** Each rule of `es` says all of what the rule in its place says. */
  ghost predicate RulesFaithful(rules: seq<Rule>, es: seq<EngineRule>) {
    && |es| == |rules|
    && forall i :: 0 <= i < |rules| ==>
         && es[i].action == NormalizeAction(rules[i].action)
         && |es[i].constraints| == |rules[i].constraints|
         && forall k :: 0 <= k < |rules[i].constraints| ==> Faithful(rules[i].constraints[k], es[i].constraints[k])
  }

  lemma FaithfulRules(rules: seq<Rule>)
    ensures RulesMappable(rules) ==> RulesFaithful(rules, TranslatedRules(rules))
  {
    hide Mappable, Faithful, Translations, NormalizeAction;
    if RulesMappable(rules) {
      forall i | 0 <= i < |rules|
        ensures |TranslatedRules(rules)[i].constraints| == |rules[i].constraints|
        ensures forall k :: 0 <= k < |rules[i].constraints| ==> Faithful(rules[i].constraints[k], TranslatedRules(rules)[i].constraints[k])
      {
        assert rules[i] in rules && RuleMappable(rules[i]);
        AllMappableAreFaithful(rules[i].constraints, 0);
      }
    }
  }

  /** `catalog_policy_to_wire_policy`: a policy that cannot be mapped in full
      hides its dataset or is dropped, as configured; under `SkipConstraint`
      nothing can fail, so the source's `unreachable!` is. */
  method MapPolicy(policy: Policy, fallbackId: string, action: UnmappableConstraintAction) returns (r: Mapped<WirePolicy>)
    ensures r == if action.SkipConstraint? || PolicyMappable(policy) then To(WireOf(policy, fallbackId))
                 else if action.DropPolicy? then Dropped
                 else Fails
    // Every rule stays in its list, with what can be mapped of its constraints.
    ensures r.To? ==> PolicyLeaves(policy, fallbackId, r.value)
    ensures r.To? && !action.SkipConstraint? ==>
              && RulesFaithful(policy.permissions, r.value.permissions)
              && RulesFaithful(policy.prohibitions, r.value.prohibitions)
              && RulesFaithful(policy.obligations, r.value.obligations)
  {
    WireLeaves(policy, fallbackId);
    FaithfulRules(policy.permissions);
    FaithfulRules(policy.prohibitions);
    FaithfulRules(policy.obligations);
    hide RulesMappable, TranslatedRules, PolicyLeaves, RulesFaithful;
    var id := match policy.id case Some(id) => id case None => fallbackId;
    var assigner := match policy.assigner case Some(a) => a case None => "";
    var permissions := MapRules(policy.permissions, action);
    var prohibitions, obligations := Fails, Fails;
    if permissions.To? {
      prohibitions := MapRules(policy.prohibitions, action);
    }
    if prohibitions.To? {
      obligations := MapRules(policy.obligations, action);
    }
    if obligations.To? {
      return To(WirePolicy(id, policy.kind, assigner, policy.assignee, permissions.value, prohibitions.value, obligations.value));
    }
    match action {
      case DropPolicy => r := Dropped;
      case HideDataset => r := Fails;
      case SkipConstraint => assert false;
    }
  }

  // ----- The decision -----

  function RuleActions(rules: seq<EngineRule>): (actions: set<string>) {
    set rule | rule in rules :: rule.action
  }

  function RequestFor(d: Dataset, w: WirePolicy, action: string, claims: Claims, cfg: FilterConfig): (r: EngineRequest) {
    EngineRequest(
      d.id, NormalizeAction(action),
      {NormalizeAction(action)} + RuleActions(w.permissions) + RuleActions(w.prohibitions) + RuleActions(w.obligations),
      cfg.noPolicy, w, claims)
  }

  method BuildRequest(d: Dataset, w: WirePolicy, action: string, claims: Claims, cfg: FilterConfig) returns (r: EngineRequest)
    ensures r == RequestFor(d, w, action, claims, cfg)
    ensures r.datasetId == d.id && r.policy == w && r.claims == claims && r.behaviour == cfg.noPolicy
    // The requested action is declared, and every one a rule mentions.
    ensures r.action == NormalizeAction(action)
    ensures forall a :: a in r.actions <==>
              a == NormalizeAction(action) || exists rule :: rule in w.permissions + w.prohibitions + w.obligations && rule.action == a
  {
    hide NormalizeAction;
    var actions := {NormalizeAction(action)};
    var rules := w.permissions + w.prohibitions + w.obligations;
    for i := 0 to |rules|
      invariant actions == {NormalizeAction(action)} + RuleActions(rules[..i])
    {
      actions := actions + {rules[i].action};
    }
    assert rules[..|rules|] == rules;
    assert RuleActions(rules) == RuleActions(w.permissions) + RuleActions(w.prohibitions) + RuleActions(w.obligations);
    r := EngineRequest(d.id, NormalizeAction(action), actions, cfg.noPolicy, w, claims);
  }

  function FallbackId(d: Dataset, i: nat): (id: string) {
    d.id + "-policy-" + Decimal(i)
  }

  /** No two offers of a dataset are given one id. */
  lemma FallbackIdsDiffer(d: Dataset, i: nat, j: nat)
    requires FallbackId(d, i) == FallbackId(d, j)
    ensures i == j
  {
    hide Decimal;
    var n := |d.id + "-policy-"|;
    assert FallbackId(d, i)[n..] == Decimal(i) && FallbackId(d, j)[n..] == Decimal(j);
    DecimalInjective(i, j);
  }

  /** The engine allows offer `i` of `d`, as far as it could be mapped. */
  predicate OfferAllows(allows: EngineRequest -> bool, d: Dataset, i: nat, claims: Claims, action: string, cfg: FilterConfig)
    requires i < |d.policies|
  {
    && (cfg.unmappable.SkipConstraint? || PolicyMappable(d.policies[i]))
    && allows(RequestFor(d, WireOf(d.policies[i], FallbackId(d, i)), action, claims, cfg))
  }

  /** Offers are alternatives. Under `HideDataset` an offer counts only when
      every offer before it could be mapped. */
  predicate Visible(allows: EngineRequest -> bool, d: Dataset, claims: Claims, action: string, cfg: FilterConfig) {
    if d.policies == [] then cfg.noPolicy == Open
    else
      exists i :: 0 <= i < |d.policies| && OfferAllows(allows, d, i, claims, action, cfg)
                  && (cfg.unmappable.HideDataset? ==> forall j :: 0 <= j < i ==> PolicyMappable(d.policies[j]))
  }

  method DatasetIsVisible(allows: EngineRequest -> bool, d: Dataset, claims: Claims, action: string, cfg: FilterConfig)
    returns (visible: bool)
    ensures visible == Visible(allows, d, claims, action, cfg)
  {
    hide PolicyMappable, WireOf, RequestFor, Decimal;
    if d.policies == [] {
      return cfg.noPolicy == Open;
    }
    for i := 0 to |d.policies|
      invariant forall j :: 0 <= j < i ==> !OfferAllows(allows, d, j, claims, action, cfg)
      invariant cfg.unmappable.HideDataset? ==> forall j :: 0 <= j < i ==> PolicyMappable(d.policies[j])
    {
      var wire := MapPolicy(d.policies[i], FallbackId(d, i), cfg.unmappable);
      match wire {
        case Fails => return false;
        case Dropped =>
        case To(w) =>
          var request := BuildRequest(d, w, action, claims, cfg);
          if allows(request) {
            assert OfferAllows(allows, d, i, claims, action, cfg);
            return true;
          }
      }
    }
    visible := false;
  }

  // ----- Nothing unmappable is evaluated -----

  /** `e` says all of what `c` says: the same groups with as many children, the
      operators as spelled. */
  predicate Faithful(c: Constraint, e: EngineConstraint) {
    match (c, e)
    case (Atomic(left, operator, right), EngineAtomic(left', op, right')) =>
      left' == NormalizeLeftOperand(left) && Some(op) == ParseOperator(operator) && right' == right
    case (Logical(combinator, children), EngineGroup(combinator', children')) =>
      combinator' == combinator && |children'| == |children| && forall i :: 0 <= i < |children| ==> Faithful(children[i], children'[i])
    case _ => false
  }

  lemma {:induction false} MappableIsFaithful(c: Constraint, depth: nat)
    requires Mappable(c, depth)
    ensures Translation(c, depth).Some? && Faithful(c, Translation(c, depth).value)
    decreases c
  {
    hide ParseOperator, NormalizeLeftOperand;
    if c.Logical? {
      AllMappableAreFaithful(c.children, depth + 1);
    }
  }

  lemma {:induction false} AllMappableAreFaithful(cs: seq<Constraint>, depth: nat)
    requires forall c :: c in cs ==> Mappable(c, depth)
    ensures |Translations(cs, depth)| == |cs|
    ensures forall i :: 0 <= i < |cs| ==> Faithful(cs[i], Translations(cs, depth)[i])
    decreases cs
  {
    hide Mappable, Faithful, Translation;
    if cs != [] {
      var n := |cs| - 1;
      AllMappableAreFaithful(cs[..n], depth);
      assert cs[n] in cs;
      MappableIsFaithful(cs[n], depth);
    }
  }

  lemma {:induction false} MarkerIsUnmappable(c: Constraint, depth: nat)
    requires HasMarker(c)
    ensures !Mappable(c, depth)
    decreases c
  {
    hide ParseOperator;
    MarkerHasNoOperator();
    if c.Logical? {
      var child :| child in c.children && HasMarker(child);
      MarkerIsUnmappable(child, depth + 1);
    }
  }

  lemma MarkedRulesAreUnmappable(rules: seq<Rule>)
    requires RulesHaveMarker(rules)
    ensures !RulesMappable(rules)
  {
    hide Mappable, HasMarker;
    var rule :| rule in rules && RuleHasMarker(rule);
    var c :| c in rule.constraints && HasMarker(c);
    MarkerIsUnmappable(c, 0);
  }

  /** A marker anywhere in a policy makes the mapper refuse it. */
  lemma MarkedPolicyIsUnmappable(policy: Policy)
    requires PolicyHasMarker(policy)
    ensures !PolicyMappable(policy)
  {
    hide RulesMappable, RulesHaveMarker;
    if RulesHaveMarker(policy.permissions) {
      MarkedRulesAreUnmappable(policy.permissions);
    } else if RulesHaveMarker(policy.prohibitions) {
      MarkedRulesAreUnmappable(policy.prohibitions);
    } else {
      MarkedRulesAreUnmappable(policy.obligations);
    }
  }

  /** An offer with a marker in it never lets a caller in, unless constraints
      are configured to be skipped; and under `HideDataset` no offer after it
      does. */
  lemma MarkedOfferNeverAllows(
    allows: EngineRequest -> bool, d: Dataset, i: nat, claims: Claims, action: string, cfg: FilterConfig)
    requires i < |d.policies| && PolicyHasMarker(d.policies[i]) && !cfg.unmappable.SkipConstraint?
    ensures !OfferAllows(allows, d, i, claims, action, cfg)
    ensures cfg.unmappable.HideDataset? && Visible(allows, d, claims, action, cfg) ==>
              exists k :: 0 <= k < i && OfferAllows(allows, d, k, claims, action, cfg)
  {
    hide PolicyMappable, RequestFor, WireOf, PolicyHasMarker;
    MarkedPolicyIsUnmappable(d.policies[i]);
  }

  lemma WithoutAnAllowingOffer(allows: EngineRequest -> bool, d: Dataset, claims: Claims, action: string, cfg: FilterConfig)
    requires forall i: nat :: i < |d.policies| ==> !OfferAllows(allows, d, i, claims, action, cfg)
    ensures Visible(allows, d, claims, action, cfg) <==> d.policies == [] && cfg.noPolicy == Open
  {
    hide OfferAllows;
  }

  // ----- Offers are alternatives -----

  /** The engine does not look at what a policy is called. */
  ghost predicate IdBlind(allows: EngineRequest -> bool) {
    forall r: EngineRequest, id: string :: allows(r.(policy := r.policy.(id := id))) == allows(r)
  }

  /** The order of a dataset's offers does not matter when unmappable content
      is skipped or drops its own offer. An offer without an id is given one
      from its position, which the engine must then not look at. */
  lemma OrderOfOffersIsIrrelevant(
    allows: EngineRequest -> bool, d: Dataset, d': Dataset, claims: Claims, action: string, cfg: FilterConfig)
    requires !cfg.unmappable.HideDataset?
    requires d' == d.(policies := d'.policies) && multiset(d'.policies) == multiset(d.policies)
    requires IdBlind(allows) || forall p :: p in d.policies ==> p.id.Some?
    ensures Visible(allows, d', claims, action, cfg) == Visible(allows, d, claims, action, cfg)
  {
    assert forall p :: p in d.policies <==> p in multiset(d.policies);
    assert forall p :: p in d'.policies <==> p in multiset(d'.policies);
    assert |d.policies| == |multiset(d.policies)| == |multiset(d'.policies)| == |d'.policies|;
    if Visible(allows, d, claims, action, cfg) {
      VisibleElsewhere(allows, d, d', claims, action, cfg);
    }
    if Visible(allows, d', claims, action, cfg) {
      VisibleElsewhere(allows, d', d, claims, action, cfg);
    }
  }

  lemma VisibleElsewhere(
    allows: EngineRequest -> bool, d: Dataset, d': Dataset, claims: Claims, action: string, cfg: FilterConfig)
    requires !cfg.unmappable.HideDataset? && d' == d.(policies := d'.policies)
    requires (forall p :: p in d.policies ==> p in d'.policies) && (d.policies == [] ==> d'.policies == [])
    requires IdBlind(allows) || forall p :: p in d.policies ==> p.id.Some?
    requires Visible(allows, d, claims, action, cfg)
    ensures Visible(allows, d', claims, action, cfg)
  {
    hide PolicyMappable, Decimal, NormalizeAction, TranslatedRules, RuleActions;
    if d.policies != [] {
      var i :| 0 <= i < |d.policies| && OfferAllows(allows, d, i, claims, action, cfg);
      assert d.policies[i] in d'.policies;
      var j :| 0 <= j < |d'.policies| && d'.policies[j] == d.policies[i];
      var w, w' := WireOf(d.policies[i], FallbackId(d, i)), WireOf(d'.policies[j], FallbackId(d', j));
      var r, r' := RequestFor(d, w, action, claims, cfg), RequestFor(d', w', action, claims, cfg);
      assert r' == r.(policy := r.policy.(id := w'.id));
      assert OfferAllows(allows, d', j, claims, action, cfg);
    }
  }

  /** What the documentation says of `HideDataset`: one unmappable offer hides
      the dataset, regardless of its other offers. */
  predicate DocumentedHide(allows: EngineRequest -> bool, d: Dataset, claims: Claims, action: string, cfg: FilterConfig) {
    && (forall j :: 0 <= j < |d.policies| ==> PolicyMappable(d.policies[j]))
    && (d.policies == [] ==> cfg.noPolicy == Open)
    && (d.policies != [] ==> exists i :: 0 <= i < |d.policies| && OfferAllows(allows, d, i, claims, action, cfg))
  }

  predicate FirstUnmappable(d: Dataset, k: nat)
    requires k < |d.policies|
  {
    !PolicyMappable(d.policies[k]) && forall j :: 0 <= j < k ==> PolicyMappable(d.policies[j])
  }

  lemma {:induction false} SomeFirstUnmappable(d: Dataset, n: nat)
    requires n < |d.policies| && !PolicyMappable(d.policies[n])
    ensures exists k :: 0 <= k <= n && FirstUnmappable(d, k)
  {
    hide PolicyMappable;
    if j: nat :| j < n && !PolicyMappable(d.policies[j]) {
      SomeFirstUnmappable(d, j);
    } else {
      assert FirstUnmappable(d, n);
    }
  }

  /** The code stops at the first offer that allows, so it differs from its
      documentation exactly when one stands before the first unmappable offer. */
  lemma HideDatasetIsAboutTheOffersBefore(
    allows: EngineRequest -> bool, d: Dataset, claims: Claims, action: string, cfg: FilterConfig)
    requires cfg.unmappable.HideDataset?
    ensures DocumentedHide(allows, d, claims, action, cfg) ==> Visible(allows, d, claims, action, cfg)
    ensures Visible(allows, d, claims, action, cfg) == DocumentedHide(allows, d, claims, action, cfg) <==>
            !exists k, i :: 0 <= i < k < |d.policies| && FirstUnmappable(d, k) && OfferAllows(allows, d, i, claims, action, cfg)
  {
    hide PolicyMappable, RequestFor, WireOf, FallbackId;
    if Visible(allows, d, claims, action, cfg) && !DocumentedHide(allows, d, claims, action, cfg) {
      var i :| 0 <= i < |d.policies| && OfferAllows(allows, d, i, claims, action, cfg)
               && forall j :: 0 <= j < i ==> PolicyMappable(d.policies[j]);
      var n: nat :| n < |d.policies| && !PolicyMappable(d.policies[n]);
      SomeFirstUnmappable(d, n);
      var k :| 0 <= k <= n && FirstUnmappable(d, k);
      assert i < k;
    }
  }

  /** Whatever the engine: the code does what its documentation says exactly
      when every offer can be mapped, or the first one already cannot. */
  lemma HideDatasetIsAsDocumentedExactlyWhen(d: Dataset, claims: Claims, action: string, cfg: FilterConfig)
    requires cfg.unmappable.HideDataset?
    ensures (forall allows :: Visible(allows, d, claims, action, cfg) == DocumentedHide(allows, d, claims, action, cfg)) <==>
            (forall p :: p in d.policies ==> PolicyMappable(p)) || !PolicyMappable(d.policies[0])
  {
    hide PolicyMappable, RequestFor, WireOf, FallbackId, Visible, DocumentedHide;
    var all := (r: EngineRequest) => true;
    if forall p :: p in d.policies ==> PolicyMappable(p) {
      forall allows ensures Visible(allows, d, claims, action, cfg) == DocumentedHide(allows, d, claims, action, cfg) {
        HideDatasetIsAboutTheOffersBefore(allows, d, claims, action, cfg);
        assert forall k :: 0 <= k < |d.policies| ==> d.policies[k] in d.policies;
      }
    } else if !PolicyMappable(d.policies[0]) {
      forall allows ensures Visible(allows, d, claims, action, cfg) == DocumentedHide(allows, d, claims, action, cfg) {
        HideDatasetIsAboutTheOffersBefore(allows, d, claims, action, cfg);
      }
    } else {
      var p :| p in d.policies && !PolicyMappable(p);
      var n :| 0 <= n < |d.policies| && d.policies[n] == p;
      SomeFirstUnmappable(d, n);
      var k :| 0 <= k <= n && FirstUnmappable(d, k);
      assert OfferAllows(all, d, 0, claims, action, cfg);
      HideDatasetIsAboutTheOffersBefore(all, d, claims, action, cfg);
    }
  }

  /** A visible dataset with an unmappable offer. */
  lemma AllowingOfferFirst(claims: Claims, action: string)
    ensures var empty := Policy(None, Set, None, None, [], [], []);
            var marked := Policy(None, Set, None, None, [], [], [Rule("odrl:use", [Unmappable("")])]);
            var d := Dataset("d", map[], [], [empty, marked]);
            var cfg := FilterConfig(HideDataset, Open);
            Visible(r => true, d, claims, action, cfg) && !DocumentedHide(r => true, d, claims, action, cfg)
  {
    var empty := Policy(None, Set, None, None, [], [], []);
    var rule := Rule("odrl:use", [Unmappable("")]);
    var marked := Policy(None, Set, None, None, [], [], [rule]);
    var d := Dataset("d", map[], [], [empty, marked]);
    var cfg := FilterConfig(HideDataset, Open);
    assert PolicyMappable(empty);
    hide RequestFor, WireOf, FallbackId, Mappable;
    assert OfferAllows(r => true, d, 0, claims, action, cfg);
    assert rule.constraints[0] in rule.constraints && HasMarker(rule.constraints[0]);
    assert marked.obligations[0] in marked.obligations;
    MarkedPolicyIsUnmappable(marked);
    assert d.policies[1] == marked;
  }
}
