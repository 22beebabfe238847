/** The domain types of `catalog-core`. */
module CatalogCore {
  import opened Text

  datatype Result<+T> = Ok(value: T) | Err {
    predicate IsFailure() { Err? }
    function PropagateFailure<U>(): (r: Result<U>)
      requires Err?
    {
      Err
    }
    function Extract(): (r: T)
      requires Ok?
    {
      value
    }
  }

  datatype Distribution = Distribution(format: string, accessService: string)

  datatype DataService = DataService(id: string, endpointUrl: string, endpointDescription: Option<string>)

  datatype PolicyKind = Set | Offer | Agreement

  datatype Combinator = And | Or | Xone | AndSequence

  datatype Constraint =
    | Atomic(leftOperand: string, operator: string, rightOperand: string)
    | Logical(combinator: Combinator, children: seq<Constraint>)

  datatype Rule = Rule(action: string, constraints: seq<Constraint>)

  datatype Policy = Policy(
    id: Option<string>, kind: PolicyKind, assigner: Option<string>, assignee: Option<string>,
    permissions: seq<Rule>, prohibitions: seq<Rule>, obligations: seq<Rule>)

  datatype Dataset = Dataset(
    id: string, properties: map<string, string>, distributions: seq<Distribution>, policies: seq<Policy>)

  datatype Catalog = Catalog(
    id: string, originNode: string, participantId: Option<string>,
    datasets: seq<Dataset>, dataServices: seq<DataService>, properties: map<string, string>)

  const MAX_CONSTRAINT_DEPTH := 64

  /** `LOGICAL_CONSTRAINT_BUILDERS`: the order in which a group's key is looked for. */
  const COMBINATORS: seq<Combinator> := [Xone, Or, And, AndSequence]

  function CombinatorName(c: Combinator): (name: string) {
    match c
    case And => "and"
    case Or => "or"
    case Xone => "xone"
    case AndSequence => "andSequence"
  }

  const UNMAPPABLE_OPERATOR := "urn:ds42:broker:unmappable"
  const UNMAPPABLE_ACTION := "urn:ds42:broker:unmappable-action"
  const UNMAPPABLE_EXCERPT_MAX := 256
  const ODRL_NS := "http://www.w3.org/ns/odrl/2/"

  /** The marker kept in place of policy content that could not be read. */
  function Unmappable(raw: string): (c: Constraint) {
    Atomic("", UNMAPPABLE_OPERATOR, if |raw| <= UNMAPPABLE_EXCERPT_MAX then raw else raw[..UNMAPPABLE_EXCERPT_MAX])
  }

  /** The one spelling of an ODRL action. */
  function NormalizeAction(action: string): (r: string) {
    if action == "" then ""
    else if ODRL_NS <= action then "odrl:" + action[|ODRL_NS|..]
    else if ':' in action then action
    else "odrl:" + action
  }

  lemma NormalizeActionIdempotent(action: string)
    ensures NormalizeAction(NormalizeAction(action)) == NormalizeAction(action)
  {
    var n := NormalizeAction(action);
    assert |n| >= 5 && n[..5] == "odrl:" ==> n[0] == 'o' && n[4] == ':';
    assert ODRL_NS[0] == 'h';
  }

  /** The three spellings of an ODRL action are one; an IRI of another vocabulary
      stays as it is. */
  lemma ActionSpellings(n: string)
    requires n != ""
    ensures ':' !in n ==> NormalizeAction(n) == NormalizeAction("odrl:" + n) == NormalizeAction(ODRL_NS + n) == "odrl:" + n
    ensures ':' in n && !(ODRL_NS <= n) ==> NormalizeAction(n) == n
  {
    var prefixed, full := "odrl:" + n, ODRL_NS + n;
    assert prefixed[0] == 'o' && prefixed[4] == ':' && ODRL_NS[0] == 'h' && ODRL_NS[4] == ':';
    assert full[|ODRL_NS|..] == n;
    assert ODRL_NS <= n ==> n[4] == ':';
  }

  /** Whether `c`, standing at `depth`, nests no deeper than the bound. */
  predicate Fits(c: Constraint, depth: nat) {
    depth <= MAX_CONSTRAINT_DEPTH
    && (c.Logical? ==> forall child :: child in c.children ==> Fits(child, depth + 1))
  }

  predicate RuleFits(rule: Rule) {
    forall c :: c in rule.constraints ==> Fits(c, 0)
  }

  predicate RulesFit(rules: seq<Rule>) {
    forall rule :: rule in rules ==> RuleFits(rule)
  }

  predicate PolicyFits(policy: Policy) {
    RulesFit(policy.permissions) && RulesFit(policy.prohibitions) && RulesFit(policy.obligations)
  }

  predicate DatasetFits(dataset: Dataset) {
    forall policy :: policy in dataset.policies ==> PolicyFits(policy)
  }

  predicate CatalogFits(catalog: Catalog) {
    forall dataset :: dataset in catalog.datasets ==> DatasetFits(dataset)
  }
}
