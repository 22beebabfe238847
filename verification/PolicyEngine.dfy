/** The standalone three-valued engine (`policy-engine`): prohibitions fail
    closed, and offers combine with deny-overrides. */
module PolicyEngine {
  import opened Text

  datatype FlatConstraint = FlatConstraint(leftOperand: string, operator: string, rightOperand: string)

  datatype FlatRule = FlatRule(action: string, constraints: seq<FlatConstraint>)

  datatype FlatPolicy = FlatPolicy(permissions: seq<FlatRule>, prohibitions: seq<FlatRule>)

  datatype ClaimValue = Single(value: string) | List(values: seq<string>)

  type Claims = map<string, ClaimValue>

  datatype Outcome = Match | Miss | Unevaluable

  datatype Decision = Allow | Deny

  predicate Contains(v: ClaimValue, needle: string) {
    match v
    case Single(s) => s == needle
    case List(values) => needle in values
  }

  predicate ContainsAny(v: ClaimValue, candidates: seq<string>) {
    exists c :: c in candidates && Contains(v, c)
  }

  /** The pieces of `s` between commas; `piece` is the one being read. */
  function SplitAtCommas(s: string, piece: string): (pieces: seq<string>) {
    if s == "" then [piece]
    else if s[0] == ',' then [piece] + SplitAtCommas(s[1..], "")
    else SplitAtCommas(s[1..], piece + [s[0]])
  }

  function NonEmptyTrimmed(pieces: seq<string>, trim: string -> string): (r: seq<string>) {
    if pieces == [] then []
    else (if trim(pieces[0]) == "" then [] else [trim(pieces[0])]) + NonEmptyTrimmed(pieces[1..], trim)
  }

  /** The candidates of `isAnyOf`; `trim` takes white space off both ends. */
  function Candidates(right: string, trim: string -> string): (r: seq<string>) {
    NonEmptyTrimmed(SplitAtCommas(right, ""), trim)
  }

  /** An absent claim or an unknown operator cannot be evaluated. */
  function ConstraintOutcome(c: FlatConstraint, claims: Claims, trim: string -> string): (r: Outcome) {
    if c.leftOperand !in claims then Unevaluable
    else
      var value := claims[c.leftOperand];
      if c.operator == "eq" then if Contains(value, c.rightOperand) then Match else Miss
      else if c.operator == "neq" then if Contains(value, c.rightOperand) then Miss else Match
      else if c.operator == "isAnyOf" then if ContainsAny(value, Candidates(c.rightOperand, trim)) then Match else Miss
      else Unevaluable
  }

  predicate SomeOutcome(rule: FlatRule, claims: Claims, trim: string -> string, wanted: Outcome) {
    exists c :: c in rule.constraints && ConstraintOutcome(c, claims, trim) == wanted
  }

  /** Three-valued conjunction, without an order. */
  function Conjunction(rule: FlatRule, claims: Claims, trim: string -> string): (r: Outcome) {
    if SomeOutcome(rule, claims, trim, Miss) then Miss
    else if SomeOutcome(rule, claims, trim, Unevaluable) then Unevaluable
    else Match
  }

  /** `rule_outcome`: stops at the first definite miss. */
  method RuleOutcome(rule: FlatRule, claims: Claims, trim: string -> string) returns (outcome: Outcome)
    ensures outcome == Conjunction(rule, claims, trim)
  {
    hide ConstraintOutcome;
    outcome := Match;
    for i := 0 to |rule.constraints|
      invariant outcome != Miss
      invariant forall j :: 0 <= j < i ==> ConstraintOutcome(rule.constraints[j], claims, trim) != Miss
      invariant outcome == Unevaluable <==> exists j :: 0 <= j < i && ConstraintOutcome(rule.constraints[j], claims, trim) == Unevaluable
    {
      assert rule.constraints[i] in rule.constraints;
      var r := ConstraintOutcome(rule.constraints[i], claims, trim);
      match r {
        case Miss => return Miss;
        case Unevaluable => outcome := Unevaluable;
        case Match =>
      }
    }
    assert !SomeOutcome(rule, claims, trim, Miss);
  }

  predicate IsProhibition(policies: seq<FlatPolicy>, rule: FlatRule) {
    exists p :: p in policies && rule in p.prohibitions
  }

  predicate IsPermission(policies: seq<FlatPolicy>, rule: FlatRule) {
    exists p :: p in policies && rule in p.permissions
  }

  /** A prohibition that is not a definite miss denies; without permissions all
      is allowed; otherwise some permission must definitely match. */
  ghost predicate Allowed(policies: seq<FlatPolicy>, claims: Claims, trim: string -> string) {
    && (forall rule :: IsProhibition(policies, rule) ==> Conjunction(rule, claims, trim) == Miss)
    && ((exists rule :: IsPermission(policies, rule)) ==>
          exists rule :: IsPermission(policies, rule) && Conjunction(rule, claims, trim) == Match)
  }

  /** One pass over the prohibitions of one policy. */
  method Prohibits(p: FlatPolicy, claims: Claims, trim: string -> string) returns (denies: bool)
    ensures denies <==> exists rule :: rule in p.prohibitions && Conjunction(rule, claims, trim) != Miss
  {
    hide Conjunction;
    for i := 0 to |p.prohibitions|
      invariant forall j :: 0 <= j < i ==> Conjunction(p.prohibitions[j], claims, trim) == Miss
    {
      var outcome := RuleOutcome(p.prohibitions[i], claims, trim);
      if outcome != Miss {
        assert p.prohibitions[i] in p.prohibitions;
        return true;
      }
    }
    denies := false;
  }

  method Permits(p: FlatPolicy, claims: Claims, trim: string -> string) returns (allows: bool)
    ensures allows <==> exists rule :: rule in p.permissions && Conjunction(rule, claims, trim) == Match
  {
    hide Conjunction;
    for i := 0 to |p.permissions|
      invariant forall j :: 0 <= j < i ==> Conjunction(p.permissions[j], claims, trim) != Match
    {
      var outcome := RuleOutcome(p.permissions[i], claims, trim);
      if outcome == Match {
        assert p.permissions[i] in p.permissions;
        return true;
      }
    }
    allows := false;
  }

  method Evaluate(policies: seq<FlatPolicy>, claims: Claims, trim: string -> string) returns (decision: Decision)
    ensures decision == if Allowed(policies, claims, trim) then Allow else Deny
  {
    hide Conjunction;
    for i := 0 to |policies|
      invariant forall j, rule :: 0 <= j < i && rule in policies[j].prohibitions ==> Conjunction(rule, claims, trim) == Miss
    {
      var denies := Prohibits(policies[i], claims, trim);
      if denies {
        assert policies[i] in policies;
        var rule :| rule in policies[i].prohibitions && Conjunction(rule, claims, trim) != Miss;
        assert IsProhibition(policies, rule);
        return Deny;
      }
    }
    var declared := exists p :: p in policies && p.permissions != [];
    if !declared {
      return Allow;
    }
    ghost var p :| p in policies && p.permissions != [];
    assert IsPermission(policies, p.permissions[0]);
    for i := 0 to |policies|
      invariant forall j, rule :: 0 <= j < i && rule in policies[j].permissions ==> Conjunction(rule, claims, trim) != Match
    {
      var allows := Permits(policies[i], claims, trim);
      if allows {
        assert policies[i] in policies;
        ghost var rule :| rule in policies[i].permissions && Conjunction(rule, claims, trim) == Match;
        assert IsPermission(policies, rule);
        return Allow;
      }
    }
    decision := Deny;
  }

  /** The decision depends on which rules are attached, not on the order of
      policies or rules, nor on which policy a rule is in. */
  lemma OrderIsIrrelevant(ps: seq<FlatPolicy>, qs: seq<FlatPolicy>, claims: Claims, trim: string -> string)
    requires forall rule :: IsProhibition(ps, rule) <==> IsProhibition(qs, rule)
    requires forall rule :: IsPermission(ps, rule) <==> IsPermission(qs, rule)
    ensures Allowed(ps, claims, trim) <==> Allowed(qs, claims, trim)
  {
    hide Conjunction, IsProhibition, IsPermission;
  }

  lemma MoreClaimsKeepOutcomes(rule: FlatRule, claims: Claims, more: Claims, trim: string -> string)
    requires forall name :: name in claims ==> name in more && more[name] == claims[name]
    ensures Conjunction(rule, claims, trim) != Unevaluable ==> Conjunction(rule, more, trim) == Conjunction(rule, claims, trim)
  {
    hide Candidates, ContainsAny, Contains;
    forall c | c in rule.constraints && ConstraintOutcome(c, claims, trim) != Unevaluable
      ensures ConstraintOutcome(c, more, trim) == ConstraintOutcome(c, claims, trim)
    {
    }
    hide ConstraintOutcome;
  }

  /** Presenting further claims never turns an `Allow` into a `Deny`. */
  lemma MoreClaimsNeverDeny(policies: seq<FlatPolicy>, claims: Claims, more: Claims, trim: string -> string)
    requires forall name :: name in claims ==> name in more && more[name] == claims[name]
    requires Allowed(policies, claims, trim)
    ensures Allowed(policies, more, trim)
  {
    hide Conjunction, IsProhibition, IsPermission;
    forall rule {
      MoreClaimsKeepOutcomes(rule, claims, more, trim);
    }
  }

  // ----- What each operator asks of a claim -----

  /** A maximal stretch of `s` without a comma. */
  predicate PieceAt(s: string, i: nat, j: nat) {
    && i <= j <= |s| && (forall k :: i <= k < j ==> s[k] != ',')
    && (i == 0 || s[i - 1] == ',') && (j == |s| || s[j] == ',')
  }

  ghost predicate IsPiece(s: string, p: string) {
    exists i: nat, j: nat :: PieceAt(s, i, j) && p == s[i..j]
  }

  lemma OnlyPiece(s: string)
    requires CommaFree(s)
    ensures forall p :: IsPiece(s, p) <==> p == s
  {
    assert PieceAt(s, 0, |s|) && s[0..|s|] == s;
  }

  predicate CommaFree(s: string) {
    forall k :: 0 <= k < |s| ==> s[k] != ','
  }

  /** Behind a comma, the pieces of `rest` stay pieces. */
  lemma PieceMoves(before: string, rest: string, i: nat, j: nat)
    requires before != "" && before[|before| - 1] == ',' && i <= j <= |rest|
    ensures PieceAt(before + rest, |before| + i, |before| + j) <==> PieceAt(rest, i, j)
    ensures (before + rest)[|before| + i..|before| + j] == rest[i..j]
  {
    var s, n := before + rest, |before|;
    assert s[n - 1] == before[n - 1];
    assert forall k :: 0 <= k < |rest| ==> s[n + k] == rest[k];
    if PieceAt(rest, i, j) {
      assert forall k :: n + i <= k < n + j ==> s[k] == rest[k - n];
    }
  }

  lemma PieceBefore(piece: string, rest: string, i: nat, j: nat)
    requires CommaFree(piece) && i <= |piece|
    ensures PieceAt(piece + "," + rest, i, j) <==> i == 0 && j == |piece|
  {
    var s := piece + "," + rest;
    assert forall k :: 0 <= k < |piece| ==> s[k] == piece[k];
    assert s[|piece|] == ',';
  }

  lemma FirstPiece(piece: string, rest: string, p: string)
    requires CommaFree(piece)
    ensures IsPiece(piece + "," + rest, p) <==> p == piece || IsPiece(rest, p)
  {
    hide CommaFree;
    var before := piece + ",";
    var s, n := before + rest, |before|;
    PieceBefore(piece, rest, 0, |piece|);
    assert s[0..|piece|] == piece;
    if i: nat, j: nat :| PieceAt(rest, i, j) && p == rest[i..j] {
      PieceMoves(before, rest, i, j);
    }
    if i: nat, j: nat :| PieceAt(s, i, j) && p == s[i..j] && p != piece {
      if i < n {
        PieceBefore(piece, rest, i, j);
      }
      PieceMoves(before, rest, i - n, j - n);
    }
  }

  lemma {:induction false} PiecesAre(s: string, piece: string)
    requires CommaFree(piece)
    ensures forall p :: p in SplitAtCommas(s, piece) <==> IsPiece(piece + s, p)
    decreases |s|
  {
    hide IsPiece;
    if s == "" {
      assert piece + s == piece;
      OnlyPiece(piece);
    } else if s[0] == ',' {
      assert piece + s == piece + "," + s[1..] && "" + s[1..] == s[1..];
      PiecesAre(s[1..], "");
      forall p {
        FirstPiece(piece, s[1..], p);
      }
    } else {
      assert piece + s == (piece + [s[0]]) + s[1..];
      PiecesAre(s[1..], piece + [s[0]]);
    }
  }

  lemma {:induction false} TrimmedAre(pieces: seq<string>, trim: string -> string)
    ensures forall c :: c in NonEmptyTrimmed(pieces, trim) <==> c != "" && exists p :: p in pieces && trim(p) == c
  {
    if pieces != [] {
      TrimmedAre(pieces[1..], trim);
      assert forall p :: p in pieces <==> p == pieces[0] || p in pieces[1..];
    }
  }

  /** `c` is a candidate of `isAnyOf`: what is left of a piece between commas
      with the white space around it taken off, unless that is nothing. */
  ghost predicate IsCandidate(right: string, trim: string -> string, c: string) {
    c != "" && exists p :: IsPiece(right, p) && trim(p) == c
  }

  lemma CandidatesAre(right: string, trim: string -> string)
    ensures forall c :: c in Candidates(right, trim) <==> IsCandidate(right, trim, c)
  {
    hide IsPiece, SplitAtCommas, NonEmptyTrimmed;
    PiecesAre(right, "");
    assert "" + right == right;
    TrimmedAre(SplitAtCommas(right, ""), trim);
  }

  /** The claim `name` is `s`, or lists it. */
  ghost predicate Claimed(claims: Claims, name: string, s: string) {
    name in claims && (claims[name] == Single(s) || exists values :: claims[name] == List(values) && s in values)
  }

  lemma OperatorsDiffer()
    ensures "eq" != "neq" && "eq" != "isAnyOf" && "neq" != "isAnyOf"
  {
    assert |"eq"| == 2 && |"neq"| == 3 && |"isAnyOf"| == 7;
  }

  /** What one constraint asks: `eq` that the claim is or lists the operand,
      `neq` that it is there and does not, `isAnyOf` that one of the candidates
      is claimed. Without the claim, or with any other operator, nothing can be
      said; otherwise a constraint that does not match is a definite miss. */
  lemma OneConstraint(action: string, l: string, op: string, v: string, claims: Claims, trim: string -> string)
    ensures var outcome := Conjunction(FlatRule(action, [FlatConstraint(l, op, v)]), claims, trim);
            && (outcome == Unevaluable <==> l !in claims || op !in {"eq", "neq", "isAnyOf"})
            && (op == "eq" ==> (outcome == Match <==> Claimed(claims, l, v)))
            && (op == "neq" ==> (outcome == Match <==> l in claims && !Claimed(claims, l, v)))
            && (op == "isAnyOf" ==> (outcome == Match <==> exists c :: IsCandidate(v, trim, c) && Claimed(claims, l, c)))
  {
    OperatorsDiffer();
    CandidatesAre(v, trim);
    hide IsCandidate, Candidates;
    var c := FlatConstraint(l, op, v);
    var rule := FlatRule(action, [c]);
    assert forall x :: x in rule.constraints <==> x == c;
    assert c in rule.constraints;
    assert Conjunction(rule, claims, trim) == ConstraintOutcome(c, claims, trim);
  }

  function OnePermission(action: string, l: string, op: string, v: string): (policies: seq<FlatPolicy>) {
    [FlatPolicy([FlatRule(action, [FlatConstraint(l, op, v)])], [])]
  }

  function OneProhibition(action: string, l: string, op: string, v: string): (policies: seq<FlatPolicy>) {
    [FlatPolicy([], [FlatRule(action, [FlatConstraint(l, op, v)])])]
  }

  /** So a permission under `eq` lets in exactly those who claim the operand,
      one under `neq` exactly those whose claim is something else; a prohibition
      keeps out exactly the others, and all who lack the claim. */
  lemma OneRuleDecides(action: string, l: string, v: string, claims: Claims, trim: string -> string)
    ensures Allowed(OnePermission(action, l, "eq", v), claims, trim) <==> Claimed(claims, l, v)
    ensures Allowed(OnePermission(action, l, "neq", v), claims, trim) <==> l in claims && !Claimed(claims, l, v)
    ensures Allowed(OneProhibition(action, l, "eq", v), claims, trim) <==> l in claims && !Claimed(claims, l, v)
    ensures Allowed(OneProhibition(action, l, "neq", v), claims, trim) <==> Claimed(claims, l, v)
  {
    OperatorsDiffer();
    OneConstraint(action, l, "eq", v, claims, trim);
    OneConstraint(action, l, "neq", v, claims, trim);
    hide Conjunction, IsCandidate;
    forall op ensures Allowed(OnePermission(action, l, op, v), claims, trim) <==>
                      Conjunction(FlatRule(action, [FlatConstraint(l, op, v)]), claims, trim) == Match
    {
      OnePermissionDecides(action, l, op, v, claims, trim);
    }
    forall op ensures Allowed(OneProhibition(action, l, op, v), claims, trim) <==>
                      Conjunction(FlatRule(action, [FlatConstraint(l, op, v)]), claims, trim) == Miss
    {
      OneProhibitionDecides(action, l, op, v, claims, trim);
    }
  }

  lemma OnePermissionDecides(action: string, l: string, op: string, v: string, claims: Claims, trim: string -> string)
    ensures Allowed(OnePermission(action, l, op, v), claims, trim) <==>
            Conjunction(FlatRule(action, [FlatConstraint(l, op, v)]), claims, trim) == Match
  {
    hide Conjunction;
    var ps := OnePermission(action, l, op, v);
    var rule := FlatRule(action, [FlatConstraint(l, op, v)]);
    assert ps[0] in ps && rule == ps[0].permissions[0];
    assert IsPermission(ps, rule) && forall r :: IsPermission(ps, r) <==> r == rule;
    assert forall r :: !IsProhibition(ps, r);
  }

  lemma OneProhibitionDecides(action: string, l: string, op: string, v: string, claims: Claims, trim: string -> string)
    ensures Allowed(OneProhibition(action, l, op, v), claims, trim) <==>
            Conjunction(FlatRule(action, [FlatConstraint(l, op, v)]), claims, trim) == Miss
  {
    hide Conjunction;
    var ps := OneProhibition(action, l, op, v);
    var rule := FlatRule(action, [FlatConstraint(l, op, v)]);
    assert ps[0] in ps && rule == ps[0].prohibitions[0];
    assert IsProhibition(ps, rule) && forall r :: IsProhibition(ps, r) <==> r == rule;
    assert forall r :: !IsPermission(ps, r);
  }
}
