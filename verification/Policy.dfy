/** Permission requests against a policy: the never-auto floor, and below it the
    first rule that matches.

    Classifying a command line and matching a regular expression are not part of
    this model: a request comes with its verdict, and with the patterns that
    compile and match its command. */
module Policy {
  import opened Wrappers

  datatype SafetyClass =
    | Benign | NetworkEgress | Privilege | IrreversibleRemote
    | Destructive | CredentialRead | Obfuscated | Unparseable

  /** From the most to the least benign. */
  function Severity(c: SafetyClass): nat {
    match c
    case Benign => 0
    case NetworkEgress => 1
    case Privilege => 2
    case IrreversibleRemote => 3
    case Destructive => 4
    case CredentialRead => 5
    case Obfuscated => 6
    case Unparseable => 7
  }

  /** What the terminal does with a class that a person types. */
  datatype Decision = Allow | Warn | Confirm | Block

  function Strength(d: Decision): nat {
    match d
    case Allow => 0
    case Warn => 1
    case Confirm => 2
    case Block => 3
  }

  datatype Safety = Safety(destructive: Decision, irreversibleRemote: Decision, credentialRead: Decision,
                           networkEgress: Decision, privilege: Decision, obfuscated: Decision,
                           unparseable: Decision, protectedBranches: seq<string>)

  function DecisionFor(s: Safety, c: SafetyClass): Decision {
    match c
    case Benign => Allow
    case NetworkEgress => s.networkEgress
    case Privilege => s.privilege
    case IrreversibleRemote => s.irreversibleRemote
    case Destructive => s.destructive
    case CredentialRead => s.credentialRead
    case Obfuscated => s.obfuscated
    case Unparseable => s.unparseable
  }

  /** What a rule decides for an agent. */
  datatype Decide = Approve | Ask | Deny

  /** Absent fields match anything; `tool` lists the names that match. */
  datatype Matcher = Matcher(repo: Option<string>, tool: Option<seq<string>>, command: Option<string>,
                             inWorktree: Option<bool>, outsideWorktree: Option<bool>)

  datatype Rule = Rule(name: string, matcher: Matcher, decide: Decide)

  datatype Autonomy = Autonomy(enabled: bool, dryRun: bool, watchdog: bool, loopDetect: bool,
                               taskQueue: bool, rules: seq<Rule>)

  datatype EgressMode = Nothing | Redacted | Full

  datatype Egress = Egress(mode: EgressMode, allowProviders: seq<string>, maxContextBytes: Option<nat>,
                           neverPaths: seq<string>, neverCommands: seq<string>)

  datatype Policy = Policy(safety: Safety, autonomy: Autonomy, egress: Egress)

  // ----- the floor

  datatype Finding = Finding(safetyClass: SafetyClass, token: string, detail: string, outsideWorktree: bool,
      protectedBranch: bool)

  datatype Verdict = Verdict(safetyClass: SafetyClass, findings: seq<Finding>, parseError: Option<string>)

  datatype FloorReason =
    | DestructiveOutsideWorktree(token: string)
    | ReadsCredentials(token: string)
    | IsObfuscated(token: string)
    | ForcePushProtected(token: string)
    | GenericAdapter
    | ParseFailed(detail: string)

  /** The reason one finding gives, if it is on the floor. */
  function ReasonOf(f: Finding): Option<FloorReason> {
    match f.safetyClass
    case Unparseable => Some(ParseFailed(f.detail))
    case Obfuscated => Some(IsObfuscated(f.token))
    case CredentialRead => Some(ReadsCredentials(f.token))
    case Destructive => if f.outsideWorktree then Some(DestructiveOutsideWorktree(f.token)) else None
    case IrreversibleRemote => if f.protectedBranch then Some(ForcePushProtected(f.token)) else None
    case _ => None
  }

  function FirstReason(findings: seq<Finding>): Option<FloorReason> {
    if findings == [] then None
    else if ReasonOf(findings[0]).Some? then ReasonOf(findings[0])
    else FirstReason(findings[1..])
  }

  function Floor(verdict: Verdict, generic: bool): Option<FloorReason> {
    if generic then Some(GenericAdapter)
    else if verdict.parseError.Some? then Some(ParseFailed(verdict.parseError.value))
    else FirstReason(verdict.findings)
  }

  /** What the reason must say of a finding, by its class. */
  predicate Names(reason: FloorReason, f: Finding) {
    && (f.safetyClass.Unparseable? ==> reason == ParseFailed(f.detail))
    && (f.safetyClass.Obfuscated? ==> reason == IsObfuscated(f.token))
    && (f.safetyClass.CredentialRead? ==> reason == ReadsCredentials(f.token))
    && (f.safetyClass.Destructive? ==> reason == DestructiveOutsideWorktree(f.token))
    && (f.safetyClass.IrreversibleRemote? ==> reason == ForcePushProtected(f.token))
  }

  /** Worst first. */
  predicate Sorted(findings: seq<Finding>) {
    forall i, j :: 0 <= i < j < |findings| ==> Severity(findings[j].safetyClass) <= Severity(findings[i].safetyClass)
  }

  /** On the floor, by class and flag. */
  predicate OnFloor(f: Finding) {
    || f.safetyClass.Unparseable? || f.safetyClass.Obfuscated? || f.safetyClass.CredentialRead?
    || (f.safetyClass.Destructive? && f.outsideWorktree)
    || (f.safetyClass.IrreversibleRemote? && f.protectedBranch)
  }

  lemma OnFloorHasReason(f: Finding)
    ensures ReasonOf(f).Some? <==> OnFloor(f)
    ensures OnFloor(f) ==> Names(ReasonOf(f).value, f)
  {
  }

  lemma {:induction false} FirstReasonIsFirst(findings: seq<Finding>) returns (k: nat)
    ensures k <= |findings| && forall i :: 0 <= i < k ==> !OnFloor(findings[i])
    ensures FirstReason(findings) == if k < |findings| then ReasonOf(findings[k]) else None
    ensures k < |findings| ==> OnFloor(findings[k])
  {
    if findings == [] {
      k := 0;
    } else if OnFloor(findings[0]) {
      OnFloorHasReason(findings[0]);
      k := 0;
    } else {
      OnFloorHasReason(findings[0]);
      k := FirstReasonIsFirst(findings[1..]);
      k := k + 1;
    }
  }

  /** A verdict is off the floor exactly when the session has a real adapter, the
      command parsed, and no finding is on the floor; when findings decide, the
      reason is that of a worst one among all that are. */
  lemma FloorReasonIsWorst(verdict: Verdict, generic: bool) returns (f: Option<Finding>)
    requires Sorted(verdict.findings)
    ensures Floor(verdict, generic).None? <==>
      !generic && verdict.parseError.None? && forall g :: g in verdict.findings ==> !OnFloor(g)
    ensures !generic && verdict.parseError.None? && Floor(verdict, generic).Some? ==>
      && f.Some? && f.value in verdict.findings && OnFloor(f.value) && Names(Floor(verdict, generic).value, f.value)
      && forall g :: g in verdict.findings && OnFloor(g) ==> Severity(g.safetyClass) <= Severity(f.value.safetyClass)
  {
    hide ReasonOf, Severity, OnFloor, Names;
    var k := FirstReasonIsFirst(verdict.findings);
    f := if k < |verdict.findings| then Some(verdict.findings[k]) else None;
    if f.Some? {
      OnFloorHasReason(f.value);
    }
    forall g | g in verdict.findings && OnFloor(g)
      ensures k < |verdict.findings| && Severity(g.safetyClass) <= Severity(verdict.findings[k].safetyClass)
    {
      var i :| 0 <= i < |verdict.findings| && verdict.findings[i] == g;
    }
  }

  /** The loop over the findings. */
  method Check(verdict: Verdict, generic: bool) returns (r: Option<FloorReason>)
    ensures r == Floor(verdict, generic)
  {
    if generic {
      return Some(GenericAdapter);
    }
    if verdict.parseError.Some? {
      return Some(ParseFailed(verdict.parseError.value));
    }
    for i := 0 to |verdict.findings|
      invariant FirstReason(verdict.findings[i..]) == FirstReason(verdict.findings)
    {
      var f := verdict.findings[i];
      assert verdict.findings[i..][1..] == verdict.findings[i + 1..];
      match f.safetyClass
      case Unparseable => return Some(ParseFailed(f.detail));
      case Obfuscated => return Some(IsObfuscated(f.token));
      case CredentialRead => return Some(ReadsCredentials(f.token));
      case Destructive =>
        if f.outsideWorktree {
          return Some(DestructiveOutsideWorktree(f.token));
        }
      case IrreversibleRemote =>
        if f.protectedBranch {
          return Some(ForcePushProtected(f.token));
        }
      case _ =>
    }
    r := None;
  }

  const NEVER_ALLOW: seq<SafetyClass> := [CredentialRead, Obfuscated, Unparseable]

  // ----- validation

  datatype PolicyError = FloorViolation(safetyClass: SafetyClass) | BadRegex(rule: string)

  predicate FloorKept(p: Policy) {
    forall c :: c in NEVER_ALLOW ==> DecisionFor(p.safety, c) != Allow
  }

  predicate Compiles(rule: Rule, compiling: set<string>) {
    rule.matcher.command.Some? ==> rule.matcher.command.value in compiling
  }

  predicate AllCompile(rules: seq<Rule>, compiling: set<string>) {
    forall i :: 0 <= i < |rules| ==> Compiles(rules[i], compiling)
  }

  lemma FloorKeptIs(p: Policy)
    ensures FloorKept(p) <==>
      !p.safety.credentialRead.Allow? && !p.safety.obfuscated.Allow? && !p.safety.unparseable.Allow?
  {
    assert NEVER_ALLOW == [CredentialRead, Obfuscated, Unparseable];
    assert forall c :: c in NEVER_ALLOW <==> c == CredentialRead || c == Obfuscated || c == Unparseable;
    if FloorKept(p) {
      assert CredentialRead in NEVER_ALLOW && DecisionFor(p.safety, CredentialRead) != Allow;
      assert Obfuscated in NEVER_ALLOW && DecisionFor(p.safety, Obfuscated) != Allow;
      assert Unparseable in NEVER_ALLOW && DecisionFor(p.safety, Unparseable) != Allow;
    } else {
      var c :| c in NEVER_ALLOW && DecisionFor(p.safety, c) == Allow;
    }
  }

  /** A file is accepted exactly when no class on the floor is allowed and every
      pattern compiles; the first offence is reported. */
  method Validate(p: Policy, compiling: set<string>) returns (r: Result<(), PolicyError>)
    ensures r.Ok? <==>
      && !p.safety.credentialRead.Allow? && !p.safety.obfuscated.Allow? && !p.safety.unparseable.Allow?
      && forall rule :: rule in p.autonomy.rules && rule.matcher.command.Some? ==>
           rule.matcher.command.value in compiling
    ensures r.Err? && r.error.FloorViolation? ==>
      r.error.safetyClass in NEVER_ALLOW && DecisionFor(p.safety, r.error.safetyClass) == Allow
    ensures r.Err? && r.error.BadRegex? ==>
      && FloorKept(p)
      && exists rule :: && rule in p.autonomy.rules && rule.name == r.error.rule
                        && rule.matcher.command.Some? && rule.matcher.command.value !in compiling
  {
    FloorKeptIs(p);
    for i := 0 to |NEVER_ALLOW|
      invariant forall k :: 0 <= k < i ==> DecisionFor(p.safety, NEVER_ALLOW[k]) != Allow
    {
      if DecisionFor(p.safety, NEVER_ALLOW[i]) == Allow {
        return Err(FloorViolation(NEVER_ALLOW[i]));
      }
    }
    for i := 0 to |p.autonomy.rules|
      invariant AllCompile(p.autonomy.rules[..i], compiling)
    {
      var rule := p.autonomy.rules[i];
      if rule.matcher.command.Some? && rule.matcher.command.value !in compiling {
        return Err(BadRegex(rule.name));
      }
    }
    assert p.autonomy.rules[..|p.autonomy.rules|] == p.autonomy.rules;
    r := Ok(());
  }

  // ----- evaluation

  /** A request, with what is decided outside this model: its verdict when it has
      a command, the patterns that match that command, and where its path is. */
  datatype Request = Request(tool: string, command: Option<Verdict>, matching: set<string>, pathOutside: bool,
                             repo: Option<string>, inWorktree: bool, generic: bool)

  datatype Outcome = Outcome(decision: Decide, applied: bool, rule: Option<string>,
                             floor: Option<FloorReason>, safety: Option<Decision>)

  function SafetyOf(p: Policy, req: Request): Option<Decision> {
    if req.command.Some? then Some(DecisionFor(p.safety, req.command.value.safetyClass)) else None
  }

  function FloorOf(req: Request): Option<FloorReason> {
    if req.command.Some? then Floor(req.command.value, req.generic)
    else if req.generic then Some(GenericAdapter)
    else None
  }

  predicate Outside(req: Request) {
    || req.pathOutside
    || (req.command.Some? && exists f ::
          f in req.command.value.findings && f.outsideWorktree && f.safetyClass.Destructive?)
  }

  predicate Matches(m: Matcher, req: Request) {
    && (m.repo.Some? ==> req.repo == m.repo)
    && (m.tool.Some? ==> req.tool in m.tool.value)
    && (m.command.Some? ==> req.command.Some? && m.command.value in req.matching)
    && (m.inWorktree.Some? ==> m.inWorktree.value == req.inWorktree)
    && (m.outsideWorktree.Some? ==> m.outsideWorktree.value == Outside(req))
  }

  /** Every field counts for itself: one that is absent matches anything, and each of
      the others by what it names. */
  lemma FieldsMatchAlone(m: Matcher, req: Request)
    ensures var repo, tool := Matcher(m.repo, None, None, None, None), Matcher(None, m.tool, None, None, None);
      var command := Matcher(None, None, m.command, None, None);
      var inside := Matcher(None, None, None, m.inWorktree, None);
      var outside := Matcher(None, None, None, None, m.outsideWorktree);
      && (Matches(m, req) <==> Matches(repo, req) && Matches(tool, req) && Matches(command, req)
                               && Matches(inside, req) && Matches(outside, req))
      && Matches(Matcher(None, None, None, None, None), req)
      && (m.repo.Some? ==> (Matches(repo, req) <==> req.repo == Some(m.repo.value)))
      && (m.tool.Some? ==> (Matches(tool, req) <==> exists name :: name in m.tool.value && name == req.tool))
      && (m.command.Some? ==> (Matches(command, req) <==> req.command.Some? && m.command.value in req.matching))
      && (m.inWorktree == Some(true) ==> (Matches(inside, req) <==> req.inWorktree))
      && (m.inWorktree == Some(false) ==> (Matches(inside, req) <==> !req.inWorktree))
      && (m.outsideWorktree.Some? ==>
            var away := req.command.Some? && exists f ::
              f in req.command.value.findings && f.safetyClass == Destructive && f.outsideWorktree;
            Matches(outside, req) <==> m.outsideWorktree.value == (req.pathOutside || away))
  {
  }

  function FirstMatch(rules: seq<Rule>, req: Request): Option<Rule> {
    if rules == [] then None
    else if Matches(rules[0].matcher, req) then Some(rules[0])
    else FirstMatch(rules[1..], req)
  }

  predicate Active(a: Autonomy) {
    a.enabled && !a.dryRun
  }

  function Decided(rule: Option<Rule>, safety: Option<Decision>): Decide {
    if rule.None? then Ask
    else if rule.value.decide.Approve? && safety == Some(Block) then Deny
    else rule.value.decide
  }

  function Evaluated(p: Policy, req: Request): Outcome {
    var safety := SafetyOf(p, req);
    var floor := FloorOf(req);
    if floor.Some? then
      var decision := if safety == Some(Block) then Deny else Ask;
      Outcome(decision, decision.Deny? && Active(p.autonomy), None, floor, safety)
    else
      var rule := FirstMatch(p.autonomy.rules, req);
      var decision := Decided(rule, safety);
      Outcome(decision, Active(p.autonomy) && !decision.Ask?,
              if rule.Some? then Some(rule.value.name) else None, floor, safety)
  }

  /** The loop over the rules. */
  method Evaluate(p: Policy, req: Request) returns (outcome: Outcome)
    ensures outcome == Evaluated(p, req)
  {
    hide Matches;
    var safety := SafetyOf(p, req);
    var floor: Option<FloorReason> := None;
    if req.command.Some? {
      floor := Check(req.command.value, req.generic);
    } else if req.generic {
      floor := Some(GenericAdapter);
    }
    var decision: Decide := Ask;
    if floor.Some? {
      if safety == Some(Block) {
        decision := Deny;
      }
      return Outcome(decision, decision.Deny? && p.autonomy.enabled && !p.autonomy.dryRun, None, floor, safety);
    }
    var rules := p.autonomy.rules;
    var rule: Option<string> := None;
    var i := 0;
    while i < |rules|
      invariant 0 <= i <= |rules| && rule.None? && decision.Ask?
      invariant FirstMatch(rules, req) == FirstMatch(rules[i..], req)
    {
      if Matches(rules[i].matcher, req) {
        rule := Some(rules[i].name);
        decision := if rules[i].decide.Approve? && safety == Some(Block) then Deny else rules[i].decide;
        break;
      }
      assert rules[i..][1..] == rules[i + 1..];
      i := i + 1;
    }
    outcome := Outcome(decision, p.autonomy.enabled && !p.autonomy.dryRun && !decision.Ask?, rule, floor, safety);
  }

  /** A command with any finding on the floor is on the floor, sorted or not. */
  lemma {:induction false} FindingIsOnFloor(findings: seq<Finding>, f: Finding)
    requires f in findings && OnFloor(f)
    ensures FirstReason(findings).Some?
  {
    OnFloorHasReason(findings[0]);
    if !OnFloor(findings[0]) {
      FindingIsOnFloor(findings[1..], f);
    }
  }

  /** A request is on the floor, under every policy, exactly when its adapter only
      guesses, its command does not parse, or some finding, wherever it stands, cannot
      be parsed, is obfuscated, reads credentials, destroys outside the worktree or
      reaches a protected branch; then it is never approved, and denied exactly when
      its class is blocked. */
  lemma FloorIsNeverApproved(p: Policy, req: Request)
    ensures var o := Evaluated(p, req);
      && (o.floor.Some? <==>
            || req.generic
            || (req.command.Some? && req.command.value.parseError.Some?)
            || (req.command.Some? && exists f ::
                  && f in req.command.value.findings
                  && (|| f.safetyClass in {Unparseable, Obfuscated, CredentialRead}
                      || (f.safetyClass == Destructive && f.outsideWorktree)
                      || (f.safetyClass == IrreversibleRemote && f.protectedBranch))))
      && (o.floor.Some? ==>
            && !o.decision.Approve? && o.rule.None?
            && (o.decision.Deny? <==> o.safety == Some(Block))
            && (o.applied <==> o.decision.Deny? && p.autonomy.enabled && !p.autonomy.dryRun))
  {
    hide Matches, ReasonOf;
    if req.command.Some? {
      var findings := req.command.value.findings;
      var k := FirstReasonIsFirst(findings);
      forall f | f in findings && OnFloor(f) ensures FirstReason(findings).Some? {
        FindingIsOnFloor(findings, f);
      }
      if k < |findings| {
        assert findings[k] in findings && OnFloor(findings[k]);
        OnFloorHasReason(findings[k]);
      }
    }
  }

  /** The reason reported: the adapter's before the parser's before that of a
      finding, the first on the floor, by its class and token. */
  lemma ReasonIsNamed(p: Policy, req: Request) returns (k: nat)
    ensures var o := Evaluated(p, req);
      && (req.generic ==> o.floor == Some(GenericAdapter))
      && (!req.generic && req.command.Some? && req.command.value.parseError.Some? ==>
            o.floor == Some(ParseFailed(req.command.value.parseError.value)))
      && (!req.generic && req.command.Some? && req.command.value.parseError.None? && o.floor.Some? ==>
            var findings := req.command.value.findings;
            && k < |findings| && OnFloor(findings[k]) && Names(o.floor.value, findings[k])
            && forall i :: 0 <= i < k ==> !OnFloor(findings[i]))
  {
    hide Matches, ReasonOf, OnFloor, Names;
    k := 0;
    if req.command.Some? {
      var findings := req.command.value.findings;
      k := FirstReasonIsFirst(findings);
      if k < |findings| {
        OnFloorHasReason(findings[k]);
      }
    }
  }

  /** A policy that would approve anything that can be approved. */
  function Generous(): Policy {
    var any := Rule("any", Matcher(None, None, None, None, None), Approve);
    Policy(Safety(Warn, Warn, Warn, Warn, Warn, Warn, Warn, []),
           Autonomy(true, false, false, false, false, [any]), Egress(Nothing, [], None, [], []))
  }

  /** Nothing but the floor keeps every policy from approving: off it some policy
      approves the request, and does so for real. */
  lemma FloorIsAllThatIsNeverApproved(req: Request)
    ensures (forall p :: !Evaluated(p, req).decision.Approve?) <==> FloorOf(req).Some?
    ensures FloorOf(req).None? ==> Evaluated(Generous(), req).decision.Approve? && Evaluated(Generous(), req).applied
  {
    hide FloorOf;
    var rules := Generous().autonomy.rules;
    assert FirstMatch(rules, req) == Some(rules[0]);
    assert !Evaluated(Generous(), req).decision.Approve? ==> FloorOf(req).Some?;
  }

  /** The settings that block a class, one by one. */
  predicate Blocks(s: Safety, c: SafetyClass) {
    || (s.destructive.Block? && c == Destructive) || (s.irreversibleRemote.Block? && c == IrreversibleRemote)
    || (s.credentialRead.Block? && c == CredentialRead) || (s.networkEgress.Block? && c == NetworkEgress)
    || (s.privilege.Block? && c == Privilege) || (s.obfuscated.Block? && c == Obfuscated)
    || (s.unparseable.Block? && c == Unparseable)
  }

  /** The setting reported is that of the command's own class; what is benign is allowed,
      and what is no command has none. */
  lemma SafetyIsItsOwn(p: Policy, req: Request)
    ensures var o, s := Evaluated(p, req), p.safety;
      && (req.command.None? ==> o.safety.None?)
      && (req.command.Some? ==>
            var c := req.command.value.safetyClass;
            && (c == Benign ==> o.safety == Some(Allow))
            && (c == NetworkEgress ==> o.safety == Some(s.networkEgress))
            && (c == Privilege ==> o.safety == Some(s.privilege))
            && (c == IrreversibleRemote ==> o.safety == Some(s.irreversibleRemote))
            && (c == Destructive ==> o.safety == Some(s.destructive))
            && (c == CredentialRead ==> o.safety == Some(s.credentialRead))
            && (c == Obfuscated ==> o.safety == Some(s.obfuscated))
            && (c == Unparseable ==> o.safety == Some(s.unparseable)))
  {
    hide Floor, FirstMatch;
  }

  /** What is approved and applied: autonomy is on, nothing is on the floor, and
      the first matching rule approves a class that is not blocked. */
  lemma {:induction false} ApprovedExactlyWhen(p: Policy, req: Request)
    ensures var o := Evaluated(p, req);
      o.applied && o.decision.Approve? <==>
        && p.autonomy.enabled && !p.autonomy.dryRun && !req.generic
        && !(req.command.Some? && Blocks(p.safety, req.command.value.safetyClass))
        && (req.command.Some? ==>
              && req.command.value.parseError.None?
              && forall f :: f in req.command.value.findings ==> !OnFloor(f))
        && FirstMatch(p.autonomy.rules, req).Some? && FirstMatch(p.autonomy.rules, req).value.decide.Approve?
  {
    hide Matches, ReasonOf;
    if req.command.Some? {
      var k := FirstReasonIsFirst(req.command.value.findings);
      forall f | f in req.command.value.findings && OnFloor(f) ensures FloorOf(req).Some? {
        FindingIsOnFloor(req.command.value.findings, f);
      }
    }
  }

  /** Off the floor the first rule that matches decides, under its own name: what
      it says, except that approving a blocked class denies it; and when none
      matches the request is asked about. */
  lemma {:induction false} FirstMatchDecides(p: Policy, req: Request) returns (k: nat)
    requires FloorOf(req).None?
    ensures k <= |p.autonomy.rules| && forall i :: 0 <= i < k ==> !Matches(p.autonomy.rules[i].matcher, req)
    ensures var o := Evaluated(p, req);
      if k == |p.autonomy.rules| then o.decision.Ask? && o.rule.None? && !o.applied
      else
        var rule := p.autonomy.rules[k];
        && Matches(rule.matcher, req) && o.rule == Some(rule.name)
        && (o.decision.Deny? <==> rule.decide.Deny? || (rule.decide.Approve? && o.safety == Some(Block)))
        && (o.decision.Ask? <==> rule.decide.Ask?)
        && (o.applied <==> p.autonomy.enabled && !p.autonomy.dryRun && !rule.decide.Ask?)
  {
    hide Matches, FloorOf;
    k := FirstMatchIsFirst(p.autonomy.rules, req);
  }

  lemma {:induction false} FirstMatchIsFirst(rules: seq<Rule>, req: Request) returns (k: nat)
    ensures k <= |rules| && forall i :: 0 <= i < k ==> !Matches(rules[i].matcher, req)
    ensures FirstMatch(rules, req) == if k < |rules| then Some(rules[k]) else None
    ensures k < |rules| ==> Matches(rules[k].matcher, req)
  {
    hide Matches;
    if rules == [] || Matches(rules[0].matcher, req) {
      k := 0;
    } else {
      k := FirstMatchIsFirst(rules[1..], req);
      k := k + 1;
    }
  }
}
