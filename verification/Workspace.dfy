/** A repository's policy laid over the global one: it is meant to narrow it and
    never to widen it. */
module Workspace {
  import opened Wrappers
  import opened Policy
  import opened Sequences

  datatype Warning = LooserClass(safetyClass: SafetyClass) | RepoApproves(rule: string) | WiderMode

  // ----- safety

  function Stricter(mine: Decision, theirs: Decision): Decision {
    if Strength(theirs) > Strength(mine) then theirs else mine
  }

  /** From the laxest to the strictest. */
  const CHAIN := [Allow, Warn, Confirm, Block]

  /** Of two settings the one further up the chain, whichever it is that has it. */
  lemma StricterIs(i: nat, j: nat)
    requires i <= j < |CHAIN|
    ensures Stricter(CHAIN[i], CHAIN[j]) == CHAIN[j] && Stricter(CHAIN[j], CHAIN[i]) == CHAIN[j]
  {
  }

  function WithDecision(s: Safety, c: SafetyClass, d: Decision): Safety {
    match c
    case Benign => s
    case NetworkEgress => s.(networkEgress := d)
    case Privilege => s.(privilege := d)
    case IrreversibleRemote => s.(irreversibleRemote := d)
    case Destructive => s.(destructive := d)
    case CredentialRead => s.(credentialRead := d)
    case Obfuscated => s.(obfuscated := d)
    case Unparseable => s.(unparseable := d)
  }

  /** The classes of the table, in its order. */
  const TABLE: seq<SafetyClass> :=
    [Destructive, IrreversibleRemote, CredentialRead, NetworkEgress, Privilege, Obfuscated, Unparseable]

  predicate Looser(global: Safety, repo: Safety, c: SafetyClass) {
    Strength(DecisionFor(repo, c)) < Strength(DecisionFor(global, c))
  }

  /** The elements of `more` that are new, in order, behind `have`. */
  function Added<T(==)>(have: seq<T>, more: seq<T>): seq<T>
    decreases |more|
  {
    if more == [] then have
    else Added(if more[0] in have then have else have + [more[0]], more[1..])
  }

  method Add<T(==)>(have: seq<T>, more: seq<T>) returns (all: seq<T>)
    ensures all == Added(have, more)
  {
    all := have;
    for i := 0 to |more|
      invariant Added(all, more[i..]) == Added(have, more)
    {
      assert more[i..][0] == more[i] && more[i..][1..] == more[i + 1..];
      if more[i] !in all {
        all := all + [more[i]];
      }
    }
  }

  lemma {:induction false} AddedIsUnion<T>(have: seq<T>, more: seq<T>)
    ensures have <= Added(have, more)
    ensures forall x :: x in Added(have, more) <==> x in have || x in more
    decreases |more|
  {
    if more != [] {
      AddedIsUnion(if more[0] in have then have else have + [more[0]], more[1..]);
      assert more == [more[0]] + more[1..];
    }
  }

  /** Each class gets the stricter decision; a looser one is reported. */
  method NarrowSafety(global: Safety, repo: Safety) returns (out: Safety, warnings: seq<Warning>)
    ensures forall c :: DecisionFor(out, c) == Stricter(DecisionFor(global, c), DecisionFor(repo, c))
    ensures out.protectedBranches == Added(global.protectedBranches, repo.protectedBranches)
    ensures forall w :: w in warnings <==> w.LooserClass? && Looser(global, repo, w.safetyClass)
  {
    out, warnings := global, [];
    for i := 0 to |TABLE|
      invariant forall c :: c in TABLE[..i] ==>
        DecisionFor(out, c) == Stricter(DecisionFor(global, c), DecisionFor(repo, c))
      invariant forall c :: c !in TABLE[..i] ==> DecisionFor(out, c) == DecisionFor(global, c)
      invariant out.protectedBranches == global.protectedBranches
      invariant forall w :: w in warnings <==>
        w.LooserClass? && w.safetyClass in TABLE[..i] && Looser(global, repo, w.safetyClass)
    {
      var c := TABLE[i];
      TableHasNoRepeats(i);
      var mine, theirs := DecisionFor(out, c), DecisionFor(repo, c);
      ghost var before := warnings;
      if Strength(theirs) > Strength(mine) {
        PutsOne(out, c, theirs);
        out := WithDecision(out, c, theirs);
      } else if Strength(theirs) < Strength(mine) {
        warnings := warnings + [LooserClass(c)];
      }
      assert TABLE[..i + 1] == TABLE[..i] + [c];
    }
    TableIsComplete();
    var branches := Add(out.protectedBranches, repo.protectedBranches);
    out := out.(protectedBranches := branches);
  }

  lemma TableHasNoRepeats(i: nat)
    requires i < |TABLE|
    ensures TABLE[i] !in TABLE[..i] && !TABLE[i].Benign?
  {
  }

  lemma TableIsComplete()
    ensures forall c: SafetyClass :: c in TABLE[..|TABLE|] || c.Benign?
  {
    forall c: SafetyClass ensures c in TABLE[..|TABLE|] || c.Benign? {
      assert TABLE[..|TABLE|] == TABLE;
      assert TABLE[0] == Destructive && TABLE[1] == IrreversibleRemote && TABLE[2] == CredentialRead
        && TABLE[3] == NetworkEgress && TABLE[4] == Privilege && TABLE[5] == Obfuscated && TABLE[6] == Unparseable;
    }
  }

  lemma PutsOne(s: Safety, c: SafetyClass, d: Decision)
    requires !c.Benign?
    ensures forall k :: DecisionFor(WithDecision(s, c, d), k) == if k == c then d else DecisionFor(s, k)
    ensures WithDecision(s, c, d).protectedBranches == s.protectedBranches
  {
  }

  // ----- autonomy

  function Restrictive(rules: seq<Rule>): seq<Rule> {
    if rules == [] then []
    else (if rules[0].decide.Approve? then [] else [rules[0]]) + Restrictive(rules[1..])
  }

  function NarrowedAutonomy(global: Autonomy, repo: Autonomy): Autonomy {
    Autonomy(global.enabled && repo.enabled, global.dryRun || repo.dryRun, global.watchdog && repo.watchdog,
             global.loopDetect && repo.loopDetect, global.taskQueue && repo.taskQueue,
             Restrictive(repo.rules) + global.rules)
  }

  lemma RestrictiveFrom(rules: seq<Rule>, i: nat)
    requires i <= |rules|
    ensures i == |rules| ==> Restrictive(rules[i..]) == []
    ensures i < |rules| ==>
      Restrictive(rules[i..]) == (if rules[i].decide.Approve? then [] else [rules[i]]) + Restrictive(rules[i + 1..])
  {
    if i < |rules| {
      FromHere(rules, i);
    }
  }

  /** A report of each rule that approves, in order. */
  function Reports(rules: seq<Rule>): seq<Warning> {
    if rules == [] then []
    else (if rules[0].decide.Approve? then [RepoApproves(rules[0].name)] else []) + Reports(rules[1..])
  }

  lemma ReportsFrom(rules: seq<Rule>, i: nat)
    requires i <= |rules|
    ensures i == |rules| ==> Reports(rules[i..]) == []
    ensures i < |rules| ==>
      Reports(rules[i..]) ==
        (if rules[i].decide.Approve? then [RepoApproves(rules[i].name)] else []) + Reports(rules[i + 1..])
  {
    if i < |rules| {
      FromHere(rules, i);
    }
  }

  lemma {:induction false} ReportsAre(rules: seq<Rule>)
    ensures forall w :: w in Reports(rules) <==>
      exists r :: r in rules && r.decide.Approve? && w == RepoApproves(r.name)
  {
    if rules != [] {
      ReportsAre(rules[1..]);
      assert forall r :: r in rules <==> r == rules[0] || r in rules[1..];
    }
  }

  method NarrowAutonomy(global: Autonomy, repo: Autonomy) returns (out: Autonomy, warnings: seq<Warning>)
    ensures out == NarrowedAutonomy(global, repo)
    ensures warnings == Reports(repo.rules)
  {
    hide Restrictive, Reports;
    var rules: seq<Rule> := [];
    warnings := [];
    assert repo.rules[0..] == repo.rules;
    for i := 0 to |repo.rules|
      invariant rules + Restrictive(repo.rules[i..]) == Restrictive(repo.rules)
      invariant warnings + Reports(repo.rules[i..]) == Reports(repo.rules)
    {
      var rule := repo.rules[i];
      RestrictiveFrom(repo.rules, i);
      ReportsFrom(repo.rules, i);
      if rule.decide.Approve? {
        Associate(warnings, [RepoApproves(rule.name)], Reports(repo.rules[i + 1..]));
        warnings := warnings + [RepoApproves(rule.name)];
      } else {
        Associate(rules, [rule], Restrictive(repo.rules[i + 1..]));
        rules := rules + [rule];
      }
    }
    RestrictiveFrom(repo.rules, |repo.rules|);
    ReportsFrom(repo.rules, |repo.rules|);
    rules := rules + global.rules;
    out := Autonomy(global.enabled && repo.enabled, global.dryRun || repo.dryRun, global.watchdog && repo.watchdog,
                    global.loopDetect && repo.loopDetect, global.taskQueue && repo.taskQueue, rules);
  }

  // ----- egress

  function Width(m: EgressMode): nat {
    match m
    case Nothing => 0
    case Redacted => 1
    case Full => 2
  }

  function Kept(mine: seq<string>, theirs: seq<string>): seq<string> {
    if mine == [] then [] else (if mine[0] in theirs then [mine[0]] else []) + Kept(mine[1..], theirs)
  }

  function Providers(mine: seq<string>, theirs: seq<string>): seq<string> {
    if theirs == [] then mine else if mine == [] then theirs else Kept(mine, theirs)
  }

  function Cap(mine: Option<nat>, theirs: Option<nat>): Option<nat> {
    if mine.Some? && theirs.Some? then Some(if mine.value < theirs.value then mine.value else theirs.value)
    else if mine.Some? then mine else theirs
  }

  function NarrowedEgress(global: Egress, repo: Egress): Egress {
    Egress(if Width(repo.mode) < Width(global.mode) then repo.mode else global.mode,
           Providers(global.allowProviders, repo.allowProviders),
           Cap(global.maxContextBytes, repo.maxContextBytes),
           Added(global.neverPaths, repo.neverPaths),
           Added(global.neverCommands, repo.neverCommands))
  }

  /** From the narrowest mode to the widest. */
  const MODES := [Nothing, Redacted, Full]

  /** Of two modes the narrower is kept, whichever policy has it. */
  lemma NarrowerModeIsKept(global: Egress, repo: Egress, i: nat, j: nat)
    requires i <= j < |MODES| && {global.mode, repo.mode} == {MODES[i], MODES[j]}
    ensures NarrowedEgress(global, repo).mode == MODES[i]
  {
    assert MODES[i] in {global.mode, repo.mode} && MODES[j] in {global.mode, repo.mode};
    assert global.mode in {MODES[i], MODES[j]} && repo.mode in {MODES[i], MODES[j]};
  }

  lemma KeptFrom(mine: seq<string>, theirs: seq<string>, i: nat)
    requires i < |mine|
    ensures Kept(mine[i..], theirs) == (if mine[i] in theirs then [mine[i]] else []) + Kept(mine[i + 1..], theirs)
  {
    assert mine[i..][0] == mine[i] && mine[i..][1..] == mine[i + 1..];
  }

  method Retain(mine: seq<string>, theirs: seq<string>) returns (kept: seq<string>)
    ensures kept == Kept(mine, theirs)
  {
    assert Kept([], theirs) == [];
    hide Kept;
    kept := [];
    for i := 0 to |mine|
      invariant kept + Kept(mine[i..], theirs) == Kept(mine, theirs)
    {
      KeptFrom(mine, theirs, i);
      if mine[i] in theirs {
        kept := kept + [mine[i]];
      }
    }
  }

  method NarrowEgress(global: Egress, repo: Egress) returns (out: Egress, warnings: seq<Warning>)
    ensures out == NarrowedEgress(global, repo)
    ensures warnings == if Width(repo.mode) > Width(global.mode) then [WiderMode] else []
  {
    hide Added, Cap, Kept;
    out, warnings := global, [];
    if Width(repo.mode) < Width(out.mode) {
      out := out.(mode := repo.mode);
    } else if Width(repo.mode) > Width(out.mode) {
      warnings := [WiderMode];
    }
    if repo.allowProviders != [] {
      if out.allowProviders == [] {
        out := out.(allowProviders := repo.allowProviders);
      } else {
        var kept := Retain(out.allowProviders, repo.allowProviders);
        out := out.(allowProviders := kept);
      }
    }
    out := out.(maxContextBytes := Cap(out.maxContextBytes, repo.maxContextBytes));
    var paths := Add(out.neverPaths, repo.neverPaths);
    var commands := Add(out.neverCommands, repo.neverCommands);
    out := out.(neverPaths := paths, neverCommands := commands);
  }

  // ----- the whole policy

  /** `out` is the global policy narrowed by the repository's. */
  ghost predicate Narrowed(global: Policy, repo: Policy, out: Policy) {
    && (forall c :: DecisionFor(out.safety, c) == Stricter(DecisionFor(global.safety, c), DecisionFor(repo.safety, c)))
    && out.safety.protectedBranches == Added(global.safety.protectedBranches, repo.safety.protectedBranches)
    && out.autonomy == NarrowedAutonomy(global.autonomy, repo.autonomy)
    && out.egress == NarrowedEgress(global.egress, repo.egress)
  }

  /** Something in the repository's policy is looser than the global one. */
  ghost predicate Loosens(global: Policy, repo: Policy, w: Warning) {
    match w
    case LooserClass(c) => Looser(global.safety, repo.safety, c)
    case RepoApproves(name) => exists r :: r in repo.autonomy.rules && r.decide.Approve? && r.name == name
    case WiderMode => Width(repo.egress.mode) > Width(global.egress.mode)
  }

  /** The intersection, with a warning for exactly what was looser and ignored. */
  method Narrow(global: Policy, repo: Policy) returns (out: Policy, warnings: seq<Warning>)
    ensures Narrowed(global, repo, out)
    ensures forall w :: w in warnings <==> Loosens(global, repo, w)
  {
    var safety, ws := NarrowSafety(global.safety, repo.safety);
    var autonomy, wa := NarrowAutonomy(global.autonomy, repo.autonomy);
    var egress, we := NarrowEgress(global.egress, repo.egress);
    ReportsAre(repo.autonomy.rules);
    out := Policy(safety, autonomy, egress);
    warnings := ws + wa + we;
  }

  // ----- approval never widens

  lemma {:induction false} FirstMatchOfBoth(a: seq<Rule>, b: seq<Rule>, req: Request)
    ensures FirstMatch(a + b, req) == if FirstMatch(a, req).Some? then FirstMatch(a, req) else FirstMatch(b, req)
  {
    hide Matches;
    if a == [] {
      assert a + b == b;
    } else {
      FirstMatchOfBoth(a[1..], b, req);
      assert (a + b)[1..] == a[1..] + b;
    }
  }

  lemma {:induction false} RestrictiveNeverApproves(rules: seq<Rule>, req: Request)
    ensures FirstMatch(Restrictive(rules), req).Some? ==> !FirstMatch(Restrictive(rules), req).value.decide.Approve?
  {
    hide Matches;
    if rules != [] {
      RestrictiveNeverApproves(rules[1..], req);
      if !rules[0].decide.Approve? {
        assert Restrictive(rules)[1..] == Restrictive(rules[1..]);
      } else {
        assert Restrictive(rules) == Restrictive(rules[1..]);
      }
    }
  }

  /** The first rule of the repository that matches and does not approve. */
  function RepoRule(repo: Policy, req: Request): Option<Rule> {
    FirstMatch(Restrictive(repo.autonomy.rules), req)
  }

  predicate Approves(p: Policy, req: Request) {
    Evaluated(p, req).decision.Approve? && Evaluated(p, req).applied
  }

  /** Under the narrowed policy a request is approved exactly when the global
      policy approves it, the repository has autonomy on and no dry run, does not
      block its class, and has no restrictive rule that matches. */
  lemma NarrowedApprovesExactlyWhen(global: Policy, repo: Policy, out: Policy, req: Request)
    requires Narrowed(global, repo, out)
    ensures Approves(out, req) <==>
      Approves(global, req) && Active(repo.autonomy) && SafetyOf(repo, req) != Some(Block) && RepoRule(repo, req).None?
  {
    hide Matches, FirstMatch, Restrictive, Floor;
    FirstMatchOfBoth(Restrictive(repo.autonomy.rules), global.autonomy.rules, req);
    RestrictiveNeverApproves(repo.autonomy.rules, req);
    ApprovedExactlyWhen(out, req);
    ApprovedExactlyWhen(global, req);
  }

  /** So a repository never makes the engine approve what the global policy does
      not, nor allows a class that a valid global policy may not allow, nor
      switches anything on. */
  lemma NarrowingNeverApprovesMore(global: Policy, repo: Policy, out: Policy, req: Request)
    requires Narrowed(global, repo, out)
    ensures Approves(out, req) ==> Approves(global, req)
    ensures FloorKept(global) ==> FloorKept(out)
    ensures forall c :: Strength(DecisionFor(out.safety, c)) >= Strength(DecisionFor(global.safety, c))
    ensures Active(out.autonomy) <==> Active(global.autonomy) && Active(repo.autonomy)
    ensures out.autonomy.watchdog ==> global.autonomy.watchdog && repo.autonomy.watchdog
    ensures out.autonomy.loopDetect ==> global.autonomy.loopDetect && repo.autonomy.loopDetect
    ensures out.autonomy.taskQueue ==> global.autonomy.taskQueue && repo.autonomy.taskQueue
  {
    NarrowedApprovesExactlyWhen(global, repo, out, req);
  }

  lemma {:induction false} RestrictiveCompiles(rules: seq<Rule>, compiling: set<string>)
    requires AllCompile(rules, compiling)
    ensures AllCompile(Restrictive(rules), compiling)
  {
    if rules != [] {
      RestrictiveCompiles(rules[1..], compiling);
    }
  }

  /** The narrowing of two valid policies is valid. */
  lemma NarrowingIsValid(global: Policy, repo: Policy, out: Policy, compiling: set<string>)
    requires Narrowed(global, repo, out) && FloorKept(global)
    requires AllCompile(global.autonomy.rules, compiling) && AllCompile(repo.autonomy.rules, compiling)
    ensures FloorKept(out) && AllCompile(out.autonomy.rules, compiling)
  {
    RestrictiveCompiles(repo.autonomy.rules, compiling);
  }

  // ----- the order of decisions

  function Rank(d: Decide): nat {
    match d
    case Approve => 0
    case Ask => 1
    case Deny => 2
  }

  /** A decision is never made laxer, except that a request the global policy
      denies by a rule is asked when the repository's first restrictive match
      says ask. */
  lemma LaxerExactlyWhenAskBeforeDeny(global: Policy, repo: Policy, out: Policy, req: Request)
    requires Narrowed(global, repo, out)
    ensures Rank(Evaluated(out, req).decision) < Rank(Evaluated(global, req).decision) <==>
      && FloorOf(req).None? && Evaluated(global, req).decision.Deny?
      && RepoRule(repo, req).Some? && RepoRule(repo, req).value.decide.Ask?
  {
    hide Matches, FirstMatch, Restrictive, FloorOf;
    FirstMatchOfBoth(Restrictive(repo.autonomy.rules), global.autonomy.rules, req);
    RestrictiveNeverApproves(repo.autonomy.rules, req);
  }

  // ----- what may leave

  /** An empty list stands for every provider. */
  predicate Permits(providers: seq<string>, p: string) {
    providers == [] || p in providers
  }

  predicate Disjoint(a: seq<string>, b: seq<string>) {
    a != [] && b != [] && forall p :: p in a ==> p !in b
  }

  lemma {:induction false} KeptAre(mine: seq<string>, theirs: seq<string>)
    ensures forall p :: p in Kept(mine, theirs) <==> p in mine && p in theirs
  {
    if mine != [] {
      KeptAre(mine[1..], theirs);
      assert mine == [mine[0]] + mine[1..];
    }
  }

  lemma {:induction false} KeptNone(mine: seq<string>, theirs: seq<string>)
    requires forall p :: p in mine ==> p !in theirs
    ensures Kept(mine, theirs) == []
  {
    if mine != [] {
      KeptNone(mine[1..], theirs);
    }
  }

  /** A name longer than every name of a list. */
  function LongName(names: seq<string>): (n: string)
    ensures forall i :: 0 <= i < |names| ==> |names[i]| < |n|
  {
    if names == [] then "a"
    else
      var rest := LongName(names[1..]);
      assert forall i :: 1 <= i < |names| ==> names[i] == names[1..][i - 1];
      rest + names[0]
  }

  /** The provider lists intersect, except that two lists with nothing in common
      come out empty, and so permit every provider. */
  lemma ProvidersIntersectUnlessDisjoint(global: Egress, repo: Egress)
    ensures (forall p :: Permits(NarrowedEgress(global, repo).allowProviders, p) ==> Permits(global.allowProviders, p))
      <==> !Disjoint(global.allowProviders, repo.allowProviders)
    ensures !Disjoint(global.allowProviders, repo.allowProviders) ==>
      forall p :: Permits(NarrowedEgress(global, repo).allowProviders, p) <==>
        Permits(global.allowProviders, p) && Permits(repo.allowProviders, p)
    ensures Disjoint(global.allowProviders, repo.allowProviders) ==>
      forall p :: Permits(NarrowedEgress(global, repo).allowProviders, p)
  {
    hide Added, Cap, Kept;
    var mine, theirs := global.allowProviders, repo.allowProviders;
    KeptAre(mine, theirs);
    if Disjoint(mine, theirs) {
      KeptNone(mine, theirs);
      assert LongName(mine) !in mine;
      assert Permits([], LongName(mine)) && !Permits(mine, LongName(mine));
    } else if mine != [] && theirs != [] {
      var p :| p in mine && p in theirs;
      assert p in Kept(mine, theirs);
    }
  }

  predicate FitsCap(cap: Option<nat>, bytes: nat) {
    cap.Some? ==> bytes <= cap.value
  }

  /** The rest of what may leave is the intersection: the narrower mode, the
      smaller cap, and everything either policy excludes. */
  lemma EgressIntersects(global: Egress, repo: Egress, bytes: nat)
    ensures var out := NarrowedEgress(global, repo);
      && Width(out.mode) <= Width(global.mode) && Width(out.mode) <= Width(repo.mode)
      && (FitsCap(out.maxContextBytes, bytes) <==>
        FitsCap(global.maxContextBytes, bytes) && FitsCap(repo.maxContextBytes, bytes))
      && (forall x :: x in out.neverPaths <==> x in global.neverPaths || x in repo.neverPaths)
      && (forall x :: x in out.neverCommands <==> x in global.neverCommands || x in repo.neverCommands)
  {
    hide Kept, Added;
    AddedIsUnion(global.neverPaths, repo.neverPaths);
    AddedIsUnion(global.neverCommands, repo.neverCommands);
  }
}
