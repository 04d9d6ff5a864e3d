/** Asking a model provider: retries on one provider, circuit breakers, and the
    walk down the chain of fallback profiles.

    Breakers open and close at the hands of other requests while a chain runs,
    so what they say at each look is an input, as is what every call does. */
module Providers {
  import opened Numbers
  import opened Sequences
  import opened Wrappers

  type Name = string

  /** Each profile with its fallback, which may name no profile at all. */
  type File = map<Name, Option<Name>>

  datatype ProviderError = MissingKey | Transport | Status(status: nat) | Protocol | UnknownModel

  datatype Verdict = Retry(delay: nat) | Fallback | GiveUp

  /** Durations are in nanoseconds. */
  datatype Policy = Policy(maxAttempts: nat, base: nat, cooldown: nat)

  // ----- the verdict on one failure

  function Jitter(policy: Policy, clock: nat): (j: nat)
    ensures 2 * j <= policy.base
  {
    clock % (if policy.base / 2 > 1 then policy.base / 2 else 1)
  }

  function Backoff(policy: Policy, attempt: nat, clock: nat): nat {
    policy.base * Power2(if attempt < 6 then attempt else 6) + Jitter(policy, clock)
  }

  function Classify(policy: Policy, err: ProviderError, attempt: nat, clock: nat): Verdict {
    var again := if attempt + 1 < policy.maxAttempts then Retry(Backoff(policy, attempt, clock)) else Fallback;
    match err
    case Status(status) => if status == 429 then Fallback else if status >= 500 then again else GiveUp
    case Transport => again
    case _ => GiveUp
  }

  /** Whatever the jitter, each of the first six waits is longer than the last. */
  lemma BackoffGrows(policy: Policy, attempt: nat, clock: nat, later: nat)
    requires policy.base > 0 && attempt < 6
    ensures Backoff(policy, attempt, clock) < Backoff(policy, attempt + 1, later)
  {
    var b, p := policy.base, Power2(attempt);
    assert Power2(attempt + 1) == 2 * p;
    assert b * (2 * p) == b * p + b * p && b * p >= b by {
      Scaled(b, p);
    }
  }

  /** A wait is the base doubled with each attempt, six times at most, and up to half
      the base more. */
  lemma BackoffWithin(policy: Policy, attempt: nat, clock: nat)
    ensures var n := if attempt < 6 then attempt else 6;
      policy.base * Power2(n) <= Backoff(policy, attempt, clock) <= policy.base * Power2(n) + policy.base / 2
    ensures Power2(0) == 1 && Power2(6) == 64
  {
  }

  /** The jitter follows the clock, round and round below half the base. */
  lemma JitterFollowsClock(policy: Policy, clock: nat)
    ensures policy.base < 4 ==> Jitter(policy, clock) == 0
    ensures policy.base >= 4 && clock < policy.base / 2 ==> Jitter(policy, clock) == clock
    ensures policy.base >= 4 ==> Jitter(policy, clock + policy.base / 2) == Jitter(policy, clock)
    ensures forall attempt :: policy.base >= 4 && clock < policy.base / 2 ==>
      Backoff(policy, attempt, clock) == Backoff(policy, attempt, 0) + clock
  {
    if policy.base >= 4 {
      ModAgain(clock, policy.base / 2);
    }
  }

  lemma ModAgain(n: nat, d: nat)
    requires d > 0
    ensures (n + d) % d == n % d
  {
    QuotientIs(n + d, d, n / d + 1);
  }

  lemma Scaled(b: nat, p: nat)
    requires p >= 1
    ensures b * (2 * p) == b * p + b * p && b * p >= b
  {
    assert b * p == b * (p - 1) + b;
  }

  // ----- breakers

  class Breakers {
    var open: map<Name, nat>

    constructor ()
      ensures open == map[]
    {
      open := map[];
    }

    /** Closes the profile to use until the cooldown is over. */
    method Open(profile: Name, cooldown: nat, now: nat)
      modifies this
      ensures open == old(open)[profile := now + cooldown]
    {
      open := open[profile := now + cooldown];
    }

    /** The time left, or none; a breaker whose time is over is forgotten. */
    method Cooling(profile: Name, now: nat) returns (left: Option<nat>)
      modifies this
      ensures left ==
        if profile in old(open) && now < old(open)[profile] then Some(old(open)[profile] - now) else None
      ensures open == if left.None? then old(open) - {profile} else old(open)
    {
      if profile !in open {
        assert open - {profile} == open;
        return None;
      }
      var until := open[profile];
      if until <= now {
        open := open - {profile};
        left := None;
      } else {
        left := Some(until - now);
      }
    }
  }

  // ----- one provider, with retries

  /** What one call does: how many chunks it delivers, and how it ends. */
  datatype Call = Call(chunks: nat, error: Option<ProviderError>, clock: nat)

  /** The chunks each call delivered, and the failure the last one left. */
  datatype Streamed = Streamed(chunks: seq<nat>, failure: Option<(ProviderError, Verdict)>)

  function VerdictOn(policy: Policy, call: Call, attempt: nat): Verdict
    requires call.error.Some?
  {
    if call.chunks > 0 then GiveUp else Classify(policy, call.error.value, attempt, call.clock)
  }

  function Stream(policy: Policy, calls: nat -> Call, attempt: nat): Streamed
    decreases policy.maxAttempts - attempt
  {
    var call := calls(attempt);
    if call.error.None? then Streamed([call.chunks], None)
    else
      var verdict := VerdictOn(policy, call, attempt);
      if verdict.Retry? then
        var rest := Stream(policy, calls, attempt + 1);
        Streamed([call.chunks] + rest.chunks, rest.failure)
      else Streamed([call.chunks], Some((call.error.value, verdict)))
  }

  method StreamWithRetry(policy: Policy, calls: nat -> Call) returns (r: Streamed)
    ensures r == Stream(policy, calls, 0)
  {
    var attempt := 0;
    var chunks: seq<nat> := [];
    while true
      invariant attempt == 0 || attempt < policy.maxAttempts
      invariant Stream(policy, calls, 0).chunks == chunks + Stream(policy, calls, attempt).chunks
      invariant Stream(policy, calls, 0).failure == Stream(policy, calls, attempt).failure
      decreases policy.maxAttempts - attempt
    {
      var call := calls(attempt);
      chunks := chunks + [call.chunks];
      if call.error.None? {
        return Streamed(chunks, None);
      }
      var verdict := if call.chunks > 0 then GiveUp else Classify(policy, call.error.value, attempt, call.clock);
      match verdict
      case Retry(delay) => attempt := attempt + 1;
      case _ => return Streamed(chunks, Some((call.error.value, verdict)));
    }
  }

  /** No call but the last delivers anything, there are at most as many calls as
      the policy allows (and always one), and a failure after a delivery is given
      up. */
  lemma {:induction false} OnlyTheLastCallDelivers(policy: Policy, calls: nat -> Call, attempt: nat)
    requires attempt == 0 || attempt < policy.maxAttempts
    ensures var r := Stream(policy, calls, attempt);
      && 1 <= |r.chunks| && (|r.chunks| == 1 || attempt + |r.chunks| <= policy.maxAttempts)
      && (forall i :: 0 <= i < |r.chunks| - 1 ==> r.chunks[i] == 0)
      && (r.failure.Some? && r.chunks[|r.chunks| - 1] > 0 ==> r.failure.value.1.GiveUp?)
      && (r.failure.Some? ==> !r.failure.value.1.Retry?)
    decreases policy.maxAttempts - attempt
  {
    var call := calls(attempt);
    if call.error.Some? && VerdictOn(policy, call, attempt).Retry? {
      OnlyTheLastCallDelivers(policy, calls, attempt + 1);
    }
  }

  /** A failure worth another try on the same provider. */
  predicate Transient(err: ProviderError) {
    err.Transport? || (err.Status? && err.status >= 500 && err.status != 429)
  }

  /** A call after which the next one is made. */
  predicate Passes(policy: Policy, calls: nat -> Call, i: nat) {
    calls(i).chunks == 0 && calls(i).error.Some? && Transient(calls(i).error.value) && i + 1 < policy.maxAttempts
  }

  lemma VerdictIs(policy: Policy, calls: nat -> Call, i: nat)
    requires calls(i).error.Some?
    ensures var verdict, call := VerdictOn(policy, calls(i), i), calls(i);
      && (verdict.Retry? <==> Passes(policy, calls, i))
      && (verdict.Retry? ==>
            var least := policy.base * Power2(if i < 6 then i else 6);
            least <= verdict.delay <= least + policy.base / 2)
      && (verdict.Fallback? <==>
            && call.chunks == 0
            && (call.error.value == Status(429) || (Transient(call.error.value) && i + 1 >= policy.maxAttempts)))
  {
    BackoffWithin(policy, i, calls(i).clock);
    hide Backoff, Power2;
  }

  /** Call after call is made for as long as they deliver nothing, fail for a
      moment only, and the policy allows another. The last one answers, or leaves
      its failure: worth trying elsewhere when it delivered nothing and failed for
      a moment or for too many requests, and to be given up otherwise. */
  lemma {:induction false} RetriesWhileTransient(policy: Policy, calls: nat -> Call, attempt: nat) returns (last: nat)
    ensures last >= attempt && |Stream(policy, calls, attempt).chunks| == last + 1 - attempt
    ensures forall i :: attempt <= i <= last ==> Stream(policy, calls, attempt).chunks[i - attempt] == calls(i).chunks
    ensures forall i :: attempt <= i < last ==> Passes(policy, calls, i)
    ensures Stream(policy, calls, attempt).failure.None? <==> calls(last).error.None?
    ensures Stream(policy, calls, attempt).failure.Some? ==>
      var (error, verdict), call := Stream(policy, calls, attempt).failure.value, calls(last);
      && error == call.error.value && (verdict.Fallback? || verdict.GiveUp?)
      && (verdict.Fallback? <==>
            call.chunks == 0 && (error == Status(429) || (Transient(error) && last + 1 >= policy.maxAttempts)))
    decreases policy.maxAttempts - attempt
  {
    hide VerdictOn, Passes, Transient;
    if calls(attempt).error.Some? {
      VerdictIs(policy, calls, attempt);
    }
    if calls(attempt).error.Some? && VerdictOn(policy, calls(attempt), attempt).Retry? {
      PassingIsBounded(policy, calls, attempt);
      last := RetriesWhileTransient(policy, calls, attempt + 1);
      var rest := Stream(policy, calls, attempt + 1).chunks;
      assert Stream(policy, calls, attempt).chunks == [calls(attempt).chunks] + rest;
      forall i | attempt <= i <= last ensures Stream(policy, calls, attempt).chunks[i - attempt] == calls(i).chunks {
        assert i > attempt ==> rest[i - (attempt + 1)] == calls(i).chunks;
      }
    } else {
      last := attempt;
    }
  }

  lemma PassingIsBounded(policy: Policy, calls: nat -> Call, i: nat)
    requires Passes(policy, calls, i)
    ensures i + 1 < policy.maxAttempts
  {
  }

  /** One provider, and its breaker: only a 429 opens it, even when it is too
      late to go on. */
  method RunStream(breakers: Breakers, profile: Name, fallback: Option<Name>, policy: Policy, calls: nat -> Call,
      now: nat)
    returns (r: Streamed, next: Option<Name>)
    modifies breakers
    ensures r == Stream(policy, calls, 0)
    ensures next == if r.failure.Some? && r.failure.value.1.Fallback? then fallback else None
    ensures breakers.open ==
      if r.failure.Some? && r.failure.value.0 == Status(429) then old(breakers.open)[profile := now + policy.cooldown]
      else old(breakers.open)
  {
    r := StreamWithRetry(policy, calls);
    next := None;
    if r.failure.Some? {
      if r.failure.value.0 == Status(429) {
        breakers.Open(profile, policy.cooldown, now);
      }
      if r.failure.value.1.Fallback? {
        next := fallback;
      }
    }
  }

  // ----- picking a profile

  /** The profile a fallback link leads to, if there is one. */
  function Next(file: File, name: Name): Option<Name> {
    if name in file && file[name].Some? && file[name].value in file then file[name] else None
  }

  /** The first profile from `current` on that is not cooling; none when the
      chain ends, or comes back to a profile already looked at. */
  function Pick(file: File, current: Name, seen: set<Name>, cooling: set<Name>): (r: Option<Name>)
    ensures current in file && r.Some? ==> r.value in file
    decreases file.Keys - seen
  {
    if current !in cooling then Some(current)
    else
      var next := Next(file, current);
      if next.Some? && next.value !in seen then Pick(file, next.value, seen + {next.value}, cooling) else None
  }

  method PickProfile(file: File, start: Name, cooling: set<Name>) returns (r: Option<Name>)
    requires start in file
    ensures r == Pick(file, start, {start}, cooling)
  {
    var current := start;
    var seen := [current];
    assert Elements(seen) == {start};
    while true
      invariant current in file && |seen| > 0
      invariant Pick(file, start, {start}, cooling) == Pick(file, current, Elements(seen), cooling)
      decreases file.Keys - Elements(seen)
    {
      if current !in cooling {
        return Some(current);
      }
      var next := Next(file, current);
      if next.None? || next.value in seen {
        return None;
      }
      assert Elements(seen + [next.value]) == Elements(seen) + {next.value};
      seen := seen + [next.value];
      current := next.value;
    }
  }

  /** A way along fallback links, each to a profile there is. */
  ghost predicate Way(file: File, path: seq<Name>) {
    && (forall i :: 0 <= i < |path| ==> path[i] in file)
    && (forall i :: 0 <= i < |path| - 1 ==> file[path[i]] == Some(path[i + 1]))
  }

  /** The profile picked is the first on the way along the links that is not cooling;
      none when everyone on it is, up to where it ends or comes back. */
  lemma {:induction false} PickWalks(file: File, current: Name, seen: set<Name>, cooling: set<Name>)
    returns (path: seq<Name>)
    requires current in file
    ensures path != [] && path[0] == current && Way(file, path)
    ensures forall i :: 0 <= i < |path| - 1 ==> path[i] in cooling
    ensures var last, r := path[|path| - 1], Pick(file, current, seen, cooling);
      && (last in cooling <==> r.None?) && (r.Some? ==> r.value == last)
      && (r.None? ==> file[last].None? || file[last].value !in file
                      || file[last].value in seen || file[last].value in path)
    decreases file.Keys - seen
  {
    var next := Next(file, current);
    if current in cooling && next.Some? && next.value !in seen {
      var rest := PickWalks(file, next.value, seen + {next.value}, cooling);
      path := [current] + rest;
      assert rest[0] in path;
    } else {
      path := [current];
    }
  }

  function Elements<T>(s: seq<T>): set<T> {
    set x | x in s
  }

  // ----- the chain

  /** One round of a chain: who is cooling while a profile is picked, whether
      anything else (a budget, redaction) refuses, and what the calls do. */
  datatype Round = Round(cooling: set<Name>, refused: bool, calls: nat -> Call)

  /** One call to a provider. */
  datatype Attempt = Attempt(profile: Name, chunks: nat)

  datatype Ending = Answered(profile: Name) | Failed(error: ProviderError) | Refused

  datatype Chain =
    | Running(start: Name, tried: seq<Name>, log: seq<Attempt>)
    | Ended(ending: Ending, tried: seq<Name>, log: seq<Attempt>)

  function Attempts(profile: Name, chunks: seq<nat>): (a: seq<Attempt>)
    ensures |a| == |chunks|
  {
    seq(|chunks|, i requires 0 <= i < |chunks| => Attempt(profile, chunks[i]))
  }

  function OneRound(file: File, policy: Policy, s: Chain, round: Round): Chain
    requires s.Running?
  {
    var picked := if s.start in file then Pick(file, s.start, {s.start}, round.cooling) else None;
    if picked.None? || round.refused then Ended(Refused, s.tried, s.log)
    else
      var tried := s.tried + [picked.value];
      var r := Stream(policy, round.calls, 0);
      var log := s.log + Attempts(picked.value, r.chunks);
      var fallback := file[picked.value];
      if r.failure.None? then Ended(Answered(picked.value), tried, log)
      else if r.failure.value.1.Fallback? && fallback.Some? && fallback.value !in tried then
        Running(fallback.value, tried, log)
      else Ended(Failed(r.failure.value.0), tried, log)
  }

  /** The chain after so many rounds. */
  function After(file: File, policy: Policy, first: Name, env: nat -> Round, rounds: nat): Chain {
    if rounds == 0 then Running(first, [], [])
    else
      var s := After(file, policy, first, env, rounds - 1);
      if s.Ended? then s else OneRound(file, policy, s, env(rounds - 1))
  }

  /** The loop over the chain, cut off after so many rounds. */
  method RunChain(file: File, policy: Policy, first: Name, env: nat -> Round, rounds: nat) returns (s: Chain)
    ensures s == After(file, policy, first, env, rounds)
  {
    hide Stream, Pick;
    var start := first;
    var tried: seq<Name> := [];
    var log: seq<Attempt> := [];
    var k := 0;
    while k < rounds
      invariant 0 <= k <= rounds
      invariant After(file, policy, first, env, k) == Running(start, tried, log)
    {
      var round := env(k);
      k := k + 1;
      assert After(file, policy, first, env, k) == OneRound(file, policy, Running(start, tried, log), round);
      if start !in file {
        StaysEnded(file, policy, first, env, k, rounds);
        return Ended(Refused, tried, log);
      }
      var picked := PickProfile(file, start, round.cooling);
      if picked.None? || round.refused {
        StaysEnded(file, policy, first, env, k, rounds);
        return Ended(Refused, tried, log);
      }
      tried := tried + [picked.value];
      var r := StreamWithRetry(policy, round.calls);
      log := log + Attempts(picked.value, r.chunks);
      if r.failure.None? {
        StaysEnded(file, policy, first, env, k, rounds);
        return Ended(Answered(picked.value), tried, log);
      }
      var next := if r.failure.value.1.Fallback? then file[picked.value] else None;
      if next.None? || next.value in tried {
        StaysEnded(file, policy, first, env, k, rounds);
        return Ended(Failed(r.failure.value.0), tried, log);
      }
      start := next.value;
    }
    s := Running(start, tried, log);
  }

  lemma {:induction false} StaysEnded(file: File, policy: Policy, first: Name, env: nat -> Round, k: nat, rounds: nat)
    requires k <= rounds && After(file, policy, first, env, k).Ended?
    ensures After(file, policy, first, env, rounds) == After(file, policy, first, env, k)
    decreases rounds
  {
    if k < rounds {
      StaysEnded(file, policy, first, env, k, rounds - 1);
    }
  }

  // ----- what a round is

  /** The call is followed by the next profile, if there is one: it delivered nothing,
      and failed for too many requests, or for a moment and too often. */
  predicate FallsBack(policy: Policy, call: Call, i: nat) {
    && call.chunks == 0 && call.error.Some?
    && (call.error == Some(Status(429)) || (Transient(call.error.value) && i + 1 >= policy.maxAttempts))
  }

  /** One round: it is refused, with nothing called, when something else refuses or
      everyone on the way is cooling. Otherwise the first on the way that is not is
      tried, and called as long as its calls pass; if the last call had no error it has
      answered; if the call falls back, and the profile's own fallback was not tried
      before, that is next; else the last error is the chain's. */
  lemma RoundSays(file: File, policy: Policy, s: Chain, round: Round) returns (path: seq<Name>, last: nat)
    requires s.Running? && s.start in file
    ensures path != [] && path[0] == s.start && Way(file, path)
    ensures forall i :: 0 <= i < |path| - 1 ==> path[i] in round.cooling
    ensures forall i :: 0 <= i < last ==> Passes(policy, round.calls, i)
    ensures var s', p := OneRound(file, policy, s, round), path[|path| - 1];
      var call := round.calls(last);
      if round.refused || p in round.cooling then s' == Ended(Refused, s.tried, s.log)
      else
        && s'.tried == s.tried + [p] && |s'.log| == |s.log| + last + 1 && s.log <= s'.log
        && (forall i :: 0 <= i <= last ==> s'.log[|s.log| + i] == Attempt(p, round.calls(i).chunks))
        && (call.error.None? ==> s'.Ended? && s'.ending == Answered(p))
        && (call.error.Some? ==>
              if FallsBack(policy, call, last) && file[p].Some? && file[p].value !in s'.tried
              then s'.Running? && s'.start == file[p].value
              else s'.Ended? && s'.ending == Failed(call.error.value))
  {
    path := PickWalks(file, s.start, {s.start}, round.cooling);
    last := RetriesWhileTransient(policy, round.calls, 0);
    hide Pick, Stream, Passes, Transient;
    var s', p := OneRound(file, policy, s, round), path[|path| - 1];
    if !round.refused && p !in round.cooling {
      var chunks := Stream(policy, round.calls, 0).chunks;
      forall i | 0 <= i <= last ensures s'.log[|s.log| + i] == Attempt(p, round.calls(i).chunks) {
        assert chunks[i - 0] == round.calls(i).chunks;
      }
    }
  }

  /** A chain starts with its first profile and nothing tried, and ends for good. */
  lemma ChainStarts(file: File, policy: Policy, first: Name, env: nat -> Round)
    ensures After(file, policy, first, env, 0) == Running(first, [], [])
    ensures first !in file ==> After(file, policy, first, env, 1) == Ended(Refused, [], [])
  {
    assert After(file, policy, first, env, 1) == OneRound(file, policy, After(file, policy, first, env, 0), env(0));
  }

  // ----- at most one call delivers

  function Allowed(policy: Policy): nat {
    if policy.maxAttempts > 1 then policy.maxAttempts else 1
  }

  function CallsTo(log: seq<Attempt>, profile: Name): nat {
    if log == [] then 0 else CallsTo(log[..|log| - 1], profile) + if log[|log| - 1].profile == profile then 1 else 0
  }

  function Times(tried: seq<Name>, profile: Name): nat {
    if tried == [] then 0 else Times(tried[..|tried| - 1], profile) + if tried[|tried| - 1] == profile then 1 else 0
  }

  /** Nothing was delivered by a call that another call followed. */
  predicate OnlyLastDelivers(s: Chain) {
    && (forall i :: 0 <= i < |s.log| - 1 ==> s.log[i].chunks == 0)
    && (s.Running? ==> forall i :: 0 <= i < |s.log| ==> s.log[i].chunks == 0)
  }

  lemma RoundDelivers(file: File, policy: Policy, s: Chain, round: Round)
    requires s.Running? && OnlyLastDelivers(s)
    ensures OnlyLastDelivers(OneRound(file, policy, s, round))
  {
    hide Pick, Stream;
    OnlyTheLastCallDelivers(policy, round.calls, 0);
  }

  /** In every run, whatever the breakers and the providers do, at most one call
      ever delivers chunks, and it is the last call made. */
  lemma {:induction false} AtMostOneCallDelivers(file: File, policy: Policy, first: Name, env: nat -> Round,
      rounds: nat)
    ensures OnlyLastDelivers(After(file, policy, first, env, rounds))
  {
    hide OneRound;
    if rounds > 0 {
      AtMostOneCallDelivers(file, policy, first, env, rounds - 1);
      var s := After(file, policy, first, env, rounds - 1);
      if s.Running? {
        RoundDelivers(file, policy, s, env(rounds - 1));
      }
    }
  }

  lemma {:induction false} CallsToAttempts(log: seq<Attempt>, profile: Name, chunks: seq<nat>, other: Name)
    ensures CallsTo(log + Attempts(profile, chunks), other) ==
      CallsTo(log, other) + if profile == other then |chunks| else 0
  {
    if chunks == [] {
      assert log + Attempts(profile, chunks) == log;
    } else {
      var init := chunks[..|chunks| - 1];
      var all := log + Attempts(profile, chunks);
      CallsToAttempts(log, profile, init, other);
      assert all[..|all| - 1] == log + Attempts(profile, init);
    }
  }

  lemma TimesSnoc(tried: seq<Name>, picked: Name, profile: Name)
    ensures Times(tried + [picked], profile) == Times(tried, profile) + if picked == profile then 1 else 0
  {
    assert (tried + [picked])[..|tried|] == tried;
  }

  lemma OneTimeMore(t: nat, a: nat)
    ensures (t + 1) * a == t * a + a
  {
  }

  lemma RoundCalls(file: File, policy: Policy, s: Chain, round: Round, profile: Name)
    requires s.Running? && CallsTo(s.log, profile) <= Times(s.tried, profile) * Allowed(policy)
    ensures var s' := OneRound(file, policy, s, round);
      CallsTo(s'.log, profile) <= Times(s'.tried, profile) * Allowed(policy)
  {
    hide Pick, Stream, CallsTo, Times;
    OnlyTheLastCallDelivers(policy, round.calls, 0);
    var s' := OneRound(file, policy, s, round);
    var r := Stream(policy, round.calls, 0);
    if s'.tried != s.tried {
      var picked := s'.tried[|s.tried|];
      TimesSnoc(s.tried, picked, profile);
      CallsToAttempts(s.log, picked, r.chunks, profile);
      OneTimeMore(Times(s.tried, profile), Allowed(policy));
    }
  }

  /** Each time a profile is tried it is called at most as often as the policy
      allows. */
  lemma {:induction false} CallsAreBounded(file: File, policy: Policy, first: Name, env: nat -> Round, rounds: nat,
      profile: Name)
    ensures var s := After(file, policy, first, env, rounds);
      CallsTo(s.log, profile) <= Times(s.tried, profile) * Allowed(policy)
  {
    hide OneRound;
    if rounds > 0 {
      CallsAreBounded(file, policy, first, env, rounds - 1, profile);
      var s := After(file, policy, first, env, rounds - 1);
      if s.Running? {
        RoundCalls(file, policy, s, env(rounds - 1), profile);
      }
    }
  }

  // ----- when the fallback links lead nowhere twice

  /** Following the fallback links, a profile without one, with its own name for
      one, or a name that is no profile comes within so many links. */
  predicate SettlesWithin(file: File, name: Name, links: nat)
    decreases links
  {
    || name !in file
    || file[name].None?
    || file[name].value == name
    || (links > 0 && SettlesWithin(file, file[name].value, links - 1))
  }

  predicate Settles(file: File, name: Name) {
    SettlesWithin(file, name, |file|)
  }

  /** How many profiles are left from here on. */
  predicate HasHeight(file: File, name: Name, h: nat)
    decreases h
  {
    if name !in file then h == 0
    else if file[name].None? || file[name].value == name then h == 1
    else h > 0 && HasHeight(file, file[name].value, h - 1)
  }

  lemma {:induction false} HeightIsUnique(file: File, name: Name, g: nat, h: nat)
    requires HasHeight(file, name, g) && HasHeight(file, name, h)
    ensures g == h
    decreases g
  {
    if name in file && file[name].Some? && file[name].value != name {
      HeightIsUnique(file, file[name].value, g - 1, h - 1);
    }
  }

  lemma {:induction false} SettledHasHeight(file: File, name: Name, links: nat) returns (h: nat)
    requires SettlesWithin(file, name, links)
    ensures HasHeight(file, name, h) && h <= links + 1
    decreases links
  {
    if name !in file {
      h := 0;
    } else if file[name].None? || file[name].value == name {
      h := 1;
    } else {
      h := SettledHasHeight(file, file[name].value, links - 1);
      h := h + 1;
    }
  }

  /** A profile is picked from what is left of the chain. */
  lemma {:induction false} PickDescends(file: File, current: Name, seen: set<Name>, cooling: set<Name>, h: nat)
    returns (g: nat)
    requires HasHeight(file, current, h) && current in file && current in seen
    requires Pick(file, current, seen, cooling).Some?
    ensures g <= h && HasHeight(file, Pick(file, current, seen, cooling).value, g)
    ensures Pick(file, current, seen, cooling).value in file
    decreases file.Keys - seen
  {
    if current !in cooling {
      g := h;
    } else {
      var next := Next(file, current).value;
      g := PickDescends(file, next, seen + {next}, cooling, h - 1);
    }
  }

  ghost predicate Higher(file: File, name: Name, h: nat) {
    exists g :: g > h && HasHeight(file, name, g)
  }

  /** A running chain whose start is below everything tried. */
  ghost predicate Descending(file: File, s: Chain, h: nat) {
    && NoneTwice(s.tried)
    && (s.Running? ==> HasHeight(file, s.start, h) && forall i :: 0 <= i < |s.tried| ==> Higher(file, s.tried[i], h))
  }

  lemma RoundDescends(file: File, policy: Policy, s: Chain, round: Round, h: nat) returns (g: nat)
    requires s.Running? && Descending(file, s, h)
    ensures Descending(file, OneRound(file, policy, s, round), g)
    ensures OneRound(file, policy, s, round).Running? ==> g < h
  {
    hide Stream, Pick, HasHeight;
    var s' := OneRound(file, policy, s, round);
    g := 0;
    if s'.tried != s.tried {
      var p := Pick(file, s.start, {s.start}, round.cooling).value;
      var at := PickDescends(file, s.start, {s.start}, round.cooling, h);
      forall i | 0 <= i < |s.tried| ensures s.tried[i] != p && Higher(file, s.tried[i], at) {
        StillHigher(file, s.tried[i], p, h, at);
      }
      if s'.Running? {
        g := BelowPicked(file, p, at);
        assert p in s'.tried;
        forall i | 0 <= i < |s'.tried| ensures Higher(file, s'.tried[i], g) {
          if i < |s.tried| {
            HigherStill(file, s.tried[i], at, g);
          }
        }
      }
    }
  }

  lemma StillHigher(file: File, t: Name, p: Name, h: nat, at: nat)
    requires Higher(file, t, h) && at <= h && HasHeight(file, p, at)
    ensures t != p && Higher(file, t, at)
  {
    hide HasHeight;
    var g :| g > h && HasHeight(file, t, g);
    if t == p {
      HeightIsUnique(file, t, g, at);
    }
  }

  lemma HigherStill(file: File, t: Name, at: nat, g: nat)
    requires Higher(file, t, at) && g <= at
    ensures Higher(file, t, g)
  {
    hide HasHeight;
    var k :| k > at && HasHeight(file, t, k);
  }

  lemma BelowPicked(file: File, p: Name, at: nat) returns (g: nat)
    requires p in file && HasHeight(file, p, at) && file[p].Some?
    ensures at > 0 && Higher(file, p, at - 1) && g == at - 1
    ensures file[p].value != p ==> HasHeight(file, file[p].value, g)
  {
    g := at - 1;
  }

  /** The chain descends by at least one profile a round. */
  lemma {:induction false} ChainDescends(file: File, policy: Policy, first: Name, env: nat -> Round, rounds: nat,
      top: nat) returns (h: nat)
    requires HasHeight(file, first, top)
    ensures var s := After(file, policy, first, env, rounds);
      Descending(file, s, h) && (s.Running? ==> h + rounds <= top)
  {
    hide OneRound, HasHeight;
    if rounds == 0 {
      h := top;
    } else {
      var before := ChainDescends(file, policy, first, env, rounds - 1, top);
      var s := After(file, policy, first, env, rounds - 1);
      h := before;
      if s.Running? {
        h := RoundDescends(file, policy, s, env(rounds - 1), before);
      }
    }
  }

  /** When the fallback links settle, a chain ends within one round more than
      there are profiles and tries none of them twice, whatever the breakers do
      meanwhile. */
  lemma SettledChainEnds(file: File, policy: Policy, first: Name, env: nat -> Round, rounds: nat)
    requires Settles(file, first)
    ensures NoneTwice(After(file, policy, first, env, rounds).tried)
    ensures rounds > |file| + 1 ==> After(file, policy, first, env, rounds).Ended?
  {
    var top := SettledHasHeight(file, first, |file|);
    var h := ChainDescends(file, policy, first, env, rounds, top);
  }

  // ----- when they come back to where they were

  /** So many links from `name` lead to profiles, none to itself. */
  predicate Links(file: File, name: Name, k: nat)
    decreases k
  {
    k == 0 || (Next(file, name).Some? && Next(file, name).value != name && Links(file, Next(file, name).value, k - 1))
  }

  function Link(file: File, name: Name, k: nat): Name
    requires Links(file, name, k)
    decreases k
  {
    if k == 0 then name else Link(file, Next(file, name).value, k - 1)
  }

  lemma {:induction false} UnsettledLinks(file: File, name: Name, links: nat, k: nat)
    requires !SettlesWithin(file, name, links) && k <= links
    ensures Links(file, name, k) && !SettlesWithin(file, Link(file, name, k), links - k)
    decreases k
  {
    if k > 0 {
      UnsettledLinks(file, file[name].value, links - 1, k - 1);
    }
  }

  lemma {:induction false} LinkInTurn(file: File, name: Name, i: nat, k: nat)
    requires Links(file, name, i + k)
    ensures Links(file, name, i) && Links(file, Link(file, name, i), k)
    ensures Link(file, name, i + k) == Link(file, Link(file, name, i), k)
    decreases i
  {
    if i > 0 {
      LinkInTurn(file, Next(file, name).value, i - 1, k);
    }
  }

  /** The first time links lead to `goal`. */
  predicate Leads(file: File, name: Name, goal: Name, d: nat)
    decreases d
  {
    if d == 0 then name == goal
    else name != goal && Next(file, name).Some? && Leads(file, Next(file, name).value, goal, d - 1)
  }

  lemma {:induction false} LeadsOnce(file: File, name: Name, goal: Name, d: nat, e: nat)
    requires Leads(file, name, goal, d) && Leads(file, name, goal, e)
    ensures d == e
    decreases d
  {
    if d > 0 && e > 0 {
      LeadsOnce(file, Next(file, name).value, goal, d - 1, e - 1);
    }
  }

  lemma {:induction false} LinkLeads(file: File, name: Name, k: nat) returns (d: nat)
    requires Links(file, name, k)
    ensures Leads(file, name, Link(file, name, k), d)
    decreases k
  {
    if name == Link(file, name, k) {
      d := 0;
    } else {
      d := LinkLeads(file, Next(file, name).value, k - 1);
      d := d + 1;
    }
  }

  /** `goal` is further off than that. */
  ghost predicate Further(file: File, name: Name, goal: Name, d: nat) {
    exists e :: e > d && Leads(file, name, goal, e)
  }

  lemma FurtherStill(file: File, name: Name, goal: Name, d: nat)
    requires d > 0 && (Leads(file, name, goal, d) || Further(file, name, goal, d))
    ensures Further(file, name, goal, d - 1)
  {
    hide Leads;
    if !Leads(file, name, goal, d) {
      var e :| e > d && Leads(file, name, goal, e);
    }
  }

  lemma FurtherIsElsewhere(file: File, name: Name, goal: Name, d: nat)
    requires Leads(file, name, goal, d)
    ensures !Further(file, name, goal, d)
  {
    hide Leads;
    if Further(file, name, goal, d) {
      var e :| e > d && Leads(file, name, goal, e);
      LeadsOnce(file, name, goal, d, e);
    }
  }

  /** With everyone but `goal` cooling, the walk gets there if the links do. */
  lemma {:induction false} PickLeads(file: File, current: Name, goal: Name, d: nat, seen: set<Name>)
    requires Leads(file, current, goal, d) && goal in file
    requires forall m :: m in seen && m != current ==> Further(file, m, goal, d)
    ensures Pick(file, current, seen, file.Keys - {goal}) == Some(goal)
    decreases d
  {
    hide Further;
    if current != goal {
      var next := Next(file, current).value;
      forall m | m in seen ensures m != next && Further(file, m, goal, d - 1) {
        FurtherStill(file, m, goal, d);
        FurtherIsElsewhere(file, next, goal, d - 1);
      }
      PickLeads(file, next, goal, d - 1, seen + {next});
    }
  }

  /** A sequence longer than the set it is drawn from repeats itself. */
  lemma {:induction false} NoneTwiceFits(names: seq<Name>, all: set<Name>)
    requires NoneTwice(names) && forall i :: 0 <= i < |names| ==> names[i] in all
    ensures |names| <= |all|
  {
    if names != [] {
      var last := names[|names| - 1];
      NoneTwiceFits(names[..|names| - 1], all - {last});
      assert |all - {last}| == |all| - 1;
    }
  }

  /** Unsettled links come back to a profile after two links or more. */
  lemma UnsettledRepeats(file: File, first: Name) returns (i: nat, j: nat)
    requires !Settles(file, first)
    ensures i < j && Links(file, first, i) && Links(file, first, j)
    ensures Link(file, first, i) == Link(file, first, j) && Link(file, first, i) in file
  {
    hide Links, Link, SettlesWithin;
    var n := |file|;
    forall k | 0 <= k <= n ensures Links(file, first, k) && Link(file, first, k) in file {
      UnsettledLinks(file, first, n, k);
      UnsettledIsKnown(file, Link(file, first, k), n - k);
    }
    var names := seq(n + 1, k requires 0 <= k <= n => Link(file, first, k));
    if NoneTwice(names) {
      assert |file.Keys| == |file|;
      NoneTwiceFits(names, file.Keys);
    }
    i, j :| 0 <= i < j < |names| && names[i] == names[j];
    assert names[i] == Link(file, first, i) && names[j] == Link(file, first, j);
  }

  lemma UnsettledIsKnown(file: File, name: Name, links: nat)
    requires !SettlesWithin(file, name, links)
    ensures name in file
  {
  }

  /** A profile that unsettled links come to, and come back to. */
  lemma UnsettledLoops(file: File, first: Name) returns (x: Name, d: nat, e: nat)
    requires !Settles(file, first)
    ensures x in file && file[x].Some? && file[x].value != x
    ensures Leads(file, first, x, d) && Leads(file, file[x].value, x, e)
  {
    hide Settles, Leads;
    var i, j := UnsettledRepeats(file, first);
    x := Link(file, first, i);
    d := LinkLeads(file, first, i);
    LinkInTurn(file, first, i, j - i);
    assert Links(file, x, j - i) && Link(file, x, j - i) == x;
    var next := Next(file, x).value;
    assert Links(file, next, j - i - 1) && Link(file, next, j - i - 1) == x;
    e := LinkLeads(file, next, j - i - 1);
  }

  const FAILING := Call(0, Some(Transport), 0)

  function Unlucky(file: File, goal: Name): Round {
    Round(file.Keys - {goal}, false, (_: nat) => FAILING)
  }

  lemma {:induction false} FailingFallsBack(policy: Policy, attempt: nat)
    ensures Stream(policy, (_: nat) => FAILING, attempt).failure == Some((Transport, Fallback))
    decreases policy.maxAttempts - attempt
  {
    if attempt + 1 < policy.maxAttempts {
      FailingFallsBack(policy, attempt + 1);
    }
  }

  predicate OnlyTried(tried: seq<Name>, x: Name) {
    forall i :: 0 <= i < |tried| ==> tried[i] == x
  }

  lemma UnluckyRound(file: File, policy: Policy, s: Chain, x: Name, d: nat)
    requires s.Running? && OnlyTried(s.tried, x) && x in file && file[x].Some? && file[x].value != x
    requires Leads(file, s.start, x, d)
    ensures var s' := OneRound(file, policy, s, Unlucky(file, x));
      s'.Running? && OnlyTried(s'.tried, x) && s'.start == file[x].value && s'.tried == s.tried + [x]
  {
    hide Stream;
    StartIsKnown(file, s.start, x, d);
    PickLeads(file, s.start, x, d, {s.start});
    FailingFallsBack(policy, 0);
    assert Unlucky(file, x).calls == ((_: nat) => FAILING);
  }

  lemma StartIsKnown(file: File, name: Name, goal: Name, d: nat)
    requires Leads(file, name, goal, d) && goal in file
    ensures name in file
  {
  }

  /** Were everyone on the way but one profile cooling, and that one failing, the
      chain would come back to it again and again. */
  lemma {:induction false} UnluckyChainGoesOn(file: File, policy: Policy, first: Name, x: Name, d: nat, e: nat,
      rounds: nat)
    requires x in file && file[x].Some? && file[x].value != x
    requires Leads(file, first, x, d) && Leads(file, file[x].value, x, e)
    ensures var s := After(file, policy, first, (_: nat) => Unlucky(file, x), rounds);
      s.Running? && OnlyTried(s.tried, x) && |s.tried| == rounds
    ensures rounds > 0 ==> After(file, policy, first, (_: nat) => Unlucky(file, x), rounds).start == file[x].value
    decreases rounds
  {
    if rounds > 0 {
      hide OneRound, Unlucky, Leads;
      UnluckyChainGoesOn(file, policy, first, x, d, e, rounds - 1);
      var s := After(file, policy, first, (_: nat) => Unlucky(file, x), rounds - 1);
      UnluckyRound(file, policy, s, x, if rounds == 1 then d else e);
    }
  }

  ghost predicate EndsIn(file: File, policy: Policy, first: Name, env: nat -> Round) {
    exists rounds: nat :: After(file, policy, first, env, rounds).Ended?
  }

  /** A chain is sure to end exactly when its fallback links settle; a chain of
      profiles that comes back to one of them by way of another can call that
      profile without end, the list of profiles tried notwithstanding. */
  lemma EndsExactlyWhenSettled(file: File, policy: Policy, first: Name)
    ensures (forall env: nat -> Round :: EndsIn(file, policy, first, env)) <==> Settles(file, first)
  {
    if Settles(file, first) {
      forall env: nat -> Round ensures EndsIn(file, policy, first, env) {
        SettledChainEnds(file, policy, first, env, |file| + 2);
      }
    } else {
      hide After, Leads;
      var x, d, e := UnsettledLoops(file, first);
      var env: nat -> Round := (_: nat) => Unlucky(file, x);
      forall rounds: nat ensures After(file, policy, first, env, rounds).Running? {
        UnluckyChainGoesOn(file, policy, first, x, d, e, rounds);
      }
      assert !EndsIn(file, policy, first, env);
    }
  }

  /** A chain is sure to try no profile twice exactly when its fallback links
      settle. */
  lemma NoneTwiceExactlyWhenSettled(file: File, policy: Policy, first: Name)
    ensures (forall env: nat -> Round, rounds: nat :: NoneTwice(After(file, policy, first, env, rounds).tried))
      <==> Settles(file, first)
  {
    hide After, Leads;
    if Settles(file, first) {
      forall env: nat -> Round, rounds: nat ensures NoneTwice(After(file, policy, first, env, rounds).tried) {
        SettledChainEnds(file, policy, first, env, rounds);
      }
    } else {
      var x, d, e := UnsettledLoops(file, first);
      var env: nat -> Round := (_: nat) => Unlucky(file, x);
      UnluckyChainGoesOn(file, policy, first, x, d, e, 2);
      var tried := After(file, policy, first, env, 2).tried;
      assert tried[0] == tried[1];
    }
  }

  /** The smallest such chain: two profiles, each the fallback of the other. */
  lemma TwoProfilesDoNotSettle(a: Name, b: Name)
    requires a != b
    ensures !Settles(map[a := Some(b), b := Some(a)], a)
  {
    var file := map[a := Some(b), b := Some(a)];
    assert file.Keys == {a, b};
    assert !SettlesWithin(file, a, 0) && !SettlesWithin(file, b, 1);
    assert !SettlesWithin(file, a, 2);
    assert |file| == |file.Keys| == 2;
  }
}
