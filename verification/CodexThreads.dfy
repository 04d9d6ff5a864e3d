/** The observer of a Codex app-server: it resumes each thread it hears of, and
    tries again when the server is not ready, from threads of its own.

    Everything under the lock is one step. A pass over the pending threads takes
    them in some order (a hash map has none), and any send may fail. */
module CodexThreads {
  import opened Sequences
  import opened Wrappers

  type Thread = string

  /** `inFlight` and `sent` record the resumes that went out, and which of them
      the server has not answered; `waits` counts retries that will come;
      `failed` holds the threads whose last request could not be sent. */
  datatype State = State(subscribed: seq<Thread>, pending: map<Thread, Option<nat>>, nextId: nat,
                         sent: seq<(nat, Thread)>, inFlight: set<(nat, Thread)>, waits: nat, failed: set<Thread>)

  // ----- the operations

  function Noted(s: State, t: Thread): State {
    if t in s.subscribed || t in s.pending then s else s.(pending := s.pending[t := None])
  }

  function AllNoted(s: State, ts: seq<Thread>): State {
    if ts == [] then s else Noted(AllNoted(s, ts[..|ts| - 1]), ts[|ts| - 1])
  }

  /** One thread of the pass: a request goes out unless one already has. */
  function ResumedOne(s: State, t: Thread, fails: set<Thread>): State {
    if t !in s.pending || s.pending[t].Some? then s
    else if t in fails then s.(nextId := s.nextId + 1, failed := s.failed + {t})
    else
      s.(pending := s.pending[t := Some(s.nextId)], nextId := s.nextId + 1, sent := s.sent + [(s.nextId, t)],
         inFlight := s.inFlight + {(s.nextId, t)}, failed := s.failed - {t})
  }

  function Resumed(s: State, order: seq<Thread>, fails: set<Thread>): State {
    if order == [] then s else ResumedOne(Resumed(s, order[..|order| - 1], fails), order[|order| - 1], fails)
  }

  /** The thread whose request has this id. */
  ghost predicate Asked(s: State, id: nat, t: Thread) {
    t in s.pending && s.pending[t] == Some(id)
  }

  ghost function AskedBy(s: State, id: nat): (t: Option<Thread>)
    ensures t.Some? ==> Asked(s, id, t.value)
    ensures t.None? ==> forall u :: !Asked(s, id, u)
  {
    if u :| Asked(s, id, u) then Some(u) else None
  }

  /** The server has answered that id. */
  function Settled(inFlight: set<(nat, Thread)>, id: nat): set<(nat, Thread)> {
    set r | r in inFlight && r.0 != id
  }

  ghost function Responded(s: State, id: nat, refused: bool): State {
    var t := AskedBy(s, id);
    var s' := s.(inFlight := Settled(s.inFlight, id));
    if t.None? then s'
    else if refused then s'.(pending := s.pending[t.value := None], waits := s.waits + 1)
    else s'.(pending := s.pending - {t.value}, subscribed := s.subscribed + [t.value])
  }

  // ----- runs

  datatype Action =
    | Heard(threads: seq<Thread>, order: seq<Thread>, fails: set<Thread>)
    | Listed(threads: seq<Thread>, order: seq<Thread>, fails: set<Thread>)
    | Response(id: Option<nat>, refused: bool)
    | RetryFires(order: seq<Thread>, fails: set<Thread>)
    | OtherRequest

  predicate Covers(order: seq<Thread>, s: State) {
    forall t :: t in s.pending ==> t in order
  }

  ghost function Apply(s: State, a: Action): Option<State> {
    match a
    case Heard(threads, order, fails) =>
      var n := AllNoted(s, threads);
      if Covers(order, n) then Some(Resumed(n, order, fails)) else None
    case Listed(threads, order, fails) =>
      var n := AllNoted(s, threads);
      if Covers(order, n) then Some(Resumed(n, order, fails)) else None
    case Response(id, refused) => Some(if id.None? then s else Responded(s, id.value, refused))
    case RetryFires(order, fails) =>
      if s.waits == 0 || !Covers(order, s) then None
      else Some(Resumed(s.(waits := s.waits - 1), order, fails))
    case OtherRequest => Some(s.(nextId := s.nextId + 1))
  }

  ghost function RunFrom(s: State, actions: seq<Action>): Option<State> {
    if actions == [] then Some(s)
    else
      var before := RunFrom(s, actions[..|actions| - 1]);
      if before.None? then None else Apply(before.value, actions[|actions| - 1])
  }

  function Init(nextId: nat): State {
    State([], map[], nextId, [], {}, 0, {})
  }

  // ----- invariants

  ghost predicate Subscriptions(s: State) {
    NoneTwice(s.subscribed) && forall t :: t in s.pending ==> t !in s.subscribed
  }

  /** A request is in flight exactly when its thread is pending on it, ids are
      never used twice, and nobody is forgotten. */
  ghost predicate Requests(s: State) {
    && (forall id: nat, t: Thread :: (id, t) in s.inFlight <==> Asked(s, id, t))
    && (forall id: nat, t: Thread :: (id, t) in s.inFlight ==> id < s.nextId)
    && (forall id: nat, t: Thread, u: Thread :: (id, t) in s.inFlight && (id, u) in s.inFlight ==> t == u)
    && (forall t :: t in s.pending && s.pending[t].None? ==> t in s.failed || s.waits > 0)
  }

  ghost predicate Inv(s: State) {
    Subscriptions(s) && Requests(s)
  }

  /** Every thread the observer knows of. */
  ghost function Known(s: State): iset<Thread> {
    iset t | t in s.subscribed || t in s.pending
  }

  /** Noted threads whose request has yet to go out in the same step. */
  ghost predicate Noting(s: State) {
    && Subscriptions(s)
    && (forall id: nat, t: Thread :: (id, t) in s.inFlight <==> Asked(s, id, t))
    && (forall id: nat, t: Thread :: (id, t) in s.inFlight ==> id < s.nextId)
    && (forall id: nat, t: Thread, u: Thread :: (id, t) in s.inFlight && (id, u) in s.inFlight ==> t == u)
  }

  lemma NotedKeeps(s: State, t: Thread)
    requires Noting(s)
    ensures Noting(Noted(s, t)) && Known(Noted(s, t)) == Known(s) + iset{t}
    ensures Noted(s, t).sent == s.sent && Noted(s, t).subscribed == s.subscribed
  {
    var s' := Noted(s, t);
    forall id, u ensures Asked(s', id, u) <==> Asked(s, id, u) {
    }
  }

  lemma {:induction false} AllNotedKeeps(s: State, ts: seq<Thread>)
    requires Noting(s)
    ensures Noting(AllNoted(s, ts)) && Known(AllNoted(s, ts)) == Known(s) + (iset t | t in ts)
    ensures AllNoted(s, ts).sent == s.sent && AllNoted(s, ts).subscribed == s.subscribed
  {
    hide Noting, Noted, Known;
    if ts == [] {
      assert (iset t | t in ts) == iset{};
    } else {
      AllNotedKeeps(s, ts[..|ts| - 1]);
      NotedKeeps(AllNoted(s, ts[..|ts| - 1]), ts[|ts| - 1]);
      assert ts == ts[..|ts| - 1] + [ts[|ts| - 1]];
    }
  }

  /** A thread that was seen to in this pass: its request is in flight or could
      not be sent. */
  predicate SeenTo(s: State, t: Thread) {
    t in s.pending && s.pending[t].None? ==> t in s.failed
  }

  lemma ResumedOneKeeps(s: State, t: Thread, fails: set<Thread>)
    requires Noting(s)
    ensures var s' := ResumedOne(s, t, fails);
      && Noting(s') && SeenTo(s', t)
      && s'.pending.Keys == s.pending.Keys && s'.subscribed == s.subscribed && s'.waits == s.waits
      && (forall u :: SeenTo(s, u) ==> SeenTo(s', u))
  {
    var s' := ResumedOne(s, t, fails);
    if s' != s && t !in fails {
      forall id, u ensures Asked(s', id, u) <==> (Asked(s, id, u) || (id == s.nextId && u == t)) {
      }
    } else {
      forall id, u ensures Asked(s', id, u) <==> Asked(s, id, u) {
      }
    }
  }

  lemma {:induction false} ResumedKeeps(s: State, order: seq<Thread>, fails: set<Thread>)
    requires Noting(s)
    ensures var s' := Resumed(s, order, fails);
      && Noting(s') && (forall t :: t in order ==> SeenTo(s', t))
      && s'.pending.Keys == s.pending.Keys && s'.subscribed == s.subscribed && s'.waits == s.waits
  {
    hide Noting, ResumedOne, SeenTo;
    if order != [] {
      var init, last := order[..|order| - 1], order[|order| - 1];
      ResumedKeeps(s, init, fails);
      ResumedOneKeeps(Resumed(s, init, fails), last, fails);
      assert order == init + [last];
    }
  }

  /** What one pass sends goes to pending threads only, once each, and none of it
      is answered yet. */
  lemma {:induction false} ResumedSends(s: State, order: seq<Thread>, fails: set<Thread>)
    ensures var s' := Resumed(s, order, fails);
      && s.sent <= s'.sent
      && (forall i :: |s.sent| <= i < |s'.sent| ==> s'.sent[i].1 in s.pending)
      && s'.pending.Keys == s.pending.Keys
  {
    if order != [] {
      ResumedSends(s, order[..|order| - 1], fails);
    }
  }

  lemma AllSeenTo(s: State, order: seq<Thread>, fails: set<Thread>)
    requires Noting(s) && Covers(order, s)
    ensures Inv(Resumed(s, order, fails))
  {
    hide Resumed;
    ResumedKeeps(s, order, fails);
  }

  lemma RespondedKeeps(s: State, id: nat, refused: bool)
    requires Inv(s)
    ensures Inv(Responded(s, id, refused)) && Known(Responded(s, id, refused)) == Known(s)
  {
    var s' := Responded(s, id, refused);
    var t := AskedBy(s, id);
    forall other, u ensures Asked(s', other, u) <==> Asked(s, other, u) && other != id {
      if t.Some? && u == t.value {
        assert Asked(s, id, u);
      }
      if t.Some? && Asked(s, id, u) {
        assert (id, u) in s.inFlight && (id, t.value) in s.inFlight;
      }
    }
  }

  lemma StepKeeps(s: State, a: Action, s': State)
    requires Inv(s) && Apply(s, a) == Some(s')
    ensures Inv(s') && Known(s') >= Known(s)
  {
    hide Resumed, AllNoted, Responded;
    match a
    case Heard(threads, order, fails) =>
      AllNotedKeeps(s, threads);
      AllSeenTo(AllNoted(s, threads), order, fails);
      ResumedKeeps(AllNoted(s, threads), order, fails);
    case Listed(threads, order, fails) =>
      AllNotedKeeps(s, threads);
      AllSeenTo(AllNoted(s, threads), order, fails);
      ResumedKeeps(AllNoted(s, threads), order, fails);
    case Response(id, refused) =>
      if id.Some? {
        RespondedKeeps(s, id.value, refused);
      }
    case RetryFires(order, fails) =>
      var waiting := s.(waits := s.waits - 1);
      assert forall id: nat, t: Thread :: Asked(waiting, id, t) <==> Asked(s, id, t);
      AllSeenTo(waiting, order, fails);
      ResumedKeeps(waiting, order, fails);
    case OtherRequest =>
      assert forall id: nat, t: Thread :: Asked(s', id, t) <==> Asked(s, id, t);
  }

  lemma {:induction false} RunKeeps(s: State, actions: seq<Action>, s': State)
    requires Inv(s) && RunFrom(s, actions) == Some(s')
    ensures Inv(s') && Known(s') >= Known(s)
    decreases |actions|
  {
    hide Inv, Known, Apply;
    if actions == [] {
      assert Known(s) >= Known(s);
    } else {
      var before := RunFrom(s, actions[..|actions| - 1]).value;
      RunKeeps(s, actions[..|actions| - 1], before);
      StepKeeps(before, actions[|actions| - 1], s');
    }
  }

  /** In every run, whatever the server answers and however retries fall between:
      subscribed and pending threads are duplicate-free and apart, and every
      thread ever known is in exactly one of the two. */
  lemma ThreadsArePartitioned(nextId: nat, actions: seq<Action>, s: State, more: seq<Action>, s': State, t: Thread)
    requires RunFrom(Init(nextId), actions) == Some(s) && RunFrom(s, more) == Some(s')
    ensures NoneTwice(s.subscribed) && NoneTwice(s'.subscribed)
    ensures t in s.subscribed || t in s.pending ==> (t in s'.subscribed) != (t in s'.pending)
  {
    InitInv(nextId);
    hide Requests, RunFrom;
    RunKeeps(Init(nextId), actions, s);
    RunKeeps(s, more, s');
    assert t in Known(s) ==> t in Known(s');
  }

  lemma InitInv(nextId: nat)
    ensures Inv(Init(nextId))
  {
    assert forall id: nat, t: Thread :: !Asked(Init(nextId), id, t);
  }

  /** At most one resume is in flight for a thread; none is for a thread that is
      subscribed; and a thread with none waits for a retry, or its last request
      could not be sent. */
  lemma OneResumeInFlight(nextId: nat, actions: seq<Action>, s: State, t: Thread, i: nat, j: nat)
    requires RunFrom(Init(nextId), actions) == Some(s)
    ensures (i, t) in s.inFlight && (j, t) in s.inFlight ==> i == j
    ensures (i, t) in s.inFlight ==> t !in s.subscribed
    ensures t in s.pending && (forall k: nat :: (k, t) !in s.inFlight) ==> s.waits > 0 || t in s.failed
  {
    InitInv(nextId);
    hide RunFrom;
    RunKeeps(Init(nextId), actions, s);
    if t in s.pending && s.pending[t].Some? {
      assert Asked(s, s.pending[t].value, t);
    }
  }

  lemma RespondedGrows(s: State, id: nat, refused: bool)
    ensures Responded(s, id, refused).sent == s.sent && s.subscribed <= Responded(s, id, refused).subscribed
  {
  }

  lemma {:induction false} AllNotedAdds(s: State, ts: seq<Thread>)
    ensures var n := AllNoted(s, ts);
      && n.sent == s.sent && n.subscribed == s.subscribed
      && (forall t :: t in s.subscribed && t !in s.pending ==> t !in n.pending)
  {
    if ts != [] {
      AllNotedAdds(s, ts[..|ts| - 1]);
    }
  }

  /** One step sends nothing to a subscribed thread. */
  lemma StepSends(s: State, a: Action, s': State)
    requires Inv(s) && Apply(s, a) == Some(s')
    ensures s.sent <= s'.sent && (forall t :: t in s.subscribed ==> t in s'.subscribed)
    ensures forall i :: |s.sent| <= i < |s'.sent| ==> s'.sent[i].1 !in s.subscribed
  {
    hide Resumed, AllNoted, Responded, Requests, Covers;
    match a
    case Heard(threads, order, fails) =>
      AllNotedAdds(s, threads);
      ResumedSends(AllNoted(s, threads), order, fails);
      ResumedSubscribed(AllNoted(s, threads), order, fails);
    case Listed(threads, order, fails) =>
      AllNotedAdds(s, threads);
      ResumedSends(AllNoted(s, threads), order, fails);
      ResumedSubscribed(AllNoted(s, threads), order, fails);
    case Response(id, refused) =>
      if id.Some? {
        RespondedGrows(s, id.value, refused);
      }
    case RetryFires(order, fails) =>
      ResumedSends(s.(waits := s.waits - 1), order, fails);
      ResumedSubscribed(s.(waits := s.waits - 1), order, fails);
    case OtherRequest =>
  }

  lemma {:induction false} ResumedSubscribed(s: State, order: seq<Thread>, fails: set<Thread>)
    ensures Resumed(s, order, fails).subscribed == s.subscribed
  {
    if order != [] {
      ResumedSubscribed(s, order[..|order| - 1], fails);
    }
  }

  /** A subscribed thread stays subscribed, and is never sent another resume. */
  lemma {:induction false} SubscribedIsNeverResumed(s: State, more: seq<Action>, s': State, t: Thread)
    requires Inv(s) && RunFrom(s, more) == Some(s') && t in s.subscribed
    ensures t in s'.subscribed && s.sent <= s'.sent
    ensures forall i :: |s.sent| <= i < |s'.sent| ==> s'.sent[i].1 != t
    decreases |more|
  {
    if more != [] {
      hide Inv, Apply;
      var before := RunFrom(s, more[..|more| - 1]).value;
      SubscribedIsNeverResumed(s, more[..|more| - 1], before, t);
      RunKeeps(s, more[..|more| - 1], before);
      StepSends(before, more[|more| - 1], s');
    }
  }

  // ----- who is asked

  lemma {:induction false} AllNotedWith(s: State, ts: seq<Thread>)
    ensures var n := AllNoted(s, ts);
      forall t :: t in n.pending ==> n.pending[t] == if t in s.pending then s.pending[t] else None
    ensures s.pending.Keys <= AllNoted(s, ts).pending.Keys && AllNoted(s, ts).inFlight == s.inFlight
  {
    if ts != [] {
      AllNotedWith(s, ts[..|ts| - 1]);
    }
  }

  /** After a pass a thread has a request exactly if it had one before, or its turn
      came and the send went through. */
  lemma {:induction false} ResumedAsks(s: State, order: seq<Thread>, fails: set<Thread>)
    ensures var s' := Resumed(s, order, fails);
      && s'.pending.Keys == s.pending.Keys && s'.subscribed == s.subscribed
      && forall t :: t in s.pending ==> (s'.pending[t].Some? <==> s.pending[t].Some? || (t in order && t !in fails))
  {
    if order != [] {
      var init, last := order[..|order| - 1], order[|order| - 1];
      ResumedAsks(s, init, fails);
      assert order == init + [last];
    }
  }

  ghost predicate InFlight(s: State, t: Thread) {
    exists id: nat :: (id, t) in s.inFlight
  }

  lemma AskedIsInFlight(s: State, t: Thread)
    requires Inv(s)
    ensures InFlight(s, t) <==> t in s.pending && s.pending[t].Some?
  {
    hide Subscriptions;
    if t in s.pending && s.pending[t].Some? {
      assert Asked(s, s.pending[t].value, t);
    }
  }

  predicate IsPass(a: Action) {
    a.Heard? || a.Listed? || a.RetryFires?
  }

  /** After every message and every retry, whatever failed before, each thread known
      by then is subscribed or has its one resume in flight, exactly unless it had
      neither before and its send fails now. */
  lemma EveryoneIsAsked(s: State, a: Action, s': State, t: Thread)
    requires Inv(s) && IsPass(a) && Apply(s, a) == Some(s')
    requires t in s.subscribed || t in s.pending || (!a.RetryFires? && t in a.threads)
    ensures t in s'.subscribed || InFlight(s', t) <==> t in s.subscribed || InFlight(s, t) || t !in a.fails
  {
    StepKeeps(s, a, s');
    AskedIsInFlight(s, t);
    AskedIsInFlight(s', t);
    var n := if a.RetryFires? then s.(waits := s.waits - 1) else AllNoted(s, a.threads);
    if !a.RetryFires? {
      AllNotedKeeps(s, a.threads);
      AllNotedWith(s, a.threads);
      assert t in Known(n);
    }
    hide AllNoted, Resumed, Requests;
    ResumedAsks(n, a.order, a.fails);
  }

  // ----- what an answer does

  /** An answer to a thread's own request: accepted, the thread is subscribed;
      refused, it is pending again with no request and one more retry will come.
      Nothing else changes. */
  lemma AnswerSettles(s: State, id: nat, refused: bool, s': State, t: Thread)
    requires Inv(s) && Apply(s, Response(Some(id), refused)) == Some(s') && (id, t) in s.inFlight
    ensures !InFlight(s', t)
    ensures !refused ==> t in s'.subscribed && t !in s'.pending && s'.waits == s.waits
    ensures refused ==>
      t !in s'.subscribed && t in s'.pending && s'.pending[t].None? && s'.waits == s.waits + 1
    ensures forall u :: u != t ==>
      && (u in s'.subscribed <==> u in s.subscribed)
      && (u in s'.pending <==> u in s.pending) && (u in s.pending ==> s'.pending[u] == s.pending[u])
      && (InFlight(s', u) <==> InFlight(s, u))
  {
    StepKeeps(s, Response(Some(id), refused), s');
    assert Asked(s, id, t);
    assert AskedBy(s, id) == Some(t) by {
      OneAsker(s, id, t);
    }
    forall u {:trigger InFlight(s', u)} ensures InFlight(s', u) <==> u in s'.pending && s'.pending[u].Some? {
      AskedIsInFlight(s', u);
    }
    forall u {:trigger InFlight(s, u)} ensures InFlight(s, u) <==> u in s.pending && s.pending[u].Some? {
      AskedIsInFlight(s, u);
    }
    hide Inv, Requests, Subscriptions, InFlight;
  }

  lemma OneAsker(s: State, id: nat, t: Thread)
    requires Inv(s) && Asked(s, id, t)
    ensures AskedBy(s, id) == Some(t)
  {
    var u := AskedBy(s, id);
    assert u.Some? && Asked(s, id, u.value);
    assert (id, t) in s.inFlight && (id, u.value) in s.inFlight;
  }

  /** An answer to nobody's request changes nothing. */
  lemma StrayAnswer(s: State, id: nat, refused: bool, s': State)
    requires Inv(s) && Apply(s, Response(Some(id), refused)) == Some(s') && forall t :: (id, t) !in s.inFlight
    ensures s' == s
  {
    forall t ensures !Asked(s, id, t) {
      assert (id, t) !in s.inFlight;
    }
    forall r | r in s.inFlight ensures r.0 != id {
      assert (r.0, r.1) in s.inFlight;
    }
    assert Settled(s.inFlight, id) == s.inFlight;
  }

  /** Step i is the server's consent to a request for the thread that was in flight. */
  ghost predicate ConsentsAt(nextId: nat, actions: seq<Action>, i: nat, t: Thread) {
    && i < |actions| && RunFrom(Init(nextId), actions[..i]).Some?
    && Consents(RunFrom(Init(nextId), actions[..i]).value, actions[i], t)
  }

  ghost predicate Consents(s: State, a: Action, t: Thread) {
    a.Response? && a.id.Some? && !a.refused && (a.id.value, t) in s.inFlight
  }

  lemma StepSubscribes(s: State, a: Action, s': State, t: Thread)
    requires Inv(s) && Apply(s, a) == Some(s')
    ensures t in s'.subscribed <==> t in s.subscribed || Consents(s, a, t)
  {
    match a
    case Heard(threads, order, fails) =>
      AllNotedAdds(s, threads);
      ResumedSubscribed(AllNoted(s, threads), order, fails);
    case Listed(threads, order, fails) =>
      AllNotedAdds(s, threads);
      ResumedSubscribed(AllNoted(s, threads), order, fails);
    case Response(id, refused) =>
      if id.Some? {
        AnswerSubscribes(s, id.value, refused, s', t);
      }
    case RetryFires(order, fails) => ResumedSubscribed(s.(waits := s.waits - 1), order, fails);
    case OtherRequest =>
  }

  lemma AnswerSubscribes(s: State, id: nat, refused: bool, s': State, t: Thread)
    requires Inv(s) && Apply(s, Response(Some(id), refused)) == Some(s')
    ensures t in s'.subscribed <==> t in s.subscribed || (!refused && (id, t) in s.inFlight)
  {
    if u :| (id, u) in s.inFlight {
      AnswerSettles(s, id, refused, s', u);
      assert Asked(s, id, u);
    } else {
      StrayAnswer(s, id, refused, s');
    }
  }

  /** In every run a thread is subscribed exactly when the server has consented to a
      request for it that was in flight. */
  lemma {:induction false} SubscribedExactlyByConsent(nextId: nat, actions: seq<Action>, s: State, t: Thread)
    requires RunFrom(Init(nextId), actions) == Some(s)
    ensures t in s.subscribed <==> exists i: nat :: ConsentsAt(nextId, actions, i, t)
  {
    if actions != [] {
      var init, last := actions[..|actions| - 1], actions[|actions| - 1];
      var before := RunFrom(Init(nextId), init).value;
      SubscribedExactlyByConsent(nextId, init, before, t);
      InitInv(nextId);
      RunKeeps(Init(nextId), init, before);
      StepSubscribes(before, last, s, t);
      hide Inv, Apply, Consents, RunFrom;
      if i: nat :| ConsentsAt(nextId, init, i, t) {
        assert init[..i] == actions[..i];
        assert ConsentsAt(nextId, actions, i, t);
      }
      if Consents(before, last, t) {
        assert ConsentsAt(nextId, actions, |actions| - 1, t);
      }
      if i: nat :| ConsentsAt(nextId, actions, i, t) {
        if i < |init| {
          assert init[..i] == actions[..i];
          assert ConsentsAt(nextId, init, i, t);
        }
      }
    }
  }

  // ----- the records kept of requests

  /** What is in flight was sent, and a thread whose request could not be sent waits
      without one. */
  ghost predicate Recorded(s: State) {
    && (forall id: nat, t: Thread :: (id, t) in s.inFlight ==> (id, t) in s.sent)
    && (forall t :: t in s.failed ==> t in s.pending && s.pending[t].None?)
  }

  lemma {:induction false} AllNotedRecorded(s: State, ts: seq<Thread>)
    requires Recorded(s)
    ensures Recorded(AllNoted(s, ts)) && AllNoted(s, ts).nextId == s.nextId && AllNoted(s, ts).sent == s.sent
  {
    if ts != [] {
      AllNotedRecorded(s, ts[..|ts| - 1]);
    }
  }

  /** The ids of what was sent lie in order between two marks. */
  predicate InOrder(sent: seq<(nat, Thread)>, from: nat, low: nat, high: nat) {
    && (forall i :: from <= i < |sent| ==> low <= sent[i].0 < high)
    && (forall i, j :: from <= i < j < |sent| ==> sent[i].0 < sent[j].0)
  }

  lemma {:induction false} ResumedRecorded(s: State, order: seq<Thread>, fails: set<Thread>)
    requires Recorded(s)
    ensures var s' := Resumed(s, order, fails);
      && Recorded(s') && s.nextId <= s'.nextId && s.sent <= s'.sent
      && InOrder(s'.sent, |s.sent|, s.nextId, s'.nextId)
      && |s'.sent| - |s.sent| <= s'.nextId - s.nextId
    ensures forall t :: t in order && t in s.pending && s.pending[t].None? && t in fails ==>
      Resumed(s, order, fails).nextId > s.nextId
  {
    if order != [] {
      ResumedRecorded(s, order[..|order| - 1], fails);
      ResumedAsks(s, order[..|order| - 1], fails);
      hide Resumed;
      assert order == order[..|order| - 1] + [order[|order| - 1]];
    }
  }

  lemma RespondedRecorded(s: State, id: nat, refused: bool)
    requires Inv(s) && Recorded(s)
    ensures Recorded(Responded(s, id, refused))
  {
    hide Subscriptions, Requests;
  }

  /** Every request, answered or not, sent or not, for a thread or for anything else,
      takes an id of its own, later than all before. */
  lemma StepRecords(s: State, a: Action, s': State)
    requires Inv(s) && Recorded(s) && Apply(s, a) == Some(s')
    ensures Recorded(s') && s.nextId <= s'.nextId && s.sent <= s'.sent
    ensures InOrder(s'.sent, |s.sent|, s.nextId, s'.nextId)
    ensures a.OtherRequest? ==> s.nextId < s'.nextId
  {
    hide Inv, Resumed, AllNoted, Responded, Recorded;
    match a
    case Heard(threads, order, fails) =>
      AllNotedRecorded(s, threads);
      ResumedRecorded(AllNoted(s, threads), order, fails);
    case Listed(threads, order, fails) =>
      AllNotedRecorded(s, threads);
      ResumedRecorded(AllNoted(s, threads), order, fails);
    case Response(id, refused) =>
      if id.Some? {
        RespondedRecorded(s, id.value, refused);
        RespondedGrows(s, id.value, refused);
        RespondedKeepsId(s, id.value, refused);
      }
    case RetryFires(order, fails) =>
      FewerWaits(s);
      ResumedRecorded(s.(waits := s.waits - 1), order, fails);
    case OtherRequest => LaterId(s);
  }

  lemma RespondedKeepsId(s: State, id: nat, refused: bool)
    ensures Responded(s, id, refused).nextId == s.nextId
  {
  }

  lemma FewerWaits(s: State)
    requires Recorded(s) && s.waits > 0
    ensures Recorded(s.(waits := s.waits - 1))
  {
  }

  lemma LaterId(s: State)
    requires Recorded(s)
    ensures Recorded(s.(nextId := s.nextId + 1))
  {
  }

  lemma {:induction false} RunRecords(nextId: nat, actions: seq<Action>, s: State)
    requires RunFrom(Init(nextId), actions) == Some(s)
    ensures Recorded(s) && nextId <= s.nextId && InOrder(s.sent, 0, nextId, s.nextId)
  {
    if actions != [] {
      var before := RunFrom(Init(nextId), actions[..|actions| - 1]).value;
      RunRecords(nextId, actions[..|actions| - 1], before);
      InitInv(nextId);
      RunKeeps(Init(nextId), actions[..|actions| - 1], before);
      hide Inv, Apply, Recorded, RunFrom;
      StepRecords(before, actions[|actions| - 1], s);
    }
  }

  /** Messages, listings and answers are always dealt with, other requests always made,
      and a retry whenever one is to come. */
  lemma StepsCanRun(s: State, threads: seq<Thread>, order: seq<Thread>, fails: set<Thread>, id: Option<nat>,
      refused: bool)
    ensures Apply(s, Response(id, refused)).Some? && Apply(s, OtherRequest).Some?
    ensures Covers(order, AllNoted(s, threads)) ==>
      Apply(s, Heard(threads, order, fails)).Some? && Apply(s, Listed(threads, order, fails)).Some?
    ensures Covers(order, s) && s.waits > 0 ==> Apply(s, RetryFires(order, fails)).Some?
  {
    hide AllNoted, Resumed, Responded, Covers;
  }

  function Retries(actions: seq<Action>): nat {
    if actions == [] then 0
    else Retries(actions[..|actions| - 1]) + if actions[|actions| - 1].RetryFires? then 1 else 0
  }

  /** An answer that refuses the request of some thread. */
  ghost predicate Refuses(s: State, a: Action) {
    a.Response? && a.id.Some? && a.refused && exists t :: (a.id.value, t) in s.inFlight
  }

  ghost function Refusals(nextId: nat, actions: seq<Action>): nat {
    if actions == [] then 0
    else
      var before := RunFrom(Init(nextId), actions[..|actions| - 1]);
      Refusals(nextId, actions[..|actions| - 1])
      + if before.Some? && Refuses(before.value, actions[|actions| - 1]) then 1 else 0
  }

  lemma WaitsStep(s: State, a: Action, s': State)
    requires Inv(s) && Apply(s, a) == Some(s')
    ensures s'.waits + (if a.RetryFires? then 1 else 0) == s.waits + if Refuses(s, a) then 1 else 0
  {
    match a
    case Heard(threads, order, fails) =>
      NotingWaits(s, threads);
      ResumedWaits(AllNoted(s, threads), order, fails);
    case Listed(threads, order, fails) =>
      NotingWaits(s, threads);
      ResumedWaits(AllNoted(s, threads), order, fails);
    case Response(id, refused) =>
      if id.Some? {
        if t :| (id.value, t) in s.inFlight {
          AnswerSettles(s, id.value, refused, s', t);
        } else {
          StrayAnswer(s, id.value, refused, s');
        }
      }
    case RetryFires(order, fails) => ResumedWaits(s.(waits := s.waits - 1), order, fails);
    case OtherRequest =>
  }

  lemma {:induction false} NotingWaits(s: State, ts: seq<Thread>)
    ensures AllNoted(s, ts).waits == s.waits
  {
    if ts != [] {
      NotingWaits(s, ts[..|ts| - 1]);
    }
  }

  lemma {:induction false} ResumedWaits(s: State, order: seq<Thread>, fails: set<Thread>)
    ensures Resumed(s, order, fails).waits == s.waits
  {
    if order != [] {
      ResumedWaits(s, order[..|order| - 1], fails);
    }
  }

  /** Every refusal brings one retry, and nothing else does. */
  lemma {:induction false} RetriesFollowRefusals(nextId: nat, actions: seq<Action>, s: State)
    requires RunFrom(Init(nextId), actions) == Some(s)
    ensures Retries(actions) + s.waits == Refusals(nextId, actions)
  {
    if actions != [] {
      var init := actions[..|actions| - 1];
      var before := RunFrom(Init(nextId), init).value;
      RetriesFollowRefusals(nextId, init, before);
      InitInv(nextId);
      RunKeeps(Init(nextId), init, before);
      hide Inv, Apply, Refuses;
      WaitsStep(before, actions[|actions| - 1], s);
    }
  }

  lemma RunsGoOn(s: State, actions: seq<Action>, a: Action)
    ensures RunFrom(s, []) == Some(s)
    ensures RunFrom(s, actions).Some? ==> RunFrom(s, actions + [a]) == Apply(RunFrom(s, actions).value, a)
  {
    hide Apply;
    assert (actions + [a])[..|actions|] == actions;
  }

  // ----- the observer's threads, behind its lock

  /** A message from the server: a reply, or anything with a method, with the
      threads it names. */
  datatype Message = Reply(id: Option<nat>, error: bool, data: seq<Thread>) | Notice(threads: seq<Thread>)

  class Threads {
    var subscribed: seq<Thread>
    var pending: map<Thread, Option<nat>>
    var nextId: nat
    var waits: nat
    ghost var sent: seq<(nat, Thread)>
    ghost var inFlight: set<(nat, Thread)>
    ghost var failed: set<Thread>

    ghost function View(): State
      reads this
    {
      State(subscribed, pending, nextId, sent, inFlight, waits, failed)
    }

    constructor (nextId: nat)
      ensures View() == Init(nextId)
    {
      subscribed, pending, this.nextId, waits := [], map[], nextId, 0;
      sent, inFlight, failed := [], {}, {};
    }

    method Note(t: Thread)
      modifies this
      ensures View() == Noted(old(View()), t)
    {
      if t !in subscribed && t !in pending {
        pending := pending[t := None];
      }
    }

    method NoteAll(ts: seq<Thread>)
      modifies this
      ensures View() == AllNoted(old(View()), ts)
    {
      for i := 0 to |ts|
        invariant View() == AllNoted(old(View()), ts[..i])
      {
        assert ts[..i + 1][..i] == ts[..i];
        Note(ts[i]);
      }
      assert ts[..|ts|] == ts;
    }

    /** The pass, in the order the map happens to give. */
    method ResumePending(order: seq<Thread>, fails: set<Thread>)
      modifies this
      ensures View() == Resumed(old(View()), order, fails)
    {
      for i := 0 to |order|
        invariant View() == Resumed(old(View()), order[..i], fails)
      {
        assert order[..i + 1][..i] == order[..i];
        var t := order[i];
        if t in pending && pending[t].None? {
          var id := nextId;
          nextId := nextId + 1;
          if t in fails {
            failed := failed + {t};
          } else {
            pending := pending[t := Some(id)];
            sent, inFlight, failed := sent + [(id, t)], inFlight + {(id, t)}, failed - {t};
          }
        }
      }
      assert order[..|order|] == order;
    }

    /** The thread to retry later, when the server refused it. */
    method OnResponse(id: Option<nat>, error: bool) returns (retry: Option<Thread>)
      requires Inv(View())
      modifies this
      ensures var s' := if id.None? then old(View()) else Responded(old(View()), id.value, error);
        View() == s'.(waits := waits) && waits == old(waits) && s'.waits == waits + if retry.Some? then 1 else 0
    {
      if id.None? {
        return None;
      }
      var found: Option<Thread> := None;
      var keys := pending.Keys;
      while keys != {} && found.None?
        invariant found.Some? ==> Asked(View(), id.value, found.value)
        invariant found.None? ==> forall t :: t in pending && t !in keys ==> pending[t] != id
        decreases keys
      {
        var t :| t in keys;
        keys := keys - {t};
        if t in pending && pending[t] == id {
          found := Some(t);
        }
      }
      AskedIsUnique(View(), id.value, found);
      inFlight := Settled(inFlight, id.value);
      if found.None? {
        return None;
      }
      if error {
        pending := pending[found.value := None];
        return found;
      }
      pending := pending - {found.value};
      subscribed := subscribed + [found.value];
      retry := None;
    }

    /** One turn of the reading loop; `listId` is the request for the loaded
        threads, if it could be sent. */
    method OnMessage(m: Message, listId: Option<nat>, order: seq<Thread>, fails: set<Thread>)
      requires Inv(View())
      requires Covers(order, AllNoted(View(), if m.Notice? then m.threads else m.data))
      modifies this
      ensures Some(View()) == Apply(old(View()),
        if m.Notice? then Heard(m.threads, order, fails)
        else if m.id == listId then Listed(m.data, order, fails)
        else Response(m.id, m.error))
    {
      match m
      case Notice(threads) =>
        NoteAll(threads);
        ResumePending(order, fails);
      case Reply(id, error, data) =>
        if id == listId {
          NoteAll(data);
          ResumePending(order, fails);
        } else {
          var retry := OnResponse(id, error);
          if retry.Some? {
            waits := waits + 1;
          }
        }
    }
  }

  lemma AskedIsUnique(s: State, id: nat, found: Option<Thread>)
    requires Inv(s)
    requires if found.Some? then Asked(s, id, found.value) else forall t :: !Asked(s, id, t)
    ensures AskedBy(s, id) == found
  {
    if found.Some? {
      var t := AskedBy(s, id);
      assert (id, t.value) in s.inFlight && (id, found.value) in s.inFlight;
    }
  }
}
