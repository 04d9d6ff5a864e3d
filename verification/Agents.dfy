/** The daemon's agents: the methods that ask, hold, decide, withdraw, end a
    session and remind, each a run of the critical sections of `Approvals`. */
module Agents {
  import opened Approvals
  import opened Watchdog
  import opened Wrappers

  type Token = string

  lemma ReachesNothing(s: State)
    ensures Reaches(s, [], s)
  {
  }

  lemma ReachesSnoc(s: State, actions: seq<Action>, mid: State, action: Action, t: State)
    requires Reaches(s, actions, mid) && Apply(mid, action) == Some(t) && Inv(mid)
    ensures Reaches(s, actions + [action], t) && Inv(t)
  {
    assert (actions + [action])[..|actions|] == actions;
    if OnHandle(action) {
      OwnStepKeepsInv(mid, action, t);
    } else {
      SharedStepKeepsInv(mid, action, t);
    }
  }

  lemma TwoSteps(s: State, a: Action, s1: State, b: Action, t: State)
    requires Inv(s) && Apply(s, a) == Some(s1) && Apply(s1, b) == Some(t)
    ensures Reaches(s, [a, b], t) && Inv(t)
  {
    hide Inv, Apply;
    ReachesNothing(s);
    ReachesSnoc(s, [], s, a, s1);
    assert [] + [a] == [a] && [a] + [b] == [a, b];
    ReachesSnoc(s, [a], s1, b, t);
  }

  lemma ThreeSteps(s: State, a: Action, s1: State, b: Action, s2: State, c: Action, t: State)
    requires Inv(s) && Apply(s, a) == Some(s1) && Apply(s1, b) == Some(s2) && Apply(s2, c) == Some(t)
    ensures Reaches(s, [a, b, c], t) && Inv(t)
  {
    hide Inv, Apply, Reaches;
    TwoSteps(s, a, s1, b, s2);
    assert [a, b] + [c] == [a, b, c];
    ReachesSnoc(s, [a, b], s2, c, t);
  }

  lemma TwoThenThree(s: State, a: Action, b: Action, mid: State, c: Action, d: Action, e: Action, t: State)
    requires Reaches(s, [a, b], mid) && Reaches(mid, [c, d, e], t)
    ensures Reaches(s, [a, b, c, d, e], t)
  {
    hide Reaches;
    ReachesJoin(s, [a, b], mid, [c, d, e], t);
    assert [a, b] + [c, d, e] == [a, b, c, d, e];
  }

  lemma TwoThenOne(s: State, a: Action, b: Action, mid: State, c: Action, t: State)
    requires Reaches(s, [a, b], mid) && Apply(mid, c) == Some(t) && Inv(mid)
    ensures Reaches(s, [a, b, c], t) && Inv(t)
  {
    hide Reaches, Inv, Apply;
    assert [a, b] + [c] == [a, b, c];
    ReachesSnoc(s, [a, b], mid, c, t);
  }

  lemma OneStep(s: State, a: Action, t: State)
    requires Inv(s) && Apply(s, a) == Some(t)
    ensures Reaches(s, [a], t) && Inv(t)
  {
    hide Inv, Apply;
    ReachesNothing(s);
    assert [] + [a] == [a];
    ReachesSnoc(s, [], s, a, t);
  }

  /** The hook thread's two endings. */
  lemma HookAnswers(s: State, h: Handle, t: State)
    requires Inv(s) && h < |s.heap| && s.heap[h].hold == Waiting && s.heap[h].decision.Some?
    requires var reply := ReplyOf(s.heap[h].decision.value);
             t == WithApproval(s, h, s.heap[h].(hold := Replied(reply))).(out := s.out + [HookReply(h, reply)])
    ensures Reaches(s, [HoldWakes(h)], t) && Inv(t)
  {
    hide Inv;
    OneStep(s, HoldWakes(h), t);
  }

  lemma HookPasses(s: State, h: Handle, s1: State, t: State)
    requires Inv(s) && h < |s.heap| && s.heap[h].hold == Waiting && s.heap[h].decision.None?
    requires s1 == WithApproval(s, h, s.heap[h].(hold := Closing))
    requires var closed := s1.heap[h].(hookOpen := false, hold := Replied(Pass));
             t == WithApproval(s1, h, closed).(out := s.out + [HookReply(h, Pass)])
    ensures Reaches(s, [HoldExpires(h), HoldCloses(h)], t) && Inv(t)
  {
    hide Inv;
    TwoSteps(s, HoldExpires(h), s1, HoldCloses(h), t);
  }

  lemma MarkWithdrawnIs(s: State, h: Handle)
    requires h < |s.heap| && s.heap[h].resolver == WithdrawDisarmed
    ensures Apply(s, MarkWithdrawn(h)) ==
      Some(WithApproval(s, h, s.heap[h].(withdrawn := true, resolver := WithdrawDone)))
  {
  }

  /** The decider's last three steps, with what they leave. */
  lemma DeciderSteps(s: State, h: Handle, d: Decision, s1: State, s2: State, t: State)
    requires Inv(s) && h < |s.heap| && s.heap[h].resolver == Resolver.Disarmed(d) && s.heap[h].hold != Closing
    requires s1 == WithApproval(s, h, s.heap[h].(decision := Some(d), resolver := Written(d)))
    requires s2 == WithApproval(s1, h, s1.heap[h].(resolver := Looked(d, s.heap[h].hookOpen)))
    requires t == WithApproval(s2, h, s2.heap[h].(resolver := Done(d))).(
                    out := if s.heap[h].hookOpen then s.out else s.out + [Keystroke(h, KeysOf(d))])
    ensures Reaches(s, [Write(h), Look(h), Route(h)], t) && Inv(t)
  {
    hide Inv;
    ThreeSteps(s, Write(h), s1, Look(h), s2, Route(h), t);
  }

  function ClaimAction(id: Id, taken: Resolver): Action {
    if taken.Taken? then Take(id, taken.decision) else TakeBack(id)
  }

  /** The methods run their critical sections one after the other, as one
      uninterrupted thread does; what they do in between others is a run. */
  class Agents {
    /** Every `PendingApproval` allocated, by handle. */
    var heap: seq<Approval>
    var pending: map<Id, Handle>
    const watchdog: Dog
    /** What was sent towards the agents. */
    var out: seq<Output>
    /** The sessions that may call home, by token. */
    var byToken: map<Token, Session>

    ghost function View(): State
      reads this, watchdog
    {
      State(heap, pending, watchdog.pending, multiset{}, out)
    }

    ghost predicate Valid()
      reads this, watchdog
    {
      Inv(View()) && forall h :: 0 <= h < |heap| ==> heap[h].hold != Closing
    }

    constructor ()
      ensures Valid() && View() == INIT && fresh(watchdog)
    {
      heap, pending, out, byToken := [], map[], [], map[];
      watchdog := new Dog();
    }

    method Register(session: Session, token: Token)
      modifies this`byToken
      ensures byToken == old(byToken)[token := session]
    {
      byToken := byToken[token := session];
    }

    /** Puts a request in the inbox; `held` when a hook request waits behind it. */
    method Ask(id: Id, session: Session, held: bool, now: Time) returns (h: Handle)
      requires Valid()
      modifies this`heap, this`pending, this`out, watchdog
      ensures Valid() && h == |old(heap)|
      ensures Reaches(old(View()), [Arm(id, now), Insert(id, session, held)], View())
    {
      hide Inv, Reaches, RunFrom, Armed;
      ghost var s0 := View();
      watchdog.Arm(id, now);
      ghost var s1 := View().(asking := multiset{id});
      assert multiset{} + multiset{id} == multiset{id};
      h := |heap|;
      heap := heap + [Approval(id, session, None, true, false, 0, if held then Waiting else NotHeld, Untaken)];
      pending := pending[id := h];
      TwoSteps(s0, Arm(id, now), s1, Insert(id, session, held), View());
    }

    /** Takes an approval out of the inbox and off the watchdog, for `Decide`
        and `Withdraw` alike. */
    method Claim(id: Id, taken: Resolver, disarmed: Resolver)
      requires Inv(View()) && id in pending
      requires (taken == Withdrawing && disarmed == WithdrawDisarmed) ||
               (taken.Taken? && disarmed == Resolver.Disarmed(taken.decision))
      modifies this`heap, this`pending, watchdog
      ensures var h := old(pending)[id];
        && h < |old(heap)|
        && pending == old(pending) - {id}
        && heap == old(heap)[h := old(heap)[h].(resolver := disarmed)]
        && Reaches(old(View()), [ClaimAction(id, taken), Disarm(h)], View()) && Inv(View())
    {
      InboxIsUntaken(View(), id);
      hide Inv, Reaches, Watchdog.Disarmed;
      var h := pending[id];
      ghost var s0 := View();
      pending := pending - {id};
      heap := heap[h := heap[h].(resolver := taken)];
      ghost var s1 := View();
      watchdog.Disarm(heap[h].id);
      heap := heap[h := heap[h].(resolver := disarmed)];
      TwoSteps(s0, ClaimAction(id, taken), s1, Action.Disarm(h), View());
    }

    /** Answers a pending approval; `None` when it is not in the inbox. */
    method Decide(id: Id, decision: Decision) returns (found: Option<Handle>)
      requires Valid()
      modifies this`heap, this`pending, this`out, watchdog
      ensures Valid()
      ensures found.None? ==> id !in old(pending) && View() == old(View())
      ensures found.Some? ==> id in old(pending) && found.value == old(pending)[id]
      ensures found.Some? ==>
        var h := found.value;
        Reaches(old(View()), [Take(id, decision), Disarm(h), Write(h), Look(h), Route(h)], View())
      ensures found.Some? ==>
        var h := found.value;
        && h < |old(heap)| && h < |heap| && heap[h].decision == Some(decision)
        && out == old(out) + if old(heap)[h].hookOpen then [] else [Keystroke(h, if decision.Allow? then "y" else "n")]
    {
      if id !in pending {
        return None;
      }
      var h := pending[id];
      Claim(id, Taken(decision), Resolver.Disarmed(decision));
      hide Inv, Reaches, Apply, RunFrom, Consistent;
      ghost var s0 := View();

      heap := heap[h := heap[h].(decision := Some(decision), resolver := Written(decision))];
      ghost var s1 := View();

      var hookOpen := heap[h].hookOpen;
      heap := heap[h := heap[h].(resolver := Looked(decision, hookOpen))];
      ghost var s2 := View();

      if !hookOpen {
        var keys := match heap[h].decision { case Some(Allow(_)) => "y" case _ => "n" };
        out := out + [Keystroke(h, keys)];
      }
      heap := heap[h := heap[h].(resolver := Done(decision))];
      DeciderSteps(s0, h, decision, s1, s2, View());
      TwoThenThree(old(View()), Take(id, decision), Action.Disarm(h), s0, Write(h), Look(h), Route(h), View());
      found := Some(h);
    }

    /** The agent resolved the approval on its own surface. */
    method Withdraw(id: Id)
      requires Valid()
      modifies this`heap, this`pending, this`out, watchdog
      ensures Valid()
      ensures id !in old(pending) ==> View() == old(View())
      ensures id in old(pending) ==>
        var h := old(pending)[id];
        Reaches(old(View()), [TakeBack(id), Disarm(h), MarkWithdrawn(h)], View())
    {
      if id !in pending {
        return;
      }
      var h := pending[id];
      Claim(id, Withdrawing, WithdrawDisarmed);
      hide Inv, Reaches, RunFrom, Apply;
      ghost var s0 := View();
      heap := heap[h := heap[h].(withdrawn := true, resolver := WithdrawDone)];
      MarkWithdrawnIs(s0, h);
      TwoThenOne(old(View()), TakeBack(id), Action.Disarm(h), s0, MarkWithdrawn(h), View());
    }

    /** The hook thread wakes up: with the decision, or at the timeout. */
    method Hold(h: Handle) returns (reply: Reply)
      requires Valid() && h < |heap| && heap[h].hold == Waiting
      modifies this`heap, this`out
      ensures Valid()
      ensures reply == match old(heap[h].decision)
        case Some(Allow(input)) => AllowReply(input)
        case Some(Deny(reason)) => DenyReply(reason)
        case None => Pass
      ensures Reaches(old(View()), if reply != Pass then [HoldWakes(h)] else [HoldExpires(h), HoldCloses(h)], View())
    {
      hide Inv, Reaches, Apply, RunFrom;
      ghost var s0 := View();
      match heap[h].decision
      case Some(d) =>
        reply := match d { case Allow(input) => AllowReply(input) case Deny(reason) => DenyReply(reason) };
        heap := heap[h := heap[h].(hold := Replied(reply))];
        out := out + [HookReply(h, reply)];
        HookAnswers(s0, h, View());
      case None =>
        heap := heap[h := heap[h].(hold := Closing)];
        ghost var s1 := View();
        heap := heap[h := heap[h].(hookOpen := false, hold := Replied(Pass))];
        reply := Pass;
        out := out + [HookReply(h, reply)];
        HookPasses(s0, h, s1, View());
    }

    /** The session ended: its tokens are forgotten and its approvals leave the
        inbox, and nothing else. */
    method Unregister(session: Session)
      requires Valid()
      modifies this`pending, this`byToken
      ensures Valid()
      ensures Reaches(old(View()), [Action.Unregister(session)], View())
      ensures forall id :: id in pending <==> id in old(pending) && heap[old(pending)[id]].session != session
      ensures forall t :: t in byToken <==> t in old(byToken) && old(byToken)[t] != session
      ensures forall t :: t in byToken ==> byToken[t] == old(byToken)[t]
    {
      ghost var s0 := View();
      byToken := map t | t in byToken && byToken[t] != session :: byToken[t];
      pending := map id |
        id in pending && !(pending[id] < |heap| && heap[pending[id]].session == session) :: pending[id];
      OneStep(s0, Action.Unregister(session), View());
    }

    /** One watchdog round: every overdue entry is bumped, and the ones still
        in the inbox are reminded of. */
    method Tick(after: Time, now: Time)
      requires Valid()
      modifies this`heap, watchdog
      ensures Valid()
      ensures watchdog.pending == RemindedAll(old(watchdog.pending), after, now)
      ensures var due := OverdueIds(old(watchdog.pending), after, now);
        Reaches(old(View()), [Action.Tick(after, now)] + RemindSteps(due, pending.Keys), View())
    {
      hide Inv, Reaches, RemindSteps, RemindedAll, OverdueIds;
      RemindNothing(pending.Keys);
      ghost var s0 := View();
      ReachesNothing(s0);
      var due := watchdog.Due(after, now);
      ghost var run := [Action.Tick(after, now)];
      ReachesSnoc(s0, [], s0, Action.Tick(after, now), View());
      assert [] + run == run;
      assert due[..0] == [] && run + [] == run;
      for i := 0 to |due|
        invariant Valid() && watchdog.pending == RemindedAll(old(watchdog.pending), after, now)
        invariant Reaches(s0, run + RemindSteps(due[..i], pending.Keys), View())
      {
        assert due[..i + 1] == due[..i] + [due[i]];
        RemindStepsSnoc(due[..i], due[i], pending.Keys);
        if due[i] in pending {
          InboxIsUntaken(View(), due[i]);
          ghost var before := View();
          var h := pending[due[i]];
          heap := heap[h := heap[h].(reminders := heap[h].reminders + 1)];
          ReachesSnoc(s0, run + RemindSteps(due[..i], pending.Keys), before, Remind(due[i]), View());
          assert run + RemindSteps(due[..i], pending.Keys) + [Remind(due[i])] ==
            run + RemindSteps(due[..i + 1], pending.Keys);
        } else {
          assert run + RemindSteps(due[..i], pending.Keys) == run + RemindSteps(due[..i + 1], pending.Keys);
        }
      }
      assert due[..|due|] == due;
    }
  }

  function RemindSteps(due: seq<Id>, inbox: set<Id>): seq<Action> {
    if due == [] then []
    else
      var last := due[|due| - 1];
      RemindSteps(due[..|due| - 1], inbox) + (if last in inbox then [Remind(last)] else [])
  }

  lemma RemindNothing(inbox: set<Id>)
    ensures RemindSteps([], inbox) == []
  {
  }

  lemma RemindStepsSnoc(due: seq<Id>, id: Id, inbox: set<Id>)
    ensures RemindSteps(due + [id], inbox) == RemindSteps(due, inbox) + (if id in inbox then [Remind(id)] else [])
  {
    assert (due + [id])[..|due|] == due;
  }
}
