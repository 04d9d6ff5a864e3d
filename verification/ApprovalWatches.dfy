/** Approvals and the watchdog: which approvals in the inbox are watched, which
    watches are left behind, and how often anyone is reminded. */
module ApprovalWatches {
  import opened Approvals
  import opened Watchdog
  import opened Wrappers

  // ----- every approval in the inbox is watched

  /** Nothing of an id is under way: it is not being asked, it is not in the
      inbox, and nobody who took it out has yet to disarm its watch. */
  ghost predicate Clear(s: State, id: Id) {
    id !in s.asking && id !in s.pending && NoneDisarming(s, id)
  }

  ghost predicate NoneDisarming(s: State, id: Id) {
    forall h :: 0 <= h < |s.heap| && s.heap[h].id == id ==> !WillDisarm(s.heap[h].resolver)
  }

  predicate WillDisarm(r: Resolver) {
    r.Taken? || r.Withdrawing?
  }

  /** Every request of the run was made while its id was clear. */
  ghost predicate AsksWhenClear(actions: seq<Action>) {
    forall i :: 0 <= i < |actions| && actions[i].Arm? && Run(actions[..i]).Some? ==>
      Clear(Run(actions[..i]).value, actions[i].id)
  }

  /** What is in the inbox or on its way there is watched, and nobody is about
      to disarm it. */
  ghost predicate Guarded(s: State) {
    && (forall id :: id in s.pending ==> id in Ids(s.watches) && NoneDisarming(s, id))
    && (forall id :: id in s.asking ==>
          s.asking[id] == 1 && id in Ids(s.watches) && id !in s.pending && NoneDisarming(s, id))
  }

  /** What one approval's own step does to who is about to disarm. */
  lemma OwnStepDisarms(s: State, action: Action, s': State)
    requires OnHandle(action) && Apply(s, action) == Some(s')
    ensures |s'.heap| == |s.heap|
    ensures forall k :: 0 <= k < |s.heap| && WillDisarm(s'.heap[k].resolver) ==> WillDisarm(s.heap[k].resolver)
    ensures s'.watches != s.watches ==> WillDisarm(s.heap[action.handle].resolver)
  {
  }

  lemma OwnStepKeepsGuarded(s: State, action: Action, s': State)
    requires Guarded(s) && OnHandle(action) && Apply(s, action) == Some(s')
    ensures Guarded(s')
  {
    hide Apply, Ids, Watchdog.Disarmed, WillDisarm;
    OwnStepFacts(s, action, s');
    OwnStepDisarms(s, action, s');
    DisarmedIs(s.watches, s.heap[action.handle].id);
    forall id | NoneDisarming(s, id) ensures NoneDisarming(s', id) {
    }
  }

  /** A change of one approval that nobody is about to disarm. */
  lemma TakenIsGuarded(s: State, id: Id, s': State)
    requires Inv(s) && Guarded(s) && id in s.pending && s'.pending == s.pending - {id}
    requires |s'.heap| == |s.heap| && s'.heap[s.pending[id]].id == id
    requires forall h :: 0 <= h < |s.heap| && h != s.pending[id] ==> s'.heap[h] == s.heap[h]
    requires s'.watches == s.watches && s'.asking == s.asking
    ensures Guarded(s')
  {
    hide Answers, Consistent, Ids, Distinct, WillDisarm;
    forall other | NoneDisarming(s, other) && other != id ensures NoneDisarming(s', other) {
    }
  }

  lemma InsertKeepsGuarded(s: State, action: Action, s': State)
    requires Guarded(s) && action.Insert? && Apply(s, action) == Some(s')
    ensures Guarded(s')
  {
    hide Ids;
    forall id | NoneDisarming(s, id) ensures NoneDisarming(s', id) {
    }
  }

  lemma ArmKeepsGuarded(s: State, id: Id, now: Time, s': State)
    requires Distinct(s.watches) && Guarded(s) && Clear(s, id) && Apply(s, Arm(id, now)) == Some(s')
    ensures Guarded(s')
  {
    ArmedIs(s.watches, id, now);
    hide Ids, Armed, Distinct, WillDisarm;
    forall other | NoneDisarming(s, other) ensures NoneDisarming(s', other) {
    }
  }

  lemma SharedStepKeepsGuarded(s: State, action: Action, s': State)
    requires Inv(s) && Guarded(s) && !OnHandle(action) && Apply(s, action) == Some(s')
    requires action.Arm? ==> Clear(s, action.id)
    ensures Guarded(s')
  {
    hide Answers, Consistent, Ids, Armed, RemindedAll, Distinct, WillDisarm;
    match action
    case Arm(id, now) =>
      hide Guarded, Clear;
      InvIsDistinct(s);
      ArmKeepsGuarded(s, id, now, s');
    case Insert(_, _, _) =>
      hide Guarded;
      InsertKeepsGuarded(s, action, s');
    case Take(id, _) =>
      InboxIsUntaken(s, id);
      hide Guarded;
      TakenIsGuarded(s, id, s');
    case TakeBack(id) =>
      InboxIsUntaken(s, id);
      hide Guarded;
      TakenIsGuarded(s, id, s');
    case Tick(after, now) =>
      RemindedIds(s.watches, after, now);
      forall id | NoneDisarming(s, id) ensures NoneDisarming(s', id) {
      }
    case Unregister(_) =>
      forall id | NoneDisarming(s, id) ensures NoneDisarming(s', id) {
      }
    case Remind(id) =>
      forall other | NoneDisarming(s, other) ensures NoneDisarming(s', other) {
      }
  }

  lemma InvIsDistinct(s: State)
    requires Inv(s)
    ensures Distinct(s.watches)
  {
  }

  /** When every request is made at a clear id, whether used before or not, every
      approval in the inbox is watched at every step. */
  lemma {:induction false} PendingIsArmedWhenClear(actions: seq<Action>, s: State)
    requires AsksWhenClear(actions) && Run(actions) == Some(s)
    ensures Guarded(s) && s.pending.Keys <= Ids(s.watches)
  {
    if actions != [] {
      hide Inv, Guarded, Clear, Apply;
      var init, last := actions[..|actions| - 1], actions[|actions| - 1];
      var before := Run(init).value;
      ClearInit(actions);
      PendingIsArmedWhenClear(init, before);
      RunKeepsInv(init, before);
      if OnHandle(last) {
        OwnStepKeepsGuarded(before, last, s);
      } else {
        SharedStepKeepsGuarded(before, last, s);
      }
    }
    GuardedIsArmed(s);
  }

  lemma ClearInit(actions: seq<Action>)
    requires actions != [] && AsksWhenClear(actions)
    ensures AsksWhenClear(actions[..|actions| - 1])
  {
    hide Run, Clear;
    var init := actions[..|actions| - 1];
    forall i | 0 <= i < |init| ensures init[..i] == actions[..i] && init[i] == actions[i] {
    }
  }

  lemma GuardedIsArmed(s: State)
    requires Guarded(s)
    ensures s.pending.Keys <= Ids(s.watches)
  {
    hide Ids;
  }

  ghost predicate Unknown(s: State, id: Id) {
    forall h :: 0 <= h < |s.heap| ==> s.heap[h].id != id
  }

  /** An id the run never asked for is nowhere. */
  lemma {:induction false} UnaskedIsUnknown(actions: seq<Action>, s: State, id: Id)
    requires Run(actions) == Some(s) && Requests(actions, id) == 0
    ensures id !in s.asking && Unknown(s, id)
  {
    if actions != [] {
      var before, last := Run(actions[..|actions| - 1]).value, actions[|actions| - 1];
      UnaskedIsUnknown(actions[..|actions| - 1], before, id);
      hide Run, Apply, Unknown;
      UnknownStep(before, last, s, id);
    }
  }

  lemma UnknownStep(s: State, action: Action, s': State, id: Id)
    requires Apply(s, action) == Some(s') && id !in s.asking && Unknown(s, id) && !(action.Arm? && action.id == id)
    ensures id !in s'.asking && Unknown(s', id)
  {
    hide ApplyTo, Armed, RemindedAll;
    if OnHandle(action) {
      hide Apply;
      OwnStepFacts(s, action, s');
    }
  }

  /** Fresh ids are clear: an id is nowhere before it is first asked for. */
  lemma FreshAsksWhenClear(actions: seq<Action>)
    requires Fresh(actions)
    ensures AsksWhenClear(actions)
  {
    forall i | 0 <= i < |actions| && actions[i].Arm? && Run(actions[..i]).Some?
      ensures Clear(Run(actions[..i]).value, actions[i].id)
    {
      FirstRequestIsClear(actions, i, Run(actions[..i]).value);
    }
  }

  lemma FirstRequestIsClear(actions: seq<Action>, i: nat, s: State)
    requires Fresh(actions) && i < |actions| && actions[i].Arm? && Run(actions[..i]) == Some(s)
    ensures Clear(s, actions[i].id)
  {
    var before, id := actions[..i], actions[i].id;
    assert forall j :: 0 <= j < i ==> before[j] == actions[j];
    FreshRequests(before, id);
    hide Run, Requests;
    UnaskedIsUnknown(before, s, id);
    RunKeepsInv(before, s);
    if id in s.pending {
      InboxIsUntaken(s, id);
    }
  }

  /** With fresh ids every approval in the inbox is armed, at every step. */
  lemma PendingIsArmed(actions: seq<Action>, s: State)
    requires Fresh(actions) && Run(actions) == Some(s)
    ensures s.pending.Keys <= Ids(s.watches)
  {
    hide Run, Fresh, AsksWhenClear, Ids;
    FreshAsksWhenClear(actions);
    PendingIsArmedWhenClear(actions, s);
  }

  predicate NoArms(actions: seq<Action>) {
    forall i :: 0 <= i < |actions| ==> !actions[i].Arm?
  }

  /** A second copy of an approval replaces the first in the inbox, and whoever
      holds the first then takes the watch away. */
  lemma SecondCopyIsUnwatched(s: State, id: Id, session: Session, h: Handle) returns (more: seq<Action>, t: State)
    requires Distinct(s.watches) && id in s.asking
    requires h < |s.heap| && s.heap[h].id == id && WillDisarm(s.heap[h].resolver)
    ensures more == [Insert(id, session, true), Disarm(h)] && RunFrom(s, more) == Some(t)
    ensures id in t.pending && id !in Ids(t.watches)
  {
    hide Distinct, Ids;
    var s1 := Apply(s, Insert(id, session, true)).value;
    assert s1.heap[h] == s.heap[h];
    t := Apply(s1, Disarm(h)).value;
    DisarmedIs(s.watches, id);
    more := [Insert(id, session, true), Disarm(h)];
    RunTwo(s, more[0], s1, more[1], t);
  }

  lemma RunTwo(s: State, a: Action, s1: State, b: Action, t: State)
    requires Apply(s, a) == Some(s1) && Apply(s1, b) == Some(t)
    ensures RunFrom(s, [a]) == Some(s1) && RunFrom(s, [a, b]) == Some(t)
  {
    hide Apply;
    assert [a, b][..1] == [a] && [a][..0] == [];
    assert RunFrom(s, []) == Some(s);
  }

  /** From any reachable state where an id is not clear, asking for it can end
      with the id in the inbox and unwatched, with no further request. */
  lemma UnclearRequestIsUnwatched(s: State, id: Id, now: Time, d: Decision) returns (more: seq<Action>, t: State)
    requires Inv(s) && !Clear(s, id)
    ensures NoArms(more) && RunFrom(s, [Arm(id, now)] + more) == Some(t)
    ensures id in t.pending && id !in Ids(t.watches)
  {
    var s1 := Apply(s, Arm(id, now)).value;
    var arm := [Arm(id, now)];
    RunOne(s, Arm(id, now), s1);
    WatchesStayDistinct(s, Arm(id, now), s1);
    if h :| 0 <= h < |s.heap| && s.heap[h].id == id && WillDisarm(s.heap[h].resolver) {
      hide Apply, Inv, Distinct, Ids;
      more, t := SecondCopyIsUnwatched(s1, id, "", h);
      ReachesJoin(s, arm, s1, more, t);
    } else if id in s.pending {
      InboxIsUntaken(s, id);
      var h, s2 := s.pending[id], Apply(s1, Take(id, d)).value;
      hide Apply, Inv, Distinct, Ids;
      more, t := TakenCopy(s1, id, h, d, s2);
      ReachesJoin(s, arm, s1, more, t);
    } else {
      hide Inv, Distinct, Ids, Clear;
      more, t := AskedTwice(s1, id, d);
      hide Apply;
      ReachesJoin(s, arm, s1, more, t);
    }
  }

  /** The same with an id that is being asked twice. */
  lemma AskedTwice(s: State, id: Id, d: Decision) returns (more: seq<Action>, t: State)
    requires Distinct(s.watches) && s.asking[id] >= 2
    ensures more == [Insert(id, "", true), Take(id, d), Insert(id, "", true), Disarm(|s.heap|)]
    ensures RunFrom(s, more) == Some(t) && id in t.pending && id !in Ids(t.watches)
  {
    hide Distinct, Ids;
    var s1 := Apply(s, Insert(id, "", true)).value;
    var s2 := Apply(s1, Take(id, d)).value;
    RunOne(s, Insert(id, "", true), s1);
    var rest;
    rest, t := TakenCopy(s1, id, |s.heap|, d, s2);
    hide Apply;
    more := [Insert(id, "", true)] + rest;
    ReachesJoin(s, [Insert(id, "", true)], s1, rest, t);
  }

  /** The same with an approval still in the inbox: it is taken out first. */
  lemma TakenCopy(s: State, id: Id, h: Handle, d: Decision, s1: State) returns (more: seq<Action>, t: State)
    requires Distinct(s.watches) && id in s.asking && Apply(s, Take(id, d)) == Some(s1)
    requires h < |s.heap| && s.heap[h].id == id && id in s.pending && s.pending[id] == h
    ensures more == [Take(id, d), Insert(id, "", true), Disarm(h)] && RunFrom(s, more) == Some(t)
    ensures id in t.pending && id !in Ids(t.watches)
  {
    var rest;
    rest, t := SecondCopyIsUnwatched(s1, id, "", h);
    hide Apply, Distinct, Ids;
    var take := [Take(id, d)];
    RunOne(s, Take(id, d), s1);
    ReachesJoin(s, take, s1, rest, t);
    more := take + rest;
  }

  /** After a run whose requests were all made at clear ids, asking for an id is
      sure to keep the inbox watched, whatever follows short of another request,
      exactly when the id is clear: reusing an id does no harm once its last
      watch is disarmed. */
  lemma RequestIsSafeExactlyWhenClear(actions: seq<Action>, s: State, id: Id, now: Time)
    requires AsksWhenClear(actions) && Run(actions) == Some(s)
    ensures (forall more, t :: NoArms(more) && RunFrom(s, [Arm(id, now)] + more) == Some(t) ==>
      t.pending.Keys <= Ids(t.watches))
            <==> Clear(s, id)
  {
    RunKeepsInv(actions, s);
    PendingIsArmedWhenClear(actions, s);
    hide Inv, Guarded, Clear, Ids, Apply, Run;
    if Clear(s, id) {
      forall more, t | NoArms(more) && RunFrom(s, [Arm(id, now)] + more) == Some(t)
        ensures t.pending.Keys <= Ids(t.watches)
      {
        ClearRequestKeepsGuarded(s, id, now, more, t);
        GuardedIsArmed(t);
      }
    } else {
      var more, t := UnclearRequestIsUnwatched(s, id, now, Deny(""));
      assert id in t.pending.Keys;
    }
  }

  lemma {:induction false} ClearRequestKeepsGuarded(s: State, id: Id, now: Time, more: seq<Action>, t: State)
    requires Inv(s) && Guarded(s) && Clear(s, id) && NoArms(more) && RunFrom(s, [Arm(id, now)] + more) == Some(t)
    ensures Inv(t) && Guarded(t)
    decreases |more|
  {
    hide Inv, Guarded, Clear, Apply;
    var run := [Arm(id, now)] + more;
    if more == [] {
      assert run == [Arm(id, now)] && run[..0] == [];
      assert RunFrom(s, []) == Some(s);
      SharedStepKeepsInv(s, Arm(id, now), t);
      SharedStepKeepsGuarded(s, Arm(id, now), t);
    } else {
      var init, last := more[..|more| - 1], more[|more| - 1];
      assert run[..|run| - 1] == [Arm(id, now)] + init;
      var mid := RunFrom(s, [Arm(id, now)] + init).value;
      ClearRequestKeepsGuarded(s, id, now, init, mid);
      if OnHandle(last) {
        OwnStepKeepsInv(mid, last, t);
        OwnStepKeepsGuarded(mid, last, t);
      } else {
        SharedStepKeepsInv(mid, last, t);
        SharedStepKeepsGuarded(mid, last, t);
      }
    }
  }

  /** The shortest such run: an id asked again while it is in the inbox. */
  lemma ReusedIdIsUnwatched(id: Id, d: Decision) returns (actions: seq<Action>, s: State)
    ensures !Fresh(actions) && Run(actions) == Some(s)
    ensures id in s.pending && id !in Ids(s.watches)
  {
    var arm, insert := Arm(id, 0), Insert(id, "s", true);
    var r1, s1 := RunSnoc([], INIT, arm);
    var r2, s2 := RunSnoc(r1, s1, insert);
    assert id in s2.pending;
    RunKeepsInv(r2, s2);
    hide Inv, Apply, Ids;
    var more;
    more, s := UnclearRequestIsUnwatched(s2, id, 0, d);
    actions := r2 + ([arm] + more);
    ReachesJoin(INIT, r2, s2, [arm] + more, s);
    assert actions[0] == actions[2] == arm;
  }

  lemma RunSnoc(actions: seq<Action>, s: State, action: Action) returns (more: seq<Action>, s': State)
    requires Run(actions) == Some(s) && Apply(s, action).Some?
    ensures more == actions + [action] && Apply(s, action) == Some(s') && Run(more) == Some(s')
  {
    more, s' := actions + [action], Apply(s, action).value;
    assert more[..|actions|] == actions;
  }

  // ----- what unregistering leaves behind

  /** Armed although nothing of it is under way: nobody is left to disarm it. */
  ghost predicate Stranded(s: State, id: Id) {
    id in Ids(s.watches) && Clear(s, id)
  }

  /** Step i of the run ends a session while the id is in its inbox. */
  ghost predicate Forgets(actions: seq<Action>, i: nat, id: Id) {
    i < |actions| && Run(actions[..i]).Some? && ForgetsNow(Run(actions[..i]).value, actions[i], id)
  }

  predicate ForgetsNow(s: State, action: Action, id: Id) {
    action.Unregister? && Inbox(s, id) && s.heap[s.pending[id]].session == action.session
  }

  /** What no request, decision or withdrawal of an id does to it in one step. */
  lemma StrandedStep(s: State, action: Action, s': State, id: Id)
    requires Inv(s) && Apply(s, action) == Some(s') && !(action.Arm? && action.id == id)
    ensures Stranded(s, id) ==> Stranded(s', id)
    ensures Stranded(s', id) ==> Stranded(s, id) || ForgetsNow(s, action, id)
  {
    InvIsDistinct(s);
    if OnHandle(action) {
      OwnStepStrands(s, action, s', id);
    } else {
      SharedStepStrands(s, action, s', id);
    }
  }

  lemma OwnStepStrands(s: State, action: Action, s': State, id: Id)
    requires OnHandle(action) && Apply(s, action) == Some(s')
    ensures Stranded(s', id) <==> Stranded(s, id)
  {
    hide Apply, Ids, Watchdog.Disarmed, WillDisarm;
    OwnStepFacts(s, action, s');
    OwnStepDisarms(s, action, s');
    StaysOrDisarms(s, action, s');
    DisarmedIs(s.watches, s.heap[action.handle].id);
    if id in Ids(s'.watches) && NoneDisarming(s', id) {
      forall k | 0 <= k < |s.heap| && s.heap[k].id == id ensures !WillDisarm(s.heap[k].resolver) {
        assert s'.heap[k].id == id;
        DisarmedIs(s.watches, id);
      }
    }
  }

  /** Who is about to disarm stays so until it has. */
  lemma StaysOrDisarms(s: State, action: Action, s': State)
    requires OnHandle(action) && Apply(s, action) == Some(s')
    ensures |s'.heap| == |s.heap|
    ensures forall k :: 0 <= k < |s.heap| && WillDisarm(s.heap[k].resolver) ==>
      WillDisarm(s'.heap[k].resolver) || s'.watches == Watchdog.Disarmed(s.watches, s.heap[k].id)
  {
    hide Watchdog.Disarmed;
  }

  lemma SharedStepStrands(s: State, action: Action, s': State, id: Id)
    requires Inv(s) && !OnHandle(action) && Apply(s, action) == Some(s') && !(action.Arm? && action.id == id)
    ensures Stranded(s, id) ==> Stranded(s', id)
    ensures Stranded(s', id) ==> Stranded(s, id) || ForgetsNow(s, action, id)
  {
    hide Answers, Consistent, Ids, Armed, RemindedAll, Distinct;
    match action
    case Arm(other, now) =>
      InvIsDistinct(s);
      ArmedIs(s.watches, other, now);
    case Tick(after, now) => RemindedIds(s.watches, after, now);
    case Insert(other, _, _) => InsertStrands(s, action, s', id);
    case Take(other, _) => TakenStrands(s, other, s', id);
    case TakeBack(other) => TakenStrands(s, other, s', id);
    case Remind(other) => RemindStrands(s, s', id);
    case Unregister(_) =>
  }

  lemma RemindStrands(s: State, s': State, id: Id)
    requires |s'.heap| == |s.heap| && s'.pending == s.pending && s'.asking == s.asking && s'.watches == s.watches
    requires forall h :: 0 <= h < |s.heap| ==>
      s'.heap[h].id == s.heap[h].id && s'.heap[h].resolver == s.heap[h].resolver
    ensures Stranded(s', id) <==> Stranded(s, id)
  {
    hide Ids, WillDisarm;
  }

  lemma InsertStrands(s: State, action: Action, s': State, id: Id)
    requires action.Insert? && Apply(s, action) == Some(s')
    ensures Stranded(s', id) <==> Stranded(s, id)
  {
    hide Ids;
    if Stranded(s', id) {
      forall k | 0 <= k < |s.heap| && s.heap[k].id == id ensures !WillDisarm(s.heap[k].resolver) {
        assert s'.heap[k] == s.heap[k];
      }
    }
  }

  /** An approval taken out of the inbox awaits disarming. */
  lemma TakenStrands(s: State, other: Id, s': State, id: Id)
    requires Inv(s) && Inbox(s, other) && |s'.heap| == |s.heap| && s'.pending == s.pending - {other}
    requires s'.watches == s.watches && s'.asking == s.asking
    requires var h := s.pending[other];
      && s'.heap[h].id == other && WillDisarm(s'.heap[h].resolver)
      && forall k :: 0 <= k < |s.heap| && k != h ==> s'.heap[k] == s.heap[k]
    ensures Stranded(s', id) <==> Stranded(s, id)
  {
    InboxIsUntaken(s, other);
    hide Inv, Ids;
    if Stranded(s', id) {
      forall k | 0 <= k < |s.heap| && s.heap[k].id == id ensures !WillDisarm(s.heap[k].resolver) {
        assert k != s.pending[other] ==> s'.heap[k] == s.heap[k];
      }
    }
  }

  lemma EndedIsStranded(s: State, session: Session, t: State, id: Id)
    requires Guarded(s) && ForgetsNow(s, Unregister(session), id) && Apply(s, Unregister(session)) == Some(t)
    ensures Stranded(t, id)
  {
    hide Ids, WillDisarm;
  }

  /** Ending a session forgets its approvals but not their watchdog entries:
      unless the id is asked for again, the entry stays for the rest of the run. */
  lemma {:induction false} UnregisterStrandsWatch(actions: seq<Action>, session: Session, more: seq<Action>,
      s: State, t: State, id: Id)
    requires AsksWhenClear(actions) && Run(actions) == Some(s) && ForgetsNow(s, Unregister(session), id)
    requires Requests(more, id) == 0 && Run(actions + [Unregister(session)] + more) == Some(t)
    ensures Stranded(t, id)
    decreases |more|
  {
    var ended := actions + [Unregister(session)];
    if more == [] {
      assert ended + more == ended;
      assert ended[..|actions|] == actions;
      PendingIsArmedWhenClear(actions, s);
      EndedIsStranded(s, session, t, id);
    } else {
      hide Inv, Stranded, Apply, AsksWhenClear;
      var init, last := more[..|more| - 1], more[|more| - 1];
      assert (ended + more)[..|ended + more| - 1] == ended + init;
      var mid := Run(ended + init).value;
      UnregisterStrandsWatch(actions, session, init, s, mid, id);
      RunKeepsInv(ended + init, mid);
      StrandedStep(mid, last, t, id);
    }
  }

  /** Step i forgot the id, and it was not asked for since. */
  ghost predicate LastForgotten(actions: seq<Action>, i: nat, id: Id) {
    Forgets(actions, i, id) && Requests(actions[i + 1..], id) == 0
  }

  /** In any run whatsoever a stranded watch was left by the end of a session, and
      not asked for since. */
  lemma {:induction false} StrandedWasForgotten(actions: seq<Action>, s: State, id: Id) returns (i: nat)
    requires Run(actions) == Some(s) && Stranded(s, id)
    ensures LastForgotten(actions, i, id)
  {
    assert actions != [];
    var init, last := actions[..|actions| - 1], actions[|actions| - 1];
    var before := Run(init).value;
    RunKeepsInv(init, before);
    StrandedIsNotAsked(before, last, s, id);
    hide Inv, Stranded, Apply, ForgetsNow;
    StrandedStep(before, last, s, id);
    if Stranded(before, id) {
      i := StrandedWasForgotten(init, before, id);
      ForgottenStill(actions, i, id);
    } else {
      i := |actions| - 1;
      assert actions[i + 1..] == [];
    }
  }

  lemma StrandedIsNotAsked(s: State, action: Action, s': State, id: Id)
    requires Apply(s, action) == Some(s') && Stranded(s', id)
    ensures !(action.Arm? && action.id == id)
  {
    hide Ids, Armed;
  }

  lemma ForgottenStill(actions: seq<Action>, i: nat, id: Id)
    requires actions != [] && LastForgotten(actions[..|actions| - 1], i, id)
    requires var last := actions[|actions| - 1]; !(last.Arm? && last.id == id)
    ensures LastForgotten(actions, i, id)
  {
    hide Run, ForgetsNow;
    var init := actions[..|actions| - 1];
    assert init[..i] == actions[..i];
    assert actions[i + 1..][..|actions[i + 1..]| - 1] == init[i + 1..];
  }

  /** With every request made at a clear id, a watch is stranded exactly when some
      session ended while the approval was in its inbox and the id was not asked
      for since: nothing else leaves a watch behind. */
  lemma StrandedExactlyWhenForgotten(actions: seq<Action>, s: State, id: Id)
    requires AsksWhenClear(actions) && Run(actions) == Some(s)
    ensures Stranded(s, id) <==> exists i: nat :: LastForgotten(actions, i, id)
  {
    hide Stranded, Apply, Run, AsksWhenClear, Requests;
    if Stranded(s, id) {
      var i := StrandedWasForgotten(actions, s, id);
    }
    if i: nat :| LastForgotten(actions, i, id) {
      var before, more := actions[..i], actions[i + 1..];
      ClearPrefix(actions, i);
      assert actions == before + [actions[i]] + more;
      UnregisterStrandsWatch(before, actions[i].session, more, Run(before).value, s, id);
    }
  }

  lemma ClearPrefix(actions: seq<Action>, i: nat)
    requires AsksWhenClear(actions) && i <= |actions|
    ensures AsksWhenClear(actions[..i])
  {
    hide Run, Clear;
    var before := actions[..i];
    forall j | 0 <= j < i ensures before[..j] == actions[..j] && before[j] == actions[j] {
    }
  }

  /** Every session that ends has nothing of its own in the inbox. */
  ghost predicate EndsQuietly(actions: seq<Action>) {
    forall i: nat, id :: !Forgets(actions, i, id)
  }

  ghost predicate StrandsAt(actions: seq<Action>, k: nat, id: Id) {
    k <= |actions| && Run(actions[..k]).Some? && Stranded(Run(actions[..k]).value, id)
  }

  /** A run leaves no watch behind at any step exactly when its sessions end
      quietly. */
  lemma QuietEndsStrandNothing(actions: seq<Action>, s: State)
    requires AsksWhenClear(actions) && Run(actions) == Some(s)
    ensures (forall k: nat, id :: !StrandsAt(actions, k, id)) <==> EndsQuietly(actions)
  {
    hide Stranded, ForgetsNow, Run, AsksWhenClear;
    if k: nat, id :| StrandsAt(actions, k, id) {
      var i := StrandedWasForgotten(actions[..k], Run(actions[..k]).value, id);
      assert actions[..k][..i] == actions[..i];
      assert Forgets(actions, i, id);
    }
    if i: nat, id :| Forgets(actions, i, id) {
      ForgottenIsStranded(actions, i, s, id);
    }
  }

  lemma ForgottenIsStranded(actions: seq<Action>, i: nat, s: State, id: Id)
    requires AsksWhenClear(actions) && Run(actions) == Some(s) && Forgets(actions, i, id)
    ensures StrandsAt(actions, i + 1, id)
  {
    hide Stranded, Apply, Run, AsksWhenClear;
    var upTo := actions[..i + 1];
    PrefixRuns(actions, i + 1, s);
    ClearPrefix(actions, i + 1);
    assert upTo[..i] == actions[..i] && upTo[i + 1..] == [];
    assert LastForgotten(upTo, i, id);
    StrandedExactlyWhenForgotten(upTo, Run(upTo).value, id);
  }

  lemma {:induction false} PrefixRuns(actions: seq<Action>, i: nat, s: State)
    requires i <= |actions| && Run(actions) == Some(s)
    ensures Run(actions[..i]).Some?
    decreases |actions|
  {
    hide Apply;
    if i == |actions| {
      assert actions[..i] == actions;
    } else {
      var init := actions[..|actions| - 1];
      PrefixRuns(init, i, Run(init).value);
      assert init[..i] == actions[..i];
    }
  }

  // ----- reminders keep pace

  function ClockOf(action: Action, before: Time): Time {
    if action.Arm? || action.Tick? then action.now else before
  }

  function Clock(actions: seq<Action>): Time {
    if actions == [] then 0 else ClockOf(actions[|actions| - 1], Clock(actions[..|actions| - 1]))
  }

  /** Time never goes back, and every round uses the same interval. */
  predicate Clocked(actions: seq<Action>, after: Time) {
    actions == [] ||
    var init, last := actions[..|actions| - 1], actions[|actions| - 1];
    Clocked(init, after) && Clock(init) <= Clock(actions) && (last.Tick? ==> last.after == after)
  }

  ghost predicate AllPaced(ws: seq<Watch>, after: Time, now: Time) {
    forall w :: w in ws ==> Paced(w, after, now)
  }

  lemma PacedLater(ws: seq<Watch>, after: Time, now: Time, later: Time)
    requires AllPaced(ws, after, now) && now <= later
    ensures AllPaced(ws, after, later)
    ensures AllPaced(RemindedAll(ws, after, later), after, later)
  {
    var r := RemindedAll(ws, after, later);
    forall w | w in r ensures Paced(w, after, later) {
      var i :| 0 <= i < |r| && r[i] == w;
      assert ws[i] in ws;
      DueKeepsPace(ws[i], after, now, later);
    }
  }

  /** At no step of a run has anyone been reminded more often than whole
      intervals have passed. */
  lemma {:induction false} RemindersKeepPace(actions: seq<Action>, s: State, after: Time)
    requires Run(actions) == Some(s) && Clocked(actions, after)
    ensures AllPaced(s.watches, after, Clock(actions))
  {
    if actions != [] {
      var init, last := actions[..|actions| - 1], actions[|actions| - 1];
      var before := Run(init).value;
      RemindersKeepPace(init, before, after);
      PacedLater(before.watches, after, Clock(init), Clock(actions));
      if OnHandle(last) {
        OwnStepFacts(before, last, s);
        DisarmedIs(before.watches, before.heap[last.handle].id);
      }
    }
  }
}
