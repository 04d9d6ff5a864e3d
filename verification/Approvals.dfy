/** The approval queue: an agent's permission request is put in the inbox,
    its hook is held for an answer, and whoever answers first decides how the
    answer reaches the agent.

    Every critical section of the daemon is one `Action`; a run is any
    interleaving of them. A handle (a shared `PendingApproval`) is an
    index into the heap of approvals ever asked for. */
module Approvals {
  import opened Watchdog
  import opened Wrappers

  type Session = string
  type Handle = nat

  datatype Decision = Allow(updatedInput: string) | Deny(reason: string)

  /** What the held hook request is answered with; `Pass` lets the agent show
      its own prompt. */
  datatype Reply = AllowReply(input: string) | DenyReply(reason: string) | Pass

  function ReplyOf(d: Decision): Reply {
    match d
    case Allow(input) => AllowReply(input)
    case Deny(reason) => DenyReply(reason)
  }

  /** What the agent's own prompt takes for an answer. */
  function KeysOf(d: Decision): string {
    if d.Allow? then "y" else "n"
  }

  /** The hook thread: `Closing` holds the decision lock. */
  datatype Hold = NotHeld | Waiting | Closing | Replied(reply: Reply)

  /** The thread that took the approval out of the inbox, by its next step. */
  datatype Resolver =
    | Untaken
    | Taken(decision: Decision)        // disarm the watchdog
    | Disarmed(decision: Decision)     // write the decision
    | Written(decision: Decision)      // look whether the hook is open
    | Looked(decision: Decision, hookOpen: bool)
    | Done(decision: Decision)
    | Withdrawing                      // disarm the watchdog
    | WithdrawDisarmed                 // raise the flag
    | WithdrawDone

  datatype Approval = Approval(
    id: Id, session: Session,
    decision: Option<Decision>, hookOpen: bool, withdrawn: bool, reminders: nat,
    hold: Hold, resolver: Resolver)

  /** What leaves the daemon towards the agent. */
  datatype Output = HookReply(handle: Handle, reply: Reply) | Keystroke(handle: Handle, keys: string)

  datatype State = State(
    heap: seq<Approval>,
    pending: map<Id, Handle>,
    watches: seq<Watch>,
    asking: multiset<Id>,
    out: seq<Output>)

  const INIT := State([], map[], [], multiset{}, [])

  datatype Action =
    | Arm(id: Id, now: Time)
    | Insert(id: Id, session: Session, held: bool)
    | HoldWakes(handle: Handle)
    | HoldExpires(handle: Handle)
    | HoldCloses(handle: Handle)
    | Take(id: Id, decision: Decision)
    | TakeBack(id: Id)
    | Disarm(handle: Handle)
    | Write(handle: Handle)
    | Look(handle: Handle)
    | Route(handle: Handle)
    | MarkWithdrawn(handle: Handle)
    | Unregister(session: Session)
    | Tick(after: Time, now: Time)
    | Remind(id: Id)

  function WithApproval(s: State, h: Handle, a: Approval): State
    requires h < |s.heap|
  {
    s.(heap := s.heap[h := a])
  }

  /** One critical section; `None` when it cannot run now. */
  function Apply(s: State, action: Action): Option<State> {
    match action
    case Arm(id, now) =>
      Some(s.(watches := Armed(s.watches, id, now), asking := s.asking + multiset{id}))
    case Insert(id, session, held) =>
      if id !in s.asking then None
      else
        var a := Approval(id, session, None, true, false, 0, if held then Waiting else NotHeld, Untaken);
        Some(s.(heap := s.heap + [a], pending := s.pending[id := |s.heap|], asking := s.asking - multiset{id}))
    case Take(id, decision) =>
      if !Inbox(s, id) then None
      else
        var h := s.pending[id];
        Some(WithApproval(s, h, s.heap[h].(resolver := Taken(decision))).(pending := s.pending - {id}))
    case TakeBack(id) =>
      if !Inbox(s, id) then None
      else
        var h := s.pending[id];
        Some(WithApproval(s, h, s.heap[h].(resolver := Withdrawing)).(pending := s.pending - {id}))
    case Unregister(session) =>
      Some(s.(pending := map id |
        id in s.pending && !(s.pending[id] < |s.heap| && s.heap[s.pending[id]].session == session) :: s.pending[id]))
    case Tick(after, now) =>
      Some(s.(watches := RemindedAll(s.watches, after, now)))
    case Remind(id) =>
      if !Inbox(s, id) then None
      else
        var h := s.pending[id];
        Some(WithApproval(s, h, s.heap[h].(reminders := s.heap[h].reminders + 1)))
    case _ =>
      if action.handle >= |s.heap| then None else ApplyTo(s, action, action.handle)
  }

  predicate Inbox(s: State, id: Id) {
    id in s.pending && s.pending[id] < |s.heap|
  }

  predicate OnHandle(action: Action) {
    action.HoldWakes? || action.HoldExpires? || action.HoldCloses? || action.Disarm? ||
    action.Write? || action.Look? || action.Route? || action.MarkWithdrawn?
  }

  /** The steps of the hook thread and of the resolver of one approval. */
  function ApplyTo(s: State, action: Action, h: Handle): Option<State>
    requires OnHandle(action) && h < |s.heap|
  {
    var a := s.heap[h];
    match action
    case HoldWakes(_) =>
      if a.hold != Waiting || a.decision.None? then None
      else
        var reply := ReplyOf(a.decision.value);
        Some(WithApproval(s, h, a.(hold := Replied(reply))).(out := s.out + [HookReply(h, reply)]))
    case HoldExpires(_) =>
      if a.hold != Waiting || a.decision.Some? then None
      else Some(WithApproval(s, h, a.(hold := Closing)))
    case HoldCloses(_) =>
      if a.hold != Closing then None
      else Some(WithApproval(s, h, a.(hookOpen := false, hold := Replied(Pass))).(out := s.out + [HookReply(h, Pass)]))
    case Disarm(_) =>
      if a.resolver.Taken? then
        var next := a.(resolver := Disarmed(a.resolver.decision));
        Some(WithApproval(s, h, next).(watches := Watchdog.Disarmed(s.watches, a.id)))
      else if a.resolver.Withdrawing? then
        Some(WithApproval(s, h, a.(resolver := WithdrawDisarmed)).(watches := Watchdog.Disarmed(s.watches, a.id)))
      else None
    case Write(_) =>
      // The hook thread keeps the decision lock while it closes the hook.
      if !a.resolver.Disarmed? || a.hold == Closing then None
      else
        var d := a.resolver.decision;
        Some(WithApproval(s, h, a.(decision := Some(d), resolver := Written(d))))
    case Look(_) =>
      if !a.resolver.Written? then None
      else Some(WithApproval(s, h, a.(resolver := Looked(a.resolver.decision, a.hookOpen))))
    case Route(_) =>
      if !a.resolver.Looked? || a.hold == Closing then None
      else
        var done := WithApproval(s, h, a.(resolver := Done(a.resolver.decision)));
        if a.resolver.hookOpen then Some(done)
        else
          // The stored decision is read again under its lock.
          var keys := if a.decision.Some? then KeysOf(a.decision.value) else "n";
          Some(done.(out := s.out + [Keystroke(h, keys)]))
    case MarkWithdrawn(_) =>
      if !a.resolver.WithdrawDisarmed? then None
      else Some(WithApproval(s, h, a.(withdrawn := true, resolver := WithdrawDone)))
  }

  // ----- runs

  /** The state after a run from `s`; `None` when some step could not run. */
  function RunFrom(s: State, actions: seq<Action>): Option<State> {
    if actions == [] then Some(s)
    else
      var before := RunFrom(s, actions[..|actions| - 1]);
      if before.None? then None else Apply(before.value, actions[|actions| - 1])
  }

  function Run(actions: seq<Action>): Option<State> {
    RunFrom(INIT, actions)
  }

  /** A finite run between two states. */
  ghost predicate Reaches(s: State, actions: seq<Action>, t: State) {
    RunFrom(s, actions) == Some(t)
  }

  lemma RunOne(s: State, a: Action, t: State)
    requires Apply(s, a) == Some(t)
    ensures RunFrom(s, [a]) == Some(t)
  {
    hide Apply;
    assert [a][..0] == [];
    assert RunFrom(s, []) == Some(s);
  }

  lemma {:induction false} ReachesJoin(s: State, first: seq<Action>, mid: State, more: seq<Action>, t: State)
    requires Reaches(s, first, mid) && Reaches(mid, more, t)
    ensures Reaches(s, first + more, t)
    decreases |more|
  {
    if more == [] {
      assert first + more == first;
    } else {
      var before := RunFrom(mid, more[..|more| - 1]).value;
      ReachesJoin(s, first, mid, more[..|more| - 1], before);
      assert (first + more)[..|first + more| - 1] == first + more[..|more| - 1];
    }
  }

  // ----- routing: exactly one way back to the agent

  /** The outputs that carry an answer to the agent for one approval. */
  function Answers(out: seq<Output>, h: Handle): seq<Output> {
    if out == [] then []
    else
      var rest, o := Answers(out[..|out| - 1], h), out[|out| - 1];
      if o.handle == h && o != HookReply(h, Pass) then rest + [o] else rest
  }

  predicate DecidedPhase(r: Resolver) {
    r.Written? || r.Looked? || r.Done?
  }

  /** What always holds of one approval and what has been said about it. */
  predicate Consistent(a: Approval, h: Handle, answers: seq<Output>) {
    && (a.decision.Some? <==> DecidedPhase(a.resolver))
    && (a.decision.Some? ==> a.decision.value == a.resolver.decision && a.hold != Closing)
    && (a.withdrawn <==> a.resolver.WithdrawDone?)
    && (a.hookOpen <==> a.hold != Replied(Pass))
    && (a.resolver.Looked? ==> a.resolver.hookOpen == a.hookOpen)
    && (a.hold.Replied? && a.hold.reply != Pass ==> a.decision.Some? && a.hold.reply == ReplyOf(a.decision.value))
    && answers == (if a.hold.Replied? && a.hold.reply != Pass then [HookReply(h, a.hold.reply)]
                   else if a.resolver.Done? && !a.hookOpen then [Keystroke(h, KeysOf(a.resolver.decision))]
                   else [])
  }

  ghost predicate Inv(s: State) {
    && Distinct(s.watches)
    && (forall id :: id in s.pending ==>
          s.pending[id] < |s.heap| && s.heap[s.pending[id]].id == id && s.heap[s.pending[id]].resolver == Untaken)
    && (forall h :: 0 <= h < |s.heap| ==> Consistent(s.heap[h], h, Answers(s.out, h)))
    && (forall i :: 0 <= i < |s.out| ==> s.out[i].handle < |s.heap|)
  }

  lemma AnswersSnoc(out: seq<Output>, o: Output, h: Handle)
    ensures Answers(out + [o], h) == Answers(out, h) + (if o.handle == h && o != HookReply(h, Pass) then [o] else [])
  {
    assert (out + [o])[..|out|] == out;
  }

  lemma {:induction false} NoAnswersYet(out: seq<Output>, h: Handle)
    requires forall i :: 0 <= i < |out| ==> out[i].handle < h
    ensures Answers(out, h) == []
  {
    if out != [] {
      NoAnswersYet(out[..|out| - 1], h);
    }
  }

  /** What one approval's own step leaves alone. */
  lemma OwnStepFrame(s: State, action: Action, h: Handle, s': State)
    requires OnHandle(action) && h < |s.heap| && ApplyTo(s, action, h) == Some(s')
    ensures |s'.heap| == |s.heap| && s'.heap[h].id == s.heap[h].id
    ensures s.heap[h].resolver != Untaken || s'.heap[h].resolver == Untaken
    ensures forall k :: 0 <= k < |s.heap| && k != h ==> s'.heap[k] == s.heap[k]
    ensures s'.pending == s.pending && s'.asking == s.asking
    ensures s'.out == s.out || exists o :: s'.out == s.out + [o] && o.handle == h
  {
    hide Watchdog.Disarmed;
  }

  /** The step of one approval's own threads, seen from that approval: its
      new state and what it says. */
  lemma OwnStepAnswers(s: State, action: Action, h: Handle, s': State, answers: seq<Output>)
    requires OnHandle(action) && h < |s.heap| && ApplyTo(s, action, h) == Some(s')
    requires Consistent(s.heap[h], h, answers)
    ensures h < |s'.heap| && (s'.out == s.out ==> Consistent(s'.heap[h], h, answers))
    ensures forall o :: s'.out == s.out + [o] ==>
      Consistent(s'.heap[h], h, answers + if o != HookReply(h, Pass) then [o] else [])
  {
    hide Watchdog.Disarmed;
    forall o | s'.out == s.out + [o] ensures o == s'.out[|s.out|] {
    }
  }

  lemma OwnStepConsistent(s: State, action: Action, h: Handle, s': State)
    requires OnHandle(action) && h < |s.heap| && ApplyTo(s, action, h) == Some(s')
    requires Consistent(s.heap[h], h, Answers(s.out, h))
    ensures |s'.heap| == |s.heap| && s'.heap[h].id == s.heap[h].id
    ensures Consistent(s'.heap[h], h, Answers(s'.out, h))
    ensures s.heap[h].resolver != Untaken || s'.heap[h].resolver == Untaken
    ensures forall k :: 0 <= k < |s.heap| && k != h ==>
      s'.heap[k] == s.heap[k] && Answers(s'.out, k) == Answers(s.out, k)
    ensures s'.pending == s.pending && s'.asking == s.asking
    ensures s'.out == s.out || (|s'.out| == |s.out| + 1 && s'.out[..|s.out|] == s.out && s'.out[|s.out|].handle == h)
  {
    hide Answers, Consistent;
    OwnStepFrame(s, action, h, s');
    OwnStepAnswers(s, action, h, s', Answers(s.out, h));
    hide ApplyTo;
    if s'.out != s.out {
      var o :| s'.out == s.out + [o] && o.handle == h;
      forall k
        ensures Answers(s'.out, k) == Answers(s.out, k) + (if o.handle == k && o != HookReply(k, Pass) then [o] else [])
      {
        AnswersSnoc(s.out, o, k);
      }
    }
  }

  lemma WatchesStayDistinct(s: State, action: Action, s': State)
    requires Distinct(s.watches) && Apply(s, action) == Some(s')
    ensures Distinct(s'.watches)
  {
    match action
    case Arm(id, now) => Membership(s.watches, id, 0, now);
    case Tick(after, now) => RemindedKeepsDistinct(s.watches, after, now);
    case Disarm(h) => DisarmedKeepsDistinct(s.watches, s.heap[h].id);
    case _ =>
  }

  lemma OwnStepKeepsInv(s: State, action: Action, s': State)
    requires Inv(s) && OnHandle(action) && Apply(s, action) == Some(s')
    ensures Inv(s')
  {
    hide ApplyTo, Consistent, Answers;
    WatchesStayDistinct(s, action, s');
    OwnStepConsistent(s, action, action.handle, s');
    forall i | 0 <= i < |s'.out| ensures s'.out[i].handle < |s'.heap| {
      if i < |s.out| {
        assert s'.out[i] == s'.out[..|s.out|][i];
      }
    }
  }

  /** Taking an approval out of the inbox, or reminding of it, says nothing. */
  lemma QuietChange(a: Approval, b: Approval, h: Handle, answers: seq<Output>)
    requires Consistent(a, h, answers) && a.resolver == Untaken
    requires b == a.(resolver := b.resolver) || b == a.(reminders := b.reminders)
    requires b.resolver.Untaken? || b.resolver.Taken? || b.resolver.Withdrawing?
    ensures Consistent(b, h, answers)
  {
  }

  lemma InsertKeepsInv(s: State, action: Action, s': State)
    requires Inv(s) && action.Insert? && Apply(s, action) == Some(s')
    ensures Inv(s')
  {
    hide Answers, Distinct;
    NoAnswersYet(s.out, |s.heap|);
    assert Consistent(s'.heap[|s.heap|], |s.heap|, []);
    hide Consistent;
  }

  lemma SharedStepKeepsInv(s: State, action: Action, s': State)
    requires Inv(s) && !OnHandle(action) && Apply(s, action) == Some(s')
    ensures Inv(s')
  {
    WatchesStayDistinct(s, action, s');
    if action.Insert? {
      InsertKeepsInv(s, action, s');
    } else {
      hide Answers, Distinct, Consistent;
      if action.Take? || action.TakeBack? || action.Remind? {
        var h := s.pending[action.id];
        QuietChange(s.heap[h], s'.heap[h], h, Answers(s.out, h));
      }
    }
  }

  lemma {:induction false} RunKeepsInv(actions: seq<Action>, s: State)
    requires Run(actions) == Some(s)
    ensures Inv(s)
  {
    if actions != [] {
      var last := actions[|actions| - 1];
      var before := Run(actions[..|actions| - 1]).value;
      RunKeepsInv(actions[..|actions| - 1], before);
      if OnHandle(last) {
        OwnStepKeepsInv(before, last, s);
      } else {
        SharedStepKeepsInv(before, last, s);
      }
    }
  }

  lemma InboxIsUntaken(s: State, id: Id)
    requires Inv(s) && id in s.pending
    ensures Inbox(s, id) && s.heap[s.pending[id]].resolver == Untaken && s.heap[s.pending[id]].id == id
    ensures s.heap[s.pending[id]].decision.None?
  {
  }

  /** In every run: at most one answer per approval, and it carries the
      decision that was taken. When the hook thread and the decider have both
      finished there is exactly one: the hook's reply if the hook was still
      open, otherwise the keystroke. */
  lemma AnsweredExactlyOnce(actions: seq<Action>, s: State, h: Handle)
    requires Run(actions) == Some(s) && h < |s.heap|
    ensures var a := s.heap[h]; var answers := Answers(s.out, h);
      && |answers| <= 1
      && (answers != [] ==> DecidedPhase(a.resolver))
      && (answers != [] && a.resolver.decision.Allow? ==>
            answers[0] in {HookReply(h, AllowReply(a.resolver.decision.updatedInput)), Keystroke(h, "y")})
      && (answers != [] && a.resolver.decision.Deny? ==>
            answers[0] in {HookReply(h, DenyReply(a.resolver.decision.reason)), Keystroke(h, "n")})
      && (answers != [] ==> (answers[0].HookReply? <==> a.hookOpen))
      && (a.resolver.Done? && a.hold.Replied? ==> |answers| == 1)
      && (!DecidedPhase(a.resolver) ==> answers == [])
  {
    hide Run, Answers;
    RunKeepsInv(actions, s);
  }

  predicate NeverHeld(a: Approval) {
    a.hold.NotHeld?
  }

  lemma StepKeepsUnheld(s: State, action: Action, s': State, h: Handle)
    requires Inv(s) && Apply(s, action) == Some(s') && h < |s.heap| && NeverHeld(s.heap[h])
    ensures h < |s'.heap| && NeverHeld(s'.heap[h])
  {
    hide Answers, Consistent, Distinct;
  }

  /** An approval that no hook waits behind stays so, and is answered neither
      through a hook nor by a keystroke, decided or not: whoever asked has to
      read the decision. */
  lemma {:induction false} UnheldIsNeverAnswered(actions: seq<Action>, more: seq<Action>, s: State, t: State, h: Handle)
    requires Run(actions) == Some(s) && RunFrom(s, more) == Some(t) && h < |s.heap| && NeverHeld(s.heap[h])
    ensures h < |t.heap| && NeverHeld(t.heap[h]) && Answers(t.out, h) == []
    decreases |more|
  {
    hide Answers, Apply;
    ReachesJoin(INIT, actions, s, more, t);
    RunKeepsInv(actions + more, t);
    if more != [] {
      hide Inv;
      var init := more[..|more| - 1];
      var mid := RunFrom(s, init).value;
      UnheldIsNeverAnswered(actions, init, s, mid, h);
      ReachesJoin(INIT, actions, s, init, mid);
      RunKeepsInv(actions + init, mid);
      StepKeepsUnheld(mid, more[|more| - 1], t, h);
    }
    UnheldHasNoAnswer(t, h);
  }

  lemma UnheldHasNoAnswer(s: State, h: Handle)
    requires Inv(s) && h < |s.heap| && NeverHeld(s.heap[h])
    ensures Answers(s.out, h) == []
  {
    hide Answers, Distinct;
    assert Consistent(s.heap[h], h, Answers(s.out, h));
  }

  // ----- an answer comes

  predicate Own(action: Action, h: Handle) {
    OnHandle(action) && action.handle == h
  }

  /** The hook thread has replied or there is none, and whoever took the approval
      is done or nobody did. */
  predicate AtRest(a: Approval) {
    (a.hold.NotHeld? || a.hold.Replied?) && (a.resolver.Untaken? || a.resolver.Done? || a.resolver.WithdrawDone?)
  }

  function HoldRank(hold: Hold): nat {
    match hold
    case Waiting => 2
    case Closing => 1
    case _ => 0
  }

  function ResolverRank(r: Resolver): nat {
    match r
    case Untaken => 5
    case Taken(_) => 4
    case Disarmed(_) => 3
    case Written(_) => 2
    case Looked(_, _) => 1
    case Done(_) => 0
    case Withdrawing => 2
    case WithdrawDisarmed => 1
    case WithdrawDone => 0
  }

  /** A bound on the steps an approval's two threads have left. */
  function Rank(a: Approval): nat {
    HoldRank(a.hold) + ResolverRank(a.resolver)
  }

  /** A step that can run now, of the hook thread first. */
  function NextStep(a: Approval, h: Handle): Action
    requires !AtRest(a)
  {
    if a.hold == Closing then HoldCloses(h)
    else if a.hold == Waiting then if a.decision.Some? then HoldWakes(h) else HoldExpires(h)
    else match a.resolver
         case Taken(_) => Disarm(h)
         case Withdrawing => Disarm(h)
         case Disarmed(_) => Write(h)
         case Written(_) => Look(h)
         case Looked(_, _) => Route(h)
         case _ => MarkWithdrawn(h)
  }

  /** The decision lock is the only thing the two threads wait for: one of them
      can run exactly while either is unfinished. */
  lemma RunsUnlessAtRest(s: State, h: Handle)
    requires h < |s.heap|
    ensures (exists action :: Own(action, h) && Apply(s, action).Some?) <==> !AtRest(s.heap[h])
  {
    var a := s.heap[h];
    if !AtRest(a) {
      assert Own(NextStep(a, h), h) && Apply(s, NextStep(a, h)).Some?;
    }
  }

  /** The hook thread never waits for the resolver, and the resolver for the hook
      thread only while that closes the hook. */
  lemma ThreadsRunApart(s: State, h: Handle)
    requires h < |s.heap|
    ensures var a := s.heap[h];
      && (a.hold == Waiting && a.decision.Some? ==> Apply(s, HoldWakes(h)).Some?)
      && (a.hold == Waiting && a.decision.None? ==> Apply(s, HoldExpires(h)).Some?)
      && (a.hold == Closing ==> Apply(s, HoldCloses(h)).Some?)
    ensures var a := s.heap[h];
      a.hold != Closing && !(a.resolver.Untaken? || a.resolver.Done? || a.resolver.WithdrawDone?) ==>
        exists action :: action in {Disarm(h), Write(h), Look(h), Route(h), MarkWithdrawn(h)} && Apply(s, action).Some?
  {
    var a := s.heap[h];
    if a.hold != Closing {
      match a.resolver
      case Taken(_) => assert Apply(s, Disarm(h)).Some?;
      case Withdrawing => assert Apply(s, Disarm(h)).Some?;
      case Disarmed(_) => assert Apply(s, Write(h)).Some?;
      case Written(_) => assert Apply(s, Look(h)).Some?;
      case Looked(_, _) => assert Apply(s, Route(h)).Some?;
      case WithdrawDisarmed => assert Apply(s, MarkWithdrawn(h)).Some?;
      case _ =>
    }
  }

  predicate Deciding(r: Resolver) {
    r.Taken? || r.Disarmed? || DecidedPhase(r)
  }

  /** Held or not, and the decision that is on its way, stay the same. */
  predicate SameCourse(a: Approval, b: Approval) {
    && (NeverHeld(a) <==> NeverHeld(b))
    && (Deciding(a.resolver) ==> Deciding(b.resolver) && b.resolver.decision == a.resolver.decision)
  }

  lemma OwnStepLowersRank(s: State, action: Action, s': State, h: Handle)
    requires Own(action, h) && Apply(s, action) == Some(s')
    ensures |s'.heap| == |s.heap| && Rank(s'.heap[h]) < Rank(s.heap[h]) && SameCourse(s.heap[h], s'.heap[h])
  {
    hide Watchdog.Disarmed;
    if action.HoldWakes? || action.HoldExpires? || action.HoldCloses? {
      assert s'.heap[h].resolver == s.heap[h].resolver;
    } else {
      assert s'.heap[h].hold == s.heap[h].hold;
    }
  }

  lemma StepKeepsRank(s: State, action: Action, s': State, h: Handle)
    requires Inv(s) && !Own(action, h) && Apply(s, action) == Some(s') && h < |s.heap|
    ensures h < |s'.heap| && Rank(s'.heap[h]) <= Rank(s.heap[h]) && SameCourse(s.heap[h], s'.heap[h])
  {
    hide Answers, Consistent, Distinct;
    if OnHandle(action) {
      OwnStepFrame(s, action, action.handle, s');
    } else {
      hide ApplyTo;
    }
  }

  function OwnSteps(actions: seq<Action>, h: Handle): nat {
    if actions == [] then 0
    else OwnSteps(actions[..|actions| - 1], h) + if Own(actions[|actions| - 1], h) then 1 else 0
  }

  /** However the run goes on, the two threads of an approval make only so many
      more steps, never more than seven, and its course is set by who took it. */
  lemma {:induction false} OwnStepsAreBounded(actions: seq<Action>, more: seq<Action>, s: State, t: State, h: Handle)
    requires Run(actions) == Some(s) && RunFrom(s, more) == Some(t) && h < |s.heap|
    ensures h < |t.heap| && SameCourse(s.heap[h], t.heap[h])
    ensures OwnSteps(more, h) + Rank(t.heap[h]) <= Rank(s.heap[h]) <= 7
    decreases |more|
  {
    if more != [] {
      hide Rank, Apply, Inv, SameCourse;
      var init, last := more[..|more| - 1], more[|more| - 1];
      var mid := RunFrom(s, init).value;
      OwnStepsAreBounded(actions, init, s, mid, h);
      ReachesJoin(INIT, actions, s, init, mid);
      RunKeepsInv(actions + init, mid);
      if Own(last, h) {
        OwnStepLowersRank(mid, last, t, h);
      } else {
        StepKeepsRank(mid, last, t, h);
      }
      SameCourseOn(s.heap[h], mid.heap[h], t.heap[h]);
    }
  }

  lemma SameCourseOn(a: Approval, b: Approval, c: Approval)
    requires SameCourse(a, b) && SameCourse(b, c)
    ensures SameCourse(a, c)
  {
  }

  /** From any state the two threads of an approval can be run to their end, in no
      more steps than its rank says. */
  lemma {:induction false} CanComeToRest(s: State, h: Handle) returns (more: seq<Action>, t: State)
    requires h < |s.heap|
    ensures RunFrom(s, more) == Some(t) && forall i :: 0 <= i < |more| ==> Own(more[i], h)
    ensures |t.heap| == |s.heap| && AtRest(t.heap[h]) && |more| + Rank(t.heap[h]) <= Rank(s.heap[h])
    decreases Rank(s.heap[h])
  {
    hide Rank;
    if AtRest(s.heap[h]) {
      more, t := [], s;
    } else {
      var step := NextStep(s.heap[h], h);
      var next := Apply(s, step).value;
      OwnStepLowersRank(s, step, next, h);
      hide Apply;
      var rest;
      rest, t := CanComeToRest(next, h);
      RunOne(s, step, next);
      ReachesJoin(s, [step], next, rest, t);
      more := [step] + rest;
    }
  }

  /** Step i of the run takes the approval out of the inbox with a decision. */
  ghost predicate DecidesAt(actions: seq<Action>, i: nat, h: Handle) {
    i < |actions| && Run(actions[..i]).Some? && TakesNow(Run(actions[..i]).value, actions[i], h)
  }

  predicate TakesNow(s: State, action: Action, h: Handle) {
    action.Take? && Inbox(s, action.id) && s.pending[action.id] == h
  }

  /** Whoever took an approval has the decision it was taken with, and there was one
      such step at most. */
  lemma {:induction false} TakenWith(actions: seq<Action>, s: State, h: Handle) returns (i: nat)
    requires Run(actions) == Some(s) && h < |s.heap| && Deciding(s.heap[h].resolver)
    ensures DecidesAt(actions, i, h) && actions[i].decision == s.heap[h].resolver.decision
    ensures forall j: nat :: DecidesAt(actions, j, h) ==> j == i
  {
    assert actions != [];
    var init, last := actions[..|actions| - 1], actions[|actions| - 1];
    var before := Run(init).value;
    RunKeepsInv(init, before);
    TakenStep(before, last, s, h);
    hide Inv, Apply, TakesNow, Deciding;
    if TakesNow(before, last, h) {
      i := |actions| - 1;
    } else {
      i := TakenWith(init, before, h);
      DecidesLonger(actions, i, h);
    }
    forall j: nat | DecidesAt(actions, j, h) ensures j == i {
      if j < |actions| - 1 {
        DecidesBefore(actions, j, h);
        DecidedIsTaken(init, before, j, h);
      }
    }
  }

  lemma DecidesLonger(actions: seq<Action>, j: nat, h: Handle)
    requires actions != [] && DecidesAt(actions[..|actions| - 1], j, h)
    ensures DecidesAt(actions, j, h) && actions[j] == actions[..|actions| - 1][j]
  {
    hide Run, TakesNow;
    assert actions[..|actions| - 1][..j] == actions[..j];
  }

  lemma DecidesBefore(actions: seq<Action>, j: nat, h: Handle)
    requires DecidesAt(actions, j, h) && j < |actions| - 1
    ensures DecidesAt(actions[..|actions| - 1], j, h)
  {
    hide Run, TakesNow;
    assert actions[..|actions| - 1][..j] == actions[..j];
  }

  /** How an approval comes to have a decider in one step. */
  lemma TakenStep(s: State, action: Action, s': State, h: Handle)
    requires Inv(s) && Apply(s, action) == Some(s') && h < |s'.heap|
    ensures TakesNow(s, action, h) ==> h < |s.heap| && s.heap[h].resolver == Untaken
    ensures TakesNow(s, action, h) ==> s'.heap[h].resolver == Taken(action.decision)
    ensures Deciding(s'.heap[h].resolver) && !TakesNow(s, action, h) ==>
      h < |s.heap| && Deciding(s.heap[h].resolver) && s.heap[h].resolver.decision == s'.heap[h].resolver.decision
    ensures h < |s.heap| && s.heap[h].resolver != Untaken ==> s'.heap[h].resolver != Untaken
  {
    if OnHandle(action) {
      OwnStepDecides(s, action, s', h);
    } else {
      hide Answers, Consistent, Distinct, ApplyTo, Armed, RemindedAll;
    }
  }

  lemma OwnStepDecides(s: State, action: Action, s': State, h: Handle)
    requires OnHandle(action) && Apply(s, action) == Some(s')
    ensures |s'.heap| == |s.heap|
    ensures h < |s.heap| ==>
      var r, r' := s.heap[h].resolver, s'.heap[h].resolver;
      (Deciding(r') ==> Deciding(r) && r.decision == r'.decision) && (r != Untaken ==> r' != Untaken)
  {
    hide Watchdog.Disarmed;
  }

  /** What was once taken stays taken. */
  lemma {:induction false} DecidedIsTaken(actions: seq<Action>, s: State, j: nat, h: Handle)
    requires Run(actions) == Some(s) && DecidesAt(actions, j, h)
    ensures h < |s.heap| && s.heap[h].resolver != Untaken
    decreases |actions|
  {
    var init, last := actions[..|actions| - 1], actions[|actions| - 1];
    var before := Run(init).value;
    RunKeepsInv(init, before);
    if j < |actions| - 1 {
      DecidesBefore(actions, j, h);
      DecidedIsTaken(init, before, j, h);
      HeapGrows(before, last, s);
      TakenStep(before, last, s, h);
    } else {
      HeapGrows(before, last, s);
      TakenStep(before, last, s, h);
    }
  }

  lemma HeapGrows(s: State, action: Action, s': State)
    requires Apply(s, action) == Some(s')
    ensures |s.heap| <= |s'.heap|
  {
    hide Watchdog.Disarmed;
  }

  /** The hook is open exactly until its thread gives up waiting. */
  lemma {:induction false} OpenUntilClosed(actions: seq<Action>, s: State, h: Handle)
    requires Run(actions) == Some(s) && h < |s.heap|
    ensures s.heap[h].hookOpen <==> HoldCloses(h) !in actions
  {
    if actions != [] {
      var init, last := actions[..|actions| - 1], actions[|actions| - 1];
      var before := Run(init).value;
      assert actions == init + [last];
      HookStep(before, last, s, h);
      if h < |before.heap| {
        OpenUntilClosed(init, before, h);
      } else {
        hide Apply, Run;
        NoneClosedYet(init, before, h);
      }
    }
  }

  lemma HookStep(s: State, action: Action, s': State, h: Handle)
    requires Apply(s, action) == Some(s') && h < |s'.heap|
    ensures h < |s.heap| ==> (s'.heap[h].hookOpen <==> s.heap[h].hookOpen && action != HoldCloses(h))
    ensures h >= |s.heap| ==> s'.heap[h].hookOpen && action != HoldCloses(h)
  {
    if OnHandle(action) {
      OwnStepHook(s, action, s', h);
    } else {
      hide ApplyTo, Armed, RemindedAll;
    }
  }

  lemma OwnStepHook(s: State, action: Action, s': State, h: Handle)
    requires OnHandle(action) && Apply(s, action) == Some(s')
    ensures |s'.heap| == |s.heap| && action.handle < |s.heap|
    ensures h < |s.heap| ==> (s'.heap[h].hookOpen <==> s.heap[h].hookOpen && action != HoldCloses(h))
  {
    hide Watchdog.Disarmed;
  }

  lemma {:induction false} NoneClosedYet(actions: seq<Action>, s: State, h: Handle)
    requires Run(actions) == Some(s) && h >= |s.heap|
    ensures HoldCloses(h) !in actions
  {
    if actions != [] {
      var init, last := actions[..|actions| - 1], actions[|actions| - 1];
      var before := Run(init).value;
      HeapGrows(before, last, s);
      NoneClosedYet(init, before, h);
      assert actions == init + [last];
    }
  }

  /** Whatever answers an approval in any run says what it was decided: the reply
      allows with the input, or denies for the reason, that the one step which took
      it carries; the key is y exactly when that allows and n exactly when it
      denies. */
  lemma AnswersSayTheDecision(actions: seq<Action>, s: State, h: Handle, o: Output) returns (i: nat)
    requires Run(actions) == Some(s) && o in s.out && o.handle == h && o != HookReply(h, Pass)
    ensures DecidesAt(actions, i, h) && forall j: nat :: DecidesAt(actions, j, h) ==> j == i
    ensures var d := actions[i].decision;
      && (d.Allow? ==> o == HookReply(h, AllowReply(d.updatedInput)) || o == Keystroke(h, "y"))
      && (d.Deny? ==> o == HookReply(h, DenyReply(d.reason)) || o == Keystroke(h, "n"))
      && (o == Keystroke(h, "y") ==> d.Allow?) && (o == Keystroke(h, "n") ==> d.Deny?)
      && (o.HookReply? && o.reply.AllowReply? ==> d == Allow(o.reply.input))
      && (o.HookReply? && o.reply.DenyReply? ==> d == Deny(o.reply.reason))
    ensures o.Keystroke? <==> HoldCloses(h) in actions
  {
    RunKeepsInv(actions, s);
    OutputIsAnswer(s.out, h, o);
    AnsweredExactlyOnce(actions, s, h);
    hide Run, Answers;
    OpenUntilClosed(actions, s, h);
    i := TakenWith(actions, s, h);
  }

  lemma {:induction false} OutputIsAnswer(out: seq<Output>, h: Handle, o: Output)
    requires o in out && o.handle == h && o != HookReply(h, Pass)
    ensures o in Answers(out, h)
  {
    if o != out[|out| - 1] {
      OutputIsAnswer(out[..|out| - 1], h, o);
    }
  }

  /** Once somebody has taken a held approval with a decision: whenever, in any run
      from there, none of its own steps can run any more, it has been answered,
      once, with that decision; by the hook, unless that gave up waiting. */
  lemma DecidedEndsAnswered(actions: seq<Action>, more: seq<Action>, s: State, t: State, h: Handle)
    requires Run(actions) == Some(s) && RunFrom(s, more) == Some(t) && h < |s.heap|
    requires !NeverHeld(s.heap[h]) && Deciding(s.heap[h].resolver)
    requires forall action :: Own(action, h) ==> Apply(t, action).None?
    ensures var d, late := s.heap[h].resolver.decision, HoldCloses(h) in actions + more;
      && (d.Allow? ==>
            Answers(t.out, h) == [if late then Keystroke(h, "y") else HookReply(h, AllowReply(d.updatedInput))])
      && (d.Deny? ==> Answers(t.out, h) == [if late then Keystroke(h, "n") else HookReply(h, DenyReply(d.reason))])
  {
    OwnStepsAreBounded(actions, more, s, t, h);
    ReachesJoin(INIT, actions, s, more, t);
    hide Run, RunFrom, Apply, Answers, Rank;
    RunsUnlessAtRest(t, h);
    OpenUntilClosed(actions + more, t, h);
    AnsweredExactlyOnce(actions + more, t, h);
  }

  /** And such a run there is, of its own steps only. */
  lemma DecidedCanBeAnswered(actions: seq<Action>, s: State, h: Handle) returns (more: seq<Action>, t: State)
    requires Run(actions) == Some(s) && h < |s.heap| && !NeverHeld(s.heap[h]) && Deciding(s.heap[h].resolver)
    ensures RunFrom(s, more) == Some(t) && |more| <= 6 && forall i :: 0 <= i < |more| ==> Own(more[i], h)
    ensures var d, late := s.heap[h].resolver.decision, HoldCloses(h) in actions + more;
      && (d.Allow? ==>
            Answers(t.out, h) == [if late then Keystroke(h, "y") else HookReply(h, AllowReply(d.updatedInput))])
      && (d.Deny? ==> Answers(t.out, h) == [if late then Keystroke(h, "n") else HookReply(h, DenyReply(d.reason))])
  {
    assert Rank(s.heap[h]) <= 6;
    hide Run, RunFrom, Apply, Answers, Rank, NeverHeld, Deciding;
    more, t := CanComeToRest(s, h);
    RunsUnlessAtRest(t, h);
    DecidedEndsAnswered(actions, more, s, t, h);
  }

  // ----- the hook gets one reply

  /** What the hook of an approval is told. */
  function Replies(out: seq<Output>, h: Handle): seq<Reply> {
    if out == [] then []
    else
      var rest, o := Replies(out[..|out| - 1], h), out[|out| - 1];
      if o.HookReply? && o.handle == h then rest + [o.reply] else rest
  }

  lemma RepliesSnoc(out: seq<Output>, o: Output, h: Handle)
    ensures Replies(out + [o], h) == Replies(out, h) + (if o.HookReply? && o.handle == h then [o.reply] else [])
  {
    assert (out + [o])[..|out|] == out;
  }

  lemma {:induction false} NoReplyYet(out: seq<Output>, h: Handle)
    requires forall i :: 0 <= i < |out| ==> out[i].handle < h
    ensures Replies(out, h) == []
  {
    if out != [] {
      NoReplyYet(out[..|out| - 1], h);
    }
  }

  function RepliesOf(a: Approval): seq<Reply> {
    if a.hold.Replied? then [a.hold.reply] else []
  }

  lemma ReplyStep(s: State, action: Action, s': State, h: Handle)
    requires Inv(s) && Apply(s, action) == Some(s') && h < |s.heap| && Replies(s.out, h) == RepliesOf(s.heap[h])
    ensures h < |s'.heap| && Replies(s'.out, h) == RepliesOf(s'.heap[h])
  {
    hide Replies, Answers, Consistent, Distinct;
    if OnHandle(action) {
      OutputStep(s, action, s', h);
    } else {
      hide ApplyTo;
    }
  }

  lemma OutputStep(s: State, action: Action, s': State, h: Handle)
    requires OnHandle(action) && Apply(s, action) == Some(s') && h < |s.heap|
    requires Replies(s.out, h) == RepliesOf(s.heap[h])
    ensures h < |s'.heap| && Replies(s'.out, h) == RepliesOf(s'.heap[h])
  {
    hide Replies, Watchdog.Disarmed;
    if s'.out != s.out {
      var o := s'.out[|s.out|];
      assert s'.out == s.out + [o];
      RepliesSnoc(s.out, o, h);
    }
  }

  /** In every run the hook thread of an approval replies once, when it is done and
      not before. */
  lemma {:induction false} HookRepliesOnce(actions: seq<Action>, s: State, h: Handle)
    requires Run(actions) == Some(s) && h < |s.heap|
    ensures s.heap[h].hold.Replied? ==> Replies(s.out, h) == [s.heap[h].hold.reply]
    ensures !s.heap[h].hold.Replied? ==> Replies(s.out, h) == []
  {
    assert actions != [];
    var init, last := actions[..|actions| - 1], actions[|actions| - 1];
    var before := Run(init).value;
    RunKeepsInv(init, before);
    if h < |before.heap| {
      HookRepliesOnce(init, before, h);
      ReplyStep(before, last, s, h);
    } else {
      RunKeepsInv(actions, s);
      NewcomerIsUnanswered(before, last, s, h);
      NoReplyYet(before.out, h);
    }
  }

  lemma NewcomerIsUnanswered(s: State, action: Action, s': State, h: Handle)
    requires Inv(s) && Apply(s, action) == Some(s') && |s.heap| <= h < |s'.heap|
    ensures s'.out == s.out && !s'.heap[h].hold.Replied?
    ensures forall i :: 0 <= i < |s.out| ==> s.out[i].handle < h
  {
    hide Answers, Consistent, Distinct, Watchdog.Disarmed;
  }

  // ----- withdrawals

  /** Step i of the run takes the approval back. */
  ghost predicate TakesBackAt(actions: seq<Action>, i: nat, h: Handle) {
    i < |actions| && Run(actions[..i]).Some? && TakesBack(Run(actions[..i]).value, actions[i], h)
  }

  predicate TakesBack(s: State, action: Action, h: Handle) {
    action.TakeBack? && Inbox(s, action.id) && s.pending[action.id] == h
  }

  predicate Retracting(r: Resolver) {
    r.Withdrawing? || r.WithdrawDisarmed? || r.WithdrawDone?
  }

  lemma RetractingStep(s: State, action: Action, s': State, h: Handle)
    requires Inv(s) && Apply(s, action) == Some(s') && h < |s.heap|
    ensures h < |s'.heap|
    ensures TakesBack(s, action, h) || Retracting(s.heap[h].resolver) ==> Retracting(s'.heap[h].resolver)
  {
    if OnHandle(action) {
      OwnStepRetracts(s, action, s', h);
    } else {
      hide Answers, Consistent, Distinct, ApplyTo, Armed, RemindedAll;
    }
  }

  lemma OwnStepRetracts(s: State, action: Action, s': State, h: Handle)
    requires OnHandle(action) && Apply(s, action) == Some(s') && h < |s.heap|
    ensures h < |s'.heap| && (Retracting(s.heap[h].resolver) ==> Retracting(s'.heap[h].resolver))
  {
    hide Watchdog.Disarmed;
  }

  lemma {:induction false} TakenBackRetracts(actions: seq<Action>, i: nat, s: State, h: Handle)
    requires Run(actions) == Some(s) && TakesBackAt(actions, i, h)
    ensures h < |s.heap| && Retracting(s.heap[h].resolver)
    decreases |actions|
  {
    var init, last := actions[..|actions| - 1], actions[|actions| - 1];
    var before := Run(init).value;
    RunKeepsInv(init, before);
    if i < |init| {
      assert init[..i] == actions[..i];
      TakenBackRetracts(init, i, before, h);
    }
    RetractingStep(before, last, s, h);
  }

  /** An approval taken back is withdrawn once none of its own steps can run, and is
      never answered. */
  lemma TakenBackEndsWithdrawn(actions: seq<Action>, i: nat, s: State, h: Handle)
    requires Run(actions) == Some(s) && TakesBackAt(actions, i, h)
    ensures h < |s.heap| && s.heap[h].decision.None? && Answers(s.out, h) == []
    ensures (forall action :: Own(action, h) ==> Apply(s, action).None?) ==> s.heap[h].withdrawn
  {
    TakenBackRetracts(actions, i, s, h);
    hide Run, Apply, Answers;
    RunKeepsInv(actions, s);
    AnsweredExactlyOnce(actions, s, h);
    RunsUnlessAtRest(s, h);
  }

  /** What the daemon can do when: take, take back or remind of what is in the inbox, put
      there what is being asked; ask, end a session and look at the clock at any time. */
  lemma StepsCanRun(s: State, id: Id, session: Session, held: bool, d: Decision, after: Time, now: Time)
    ensures Apply(s, Arm(id, now)).Some? && Apply(s, Unregister(session)).Some? && Apply(s, Tick(after, now)).Some?
    ensures Apply(s, Insert(id, session, held)).Some? <==> id in s.asking
    ensures Apply(s, Take(id, d)).Some? <==> Inbox(s, id)
    ensures Apply(s, TakeBack(id)).Some? <==> Inbox(s, id)
    ensures Apply(s, Remind(id)).Some? <==> Inbox(s, id)
  {
  }

  /** A look at the clock counts a reminder on exactly the watches whose time it is. */
  lemma TickIs(s: State, after: Time, now: Time, s': State)
    requires Apply(s, Tick(after, now)) == Some(s')
    ensures |s'.watches| == |s.watches| && s' == s.(watches := s'.watches)
    ensures forall i :: 0 <= i < |s.watches| ==>
      var w := s.watches[i];
      s'.watches[i] == if now - w.since >= after * (w.reminders + 1) then w.(reminders := w.reminders + 1) else w
  {
  }

  /** A reminder counts on the approval in the inbox, and nothing else. */
  lemma RemindIs(s: State, id: Id, s': State)
    requires Apply(s, Remind(id)) == Some(s')
    ensures Inbox(s, id) && |s'.heap| == |s.heap|
    ensures s'.heap[s.pending[id]] == s.heap[s.pending[id]].(reminders := s.heap[s.pending[id]].reminders + 1)
    ensures forall h :: 0 <= h < |s.heap| && h != s.pending[id] ==> s'.heap[h] == s.heap[h]
    ensures s'.pending == s.pending && s'.watches == s.watches && s'.out == s.out && s'.asking == s.asking
  {
  }

  /** A request puts a new approval in the inbox: undecided, its hook open, and waiting
      exactly if it is held. */
  lemma AskedIs(s: State, id: Id, session: Session, held: bool, s': State)
    requires Apply(s, Insert(id, session, held)) == Some(s')
    ensures |s'.heap| == |s.heap| + 1 && s.heap <= s'.heap && s'.pending == s.pending[id := |s.heap|]
    ensures var a := s'.heap[|s.heap|];
      && a.id == id && a.session == session && a.decision.None? && a.hookOpen && !a.withdrawn && a.reminders == 0
      && a.resolver == Untaken && (held ==> a.hold == Waiting) && (!held ==> a.hold == NotHeld)
    ensures s'.out == s.out && s'.watches == s.watches
  {
  }

  // ----- resolved at most once

  /** What one approval's own step can do to the rest of the daemon. */
  lemma OwnStepFacts(s: State, action: Action, s': State)
    requires OnHandle(action) && Apply(s, action) == Some(s')
    ensures action.handle < |s.heap| == |s'.heap|
    ensures s'.pending == s.pending && s'.asking == s.asking
    ensures forall k :: 0 <= k < |s.heap| ==> s'.heap[k].id == s.heap[k].id
    ensures var a := s.heap[action.handle];
            s'.watches == s.watches || (a.resolver != Untaken && s'.watches == Watchdog.Disarmed(s.watches, a.id))
  {
  }

  predicate Resolves(action: Action, id: Id) {
    (action.Take? || action.TakeBack?) && action.id == id
  }

  function Resolutions(actions: seq<Action>, id: Id): nat {
    if actions == [] then 0
    else Resolutions(actions[..|actions| - 1], id) + (if Resolves(actions[|actions| - 1], id) then 1 else 0)
  }

  function Requests(actions: seq<Action>, id: Id): nat {
    if actions == [] then 0
    else
      var last := actions[|actions| - 1];
      Requests(actions[..|actions| - 1], id) + (if last.Arm? && last.id == id then 1 else 0)
  }

  /** How one step moves an id between asked, waiting and resolved. */
  lemma RequestStep(s: State, action: Action, s': State, id: Id)
    requires Apply(s, action) == Some(s')
    ensures (if Resolves(action, id) then 1 else 0) + (if id in s'.pending then 1 else 0) + s'.asking[id]
            <= (if id in s.pending then 1 else 0) + s.asking[id] + (if action.Arm? && action.id == id then 1 else 0)
  {
    if OnHandle(action) {
      OwnStepFacts(s, action, s');
    }
  }

  /** Whatever the interleaving, an id is answered or withdrawn at most as
      often as it was asked, counting the requests still on their way in and
      the one in the inbox. */
  lemma {:induction false} RequestsCoverResolutions(actions: seq<Action>, s: State, id: Id)
    requires Run(actions) == Some(s)
    ensures Resolutions(actions, id) + (if id in s.pending then 1 else 0) + s.asking[id] <= Requests(actions, id)
  {
    if actions != [] {
      hide Apply;
      var before := Run(actions[..|actions| - 1]).value;
      RequestsCoverResolutions(actions[..|actions| - 1], before, id);
      RequestStep(before, actions[|actions| - 1], s, id);
    }
  }

  /** No approval id is asked for twice. */
  predicate Fresh(actions: seq<Action>) {
    forall i, j :: 0 <= i < j < |actions| && actions[i].Arm? && actions[j].Arm? ==> actions[i].id != actions[j].id
  }

  lemma {:induction false} FreshRequests(actions: seq<Action>, id: Id)
    requires Fresh(actions)
    ensures Requests(actions, id) <= 1
    ensures Requests(actions, id) == 1 <==> exists i :: 0 <= i < |actions| && actions[i].Arm? && actions[i].id == id
  {
    if actions != [] {
      var init := actions[..|actions| - 1];
      FreshRequests(init, id);
      assert forall i :: 0 <= i < |init| ==> init[i] == actions[i];
    }
  }

  /** With fresh ids every id is resolved at most once, and never while it is
      still in the inbox. */
  lemma ResolvedAtMostOnce(actions: seq<Action>, s: State, id: Id)
    requires Fresh(actions) && Run(actions) == Some(s)
    ensures Resolutions(actions, id) <= 1
    ensures id in s.pending ==> Resolutions(actions, id) == 0
  {
    RequestsCoverResolutions(actions, s, id);
    FreshRequests(actions, id);
  }

  /** What a resolver has settled, later steps keep. */
  predicate SettledBy(a: Approval, b: Approval) {
    && (a.decision.Some? ==> b.decision == a.decision)
    && (a.withdrawn ==> b.withdrawn && b.decision.None?)
  }

  lemma StepKeepsSettled(s: State, action: Action, s': State, h: Handle)
    requires Inv(s) && Apply(s, action) == Some(s') && h < |s.heap|
    ensures h < |s'.heap| && SettledBy(s.heap[h], s'.heap[h])
  {
    hide Answers, Distinct;
    assert Consistent(s.heap[h], h, Answers(s.out, h));
    hide Inv;
    if OnHandle(action) {
      OwnStepKeepsSettled(s, action, s', h);
    } else {
      hide ApplyTo, Consistent;
    }
  }

  lemma OwnStepKeepsSettled(s: State, action: Action, s': State, h: Handle)
    requires OnHandle(action) && Apply(s, action) == Some(s') && h < |s.heap|
    requires Consistent(s.heap[h], h, Answers(s.out, h))
    ensures h < |s'.heap| && SettledBy(s.heap[h], s'.heap[h])
  {
    hide Answers, Watchdog.Disarmed;
  }

  /** A decision is never changed, and none follows a withdrawal. */
  lemma {:induction false} SettledIsFinal(actions: seq<Action>, more: seq<Action>, s: State, t: State, h: Handle)
    requires Run(actions) == Some(s) && RunFrom(s, more) == Some(t) && h < |s.heap|
    ensures h < |t.heap| && SettledBy(s.heap[h], t.heap[h])
    decreases |more|
  {
    if more == [] {
      hide Answers, Run;
      RunKeepsInv(actions, s);
    } else {
      var mid := RunFrom(s, more[..|more| - 1]).value;
      SettledIsFinal(actions, more[..|more| - 1], s, mid, h);
      ReachesJoin(INIT, actions, s, more[..|more| - 1], mid);
      RunKeepsInv(actions + more[..|more| - 1], mid);
      StepKeepsSettled(mid, more[|more| - 1], t, h);
    }
  }
}
