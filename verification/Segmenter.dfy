/** Blocks out of shell-integration marks: one prompt, command, output, finished
    cycle after another, until the marks are too disordered to trust. */
module Segmenter {
  import opened Numbers
  import opened Wrappers
  import Osc

  type Mark = Osc.Mark

  datatype BlockKind = Prompt | Command(cmdline: Option<string>, exit: Option<int>) | Background

  datatype Confidence = Marked | Heuristic

  datatype Block = Block(kind: BlockKind, confidence: Confidence, start: nat, end: nat,
                         duration: Option<nat>, outputLine: Option<nat>)

  datatype Segmented = Pending | Closed(block: Block) | Corrupted(why: string)

  const CORRUPT_LIMIT := 3

  datatype Open = Open(isCommand: bool, start: nat, cmdline: Option<string>,
                       started: Option<nat>, outputLine: Option<nat>)

  datatype State = State(open: Option<Open>, pendingCmdline: Option<string>, disorder: nat, corrupted: bool)

  const INIT := State(None, None, 0, false)

  /** A mark, the row it was seen on and the time it was seen. */
  datatype Seen = Seen(mark: Mark, row: nat, now: nat)

  // ----- the transition

  /** The row before, but never before the first. */
  function RowBefore(row: nat): nat {
    if row == 0 then 0 else row - 1
  }

  function BlockOf(open: Open, end: nat): Block {
    var kind := if open.isCommand then Command(open.cmdline, None) else Prompt;
    Block(kind, Marked, open.start, Max(end, open.start), None, None)
  }

  function Finished(open: Open, exit: Option<int>, row: nat, now: nat): Block {
    var duration :=
      if open.started.None? then None
      else Some(if open.started.value <= now then now - open.started.value else 0);
    Block(Command(open.cmdline, exit), Marked, open.start, row, duration, open.outputLine)
  }

  predicate HasCommand(s: State) {
    s.open.Some? && s.open.value.isCommand
  }

  function Reason(why: string): string {
    "shell integration marks are out of order (" + why
    + "); falling back to heuristic blocks (Powerlevel10k/starship?)"
  }

  function Disordered(s: State, why: string): (State, Segmented) {
    var s' := State(s.open, s.pendingCmdline, s.disorder + 1, s.disorder + 1 >= CORRUPT_LIMIT);
    (s', if s'.corrupted then Corrupted(Reason(why)) else Pending)
  }

  function OnCommandLine(s: State, cmdline: string): State {
    if HasCommand(s) then
      var o := s.open.value;
      var told := Open(o.isCommand, o.start, Some(cmdline), o.started, o.outputLine);
      State(Some(told), s.pendingCmdline, s.disorder, s.corrupted)
    else State(s.open, Some(cmdline), s.disorder, s.corrupted)
  }

  function OnPromptStart(s: State, row: nat): (State, Segmented) {
    (State(Some(Open(false, row, None, None, None)), s.pendingCmdline, s.disorder, s.corrupted),
     if s.open.Some? then Closed(BlockOf(s.open.value, RowBefore(row))) else Pending)
  }

  function OnCommandStart(s: State, row: nat): (State, Segmented) {
    (State(Some(Open(true, row, s.pendingCmdline, None, None)), None, s.disorder, s.corrupted),
     if s.open.Some? && !s.open.value.isCommand then Closed(BlockOf(s.open.value, RowBefore(row))) else Pending)
  }

  function Executing(s: State, row: nat, now: nat): State
    requires s.open.Some?
  {
    var o := s.open.value;
    State(Some(Open(o.isCommand, o.start, o.cmdline, Some(now), Some(row))), s.pendingCmdline, s.disorder, s.corrupted)
  }

  function OnExecuted(s: State, row: nat, now: nat): (State, Segmented) {
    if HasCommand(s) then (Executing(s, row, now), Pending)
    else
      var d := Disordered(s, "C without a command start");
      if d.0.corrupted then d
      else
        var begun := State(Some(Open(true, row, s.pendingCmdline, None, None)), None, d.0.disorder, false);
        (Executing(begun, row, now), Pending)
  }

  function OnFinished(s: State, exit: Option<int>, row: nat, now: nat): (State, Segmented) {
    if HasCommand(s) then
      (State(None, s.pendingCmdline, s.disorder, s.corrupted), Closed(Finished(s.open.value, exit, row, now)))
    else Disordered(s, "D without a command")
  }

  function Step(s: State, seen: Seen): (State, Segmented) {
    if s.corrupted then (s, Pending)
    else
      match seen.mark
      case CommandLine(cmdline, nonce) => (OnCommandLine(s, cmdline), Pending)
      case PromptStart(params) => OnPromptStart(s, seen.row)
      case CommandStart => OnCommandStart(s, seen.row)
      case CommandExecuted => OnExecuted(s, seen.row, seen.now)
      case CommandFinished(exit) => OnFinished(s, exit, seen.row, seen.now)
      case Malformed(payload) => Disordered(s, "malformed mark: " + payload)
  }

  predicate WaitsAtPrompt(s: State) {
    !s.corrupted && s.open.Some? && (!s.open.value.isCommand || s.open.value.outputLine.None?)
  }

  // ----- the segmenter of one session

  class Segmenter {
    var open: Option<Open>
    var pendingCmdline: Option<string>
    var disorder: nat
    var corrupted: bool

    ghost function View(): State
      reads this
    {
      State(open, pendingCmdline, disorder, corrupted)
    }

    constructor ()
      ensures View() == INIT
    {
      open, pendingCmdline, disorder, corrupted := None, None, 0, false;
    }

    /** Takes whatever is open. */
    method Close(end: nat) returns (r: Segmented)
      modifies this`open
      ensures open == None
      ensures r == if old(open).Some? then Closed(BlockOf(old(open).value, end)) else Pending
    {
      r := if open.Some? then Closed(BlockOf(open.value, end)) else Pending;
      open := None;
    }

    /** Takes an open prompt; anything else stays. */
    method ClosePrompt(end: nat) returns (r: Segmented)
      modifies this`open
      ensures if old(open).Some? && !old(open).value.isCommand
        then open == None && r == Closed(BlockOf(old(open).value, end))
        else open == old(open) && r == Pending
    {
      r := Pending;
      if open.Some? && !open.value.isCommand {
        r := Closed(BlockOf(open.value, end));
        open := None;
      }
    }

    method NoteDisorder(why: string) returns (r: Option<Segmented>)
      requires !corrupted
      modifies this`disorder, this`corrupted
      ensures disorder == old(disorder) + 1 && corrupted == (disorder >= CORRUPT_LIMIT)
      ensures r == if corrupted then Some(Corrupted(Reason(why))) else None
    {
      disorder := disorder + 1;
      r := None;
      if disorder >= CORRUPT_LIMIT {
        corrupted := true;
        r := Some(Corrupted(Reason(why)));
      }
    }

    method OnMark(mark: Mark, row: nat, now: nat) returns (r: Segmented)
      modifies this
      ensures (View(), r) == Step(old(View()), Seen(mark, row, now))
    {
      hide Reason, BlockOf, Finished;
      if corrupted {
        return Pending;
      }
      match mark
      case CommandLine(cmdline, nonce) =>
        if open.Some? && open.value.isCommand {
          open := Some(open.value.(cmdline := Some(cmdline)));
        } else {
          pendingCmdline := Some(cmdline);
        }
        r := Pending;
      case PromptStart(params) =>
        r := Close(RowBefore(row));
        open := Some(Open(false, row, None, None, None));
      case CommandStart =>
        r := ClosePrompt(RowBefore(row));
        open := Some(Open(true, row, pendingCmdline, None, None));
        pendingCmdline := None;
      case CommandExecuted =>
        if !(open.Some? && open.value.isCommand) {
          var c := NoteDisorder("C without a command start");
          if c.Some? {
            return c.value;
          }
          open := Some(Open(true, row, pendingCmdline, None, None));
          pendingCmdline := None;
        }
        open := Some(open.value.(started := Some(now), outputLine := Some(row)));
        r := Pending;
      case CommandFinished(exit) =>
        if open.Some? && open.value.isCommand {
          r := Closed(Finished(open.value, exit, row, now));
          open := None;
        } else {
          var c := NoteDisorder("D without a command");
          r := if c.Some? then c.value else Pending;
        }
      case Malformed(payload) =>
        var c := NoteDisorder("malformed mark: " + payload);
        r := if c.Some? then c.value else Pending;
    }

    method AtPrompt() returns (waiting: bool)
      ensures waiting == WaitsAtPrompt(View())
    {
      waiting := !corrupted && open.Some? && (!open.value.isCommand || open.value.outputLine.None?);
    }

    /** Output on rows `first` to `last` while the shell waits at its prompt is a
        guessed background block. */
    method OnOutput(first: nat, last: nat) returns (r: Segmented)
      ensures r == if WaitsAtPrompt(View()) && first < last
        then Closed(Block(Background, Heuristic, first, last, None, None)) else Pending
    {
      var waiting := AtPrompt();
      if !waiting || last <= first {
        return Pending;
      }
      r := Closed(Block(Background, Heuristic, first, last, None, None));
    }
  }

  // ----- runs

  function RunFrom(steps: seq<Seen>): State {
    if steps == [] then INIT else Step(RunFrom(steps[..|steps| - 1]), steps[|steps| - 1]).0
  }

  /** What the segmenter hands over at each mark. */
  function Outcome(steps: seq<Seen>, i: nat): Segmented
    requires i < |steps|
  {
    Step(RunFrom(steps[..i]), steps[i]).1
  }

  predicate RowsDoNotDecrease(steps: seq<Seen>) {
    forall i, j :: 0 <= i <= j < |steps| ==> steps[i].row <= steps[j].row
  }

  /** Where things stand: the open block lies between the end of the last closed
      one and the last row. */
  predicate Placed(s: State, lastEnd: nat, lastRow: nat) {
    && lastEnd <= lastRow
    && (s.open.Some? ==>
          && lastEnd <= s.open.value.start <= lastRow
          && (s.open.value.outputLine.Some? ==> s.open.value.start <= s.open.value.outputLine.value <= lastRow))
  }

  /** A block in proper shape. */
  predicate WellShaped(b: Block) {
    && b.start <= b.end && b.confidence.Marked? && !b.kind.Background?
    && (b.outputLine.Some? ==> b.start <= b.outputLine.value <= b.end)
  }

  lemma StepPlaces(s: State, seen: Seen, lastEnd: nat, lastRow: nat) returns (end: nat)
    requires Placed(s, lastEnd, lastRow) && lastRow <= seen.row
    ensures Placed(Step(s, seen).0, end, seen.row) && lastEnd <= end
    ensures Step(s, seen).1.Closed? ==>
      var b := Step(s, seen).1.block; WellShaped(b) && lastEnd <= b.start && end == b.end
  {
    end := if Step(s, seen).1.Closed? then Step(s, seen).1.block.end else lastEnd;
  }

  /** Every block closed by a run is in shape and ends by `end`, before which
      nothing will start again. */
  lemma {:induction false} RunPlaces(steps: seq<Seen>) returns (end: nat)
    requires RowsDoNotDecrease(steps)
    ensures Placed(RunFrom(steps), end, if steps == [] then 0 else steps[|steps| - 1].row)
    ensures forall i :: 0 <= i < |steps| && Outcome(steps, i).Closed? ==>
      var b := Outcome(steps, i).block; WellShaped(b) && b.end <= end
  {
    if steps == [] {
      end := 0;
    } else {
      hide Step, WellShaped;
      var init, last := steps[..|steps| - 1], steps[|steps| - 1];
      var before := RunPlaces(init);
      end := StepPlaces(RunFrom(init), last, before, if init == [] then 0 else init[|init| - 1].row);
      forall i | 0 <= i < |steps| && Outcome(steps, i).Closed?
        ensures var b := Outcome(steps, i).block; WellShaped(b) && b.end <= end
      {
        SamePrefix(steps, i);
      }
    }
  }

  lemma SamePrefix(steps: seq<Seen>, i: nat)
    requires i < |steps|
    ensures i < |steps| - 1 ==> Outcome(steps, i) == Outcome(steps[..|steps| - 1], i)
    ensures i == |steps| - 1 ==> Outcome(steps, i) == Step(RunFrom(steps[..|steps| - 1]), steps[|steps| - 1]).1
  {
    hide Step, RunFrom;
    if i < |steps| - 1 {
      assert steps[..|steps| - 1][..i] == steps[..i];
    }
  }

  /** With rows that never decrease, each block closed by the marks starts no
      later than it ends, its output in between, and the next one starts no
      earlier than the one before it ended. */
  lemma {:induction false} BlocksAreInOrder(steps: seq<Seen>, i: nat, j: nat)
    requires RowsDoNotDecrease(steps) && i < j < |steps|
    requires Outcome(steps, i).Closed? && Outcome(steps, j).Closed?
    ensures WellShaped(Outcome(steps, i).block) && WellShaped(Outcome(steps, j).block)
    ensures Outcome(steps, i).block.end <= Outcome(steps, j).block.start
  {
    hide Step, WellShaped;
    var before := steps[..j];
    var lastRow := before[|before| - 1].row;
    var end := RunPlaces(before);
    var next := StepPlaces(RunFrom(before), steps[j], end, lastRow);
    assert before[..i] == steps[..i] && before[i] == steps[i];
    assert Outcome(before, i) == Outcome(steps, i);
  }

  // ----- disorder, told from the marks alone

  /** The marks so far leave a command open: the last of prompt, start, execution
      and end was a start or an execution. */
  predicate InCommand(steps: seq<Seen>) {
    if steps == [] then false
    else
      match steps[|steps| - 1].mark
      case CommandStart => true
      case CommandExecuted => true
      case PromptStart(_) => false
      case CommandFinished(_) => false
      case _ => InCommand(steps[..|steps| - 1])
  }

  /** A mark out of order: malformed, or an execution or an end with no command
      open. A second prompt in the middle of a command is not. */
  predicate OutOfOrder(before: seq<Seen>, mark: Mark) {
    mark.Malformed? || ((mark.CommandExecuted? || mark.CommandFinished?) && !InCommand(before))
  }

  function Disorders(steps: seq<Seen>): nat {
    if steps == [] then 0
    else
      var init := steps[..|steps| - 1];
      Disorders(init) + if OutOfOrder(init, steps[|steps| - 1].mark) then 1 else 0
  }

  lemma {:induction false} DisorderIsCounted(steps: seq<Seen>)
    ensures var s := RunFrom(steps);
      && (s.corrupted <==> Disorders(steps) >= CORRUPT_LIMIT)
      && (!s.corrupted ==> s.disorder == Disorders(steps) && (HasCommand(s) <==> InCommand(steps)))
  {
    if steps != [] {
      DisorderIsCounted(steps[..|steps| - 1]);
    }
  }

  /** Corruption is reported exactly at the third mark out of order. */
  lemma CorruptedAtTheThird(steps: seq<Seen>, i: nat)
    requires i < |steps|
    ensures Outcome(steps, i).Corrupted? <==> OutOfOrder(steps[..i], steps[i].mark) && Disorders(steps[..i]) == 2
    ensures Outcome(steps, i).Corrupted? ==>
      var what := match steps[i].mark
        case Malformed(payload) => "malformed mark: " + payload
        case CommandExecuted => "C without a command start"
        case _ => "D without a command";
      Outcome(steps, i).why == "shell integration marks are out of order (" + what
                               + "); falling back to heuristic blocks (Powerlevel10k/starship?)"
  {
    DisorderIsCounted(steps[..i]);
  }

  // ----- what the blocks say, told from the marks alone

  /** A mark that opens a command: a start, or an execution with none open. */
  predicate Opens(before: seq<Seen>, mark: Mark) {
    mark.CommandStart? || (mark.CommandExecuted? && !InCommand(before))
  }

  /** Which mark opened the command that is open. */
  function OpenedAt(steps: seq<Seen>): (i: nat)
    requires InCommand(steps)
    ensures i < |steps|
  {
    var init, mark := steps[..|steps| - 1], steps[|steps| - 1].mark;
    if Opens(init, mark) then |init| else OpenedAt(init)
  }

  /** Which execution was the last of it, if any. */
  function RanAt(steps: seq<Seen>): (i: Option<nat>)
    requires InCommand(steps)
    ensures i.Some? ==> i.value < |steps|
  {
    var init, mark := steps[..|steps| - 1], steps[|steps| - 1].mark;
    if mark.CommandExecuted? then Some(|init|) else if mark.CommandStart? then None else RanAt(init)
  }

  /** The command line last reported while no command was open, and that no command
      has taken since. */
  function Waiting(steps: seq<Seen>): Option<string> {
    if steps == [] then None
    else
      var init, mark := steps[..|steps| - 1], steps[|steps| - 1].mark;
      if mark.CommandLine? && !InCommand(init) then Some(mark.cmdline)
      else if Opens(init, mark) then None
      else Waiting(init)
  }

  /** The command line of the command that is open: the last reported within it, or
      else the one that waited for it. */
  function LineOf(steps: seq<Seen>): Option<string>
    requires InCommand(steps)
  {
    var init, mark := steps[..|steps| - 1], steps[|steps| - 1].mark;
    if mark.CommandLine? then Some(mark.cmdline)
    else if Opens(init, mark) then Waiting(init)
    else LineOf(init)
  }

  /** The marks so far leave a prompt open. */
  predicate InPrompt(steps: seq<Seen>) {
    if steps == [] then false
    else
      match steps[|steps| - 1].mark
      case PromptStart(_) => true
      case CommandLine(_, _) => InPrompt(steps[..|steps| - 1])
      case Malformed(_) => InPrompt(steps[..|steps| - 1])
      case CommandFinished(_) => InPrompt(steps[..|steps| - 1])
      case _ => false
  }

  function PromptAt(steps: seq<Seen>): (i: nat)
    requires InPrompt(steps)
    ensures i < |steps|
  {
    if steps[|steps| - 1].mark.PromptStart? then |steps| - 1 else PromptAt(steps[..|steps| - 1])
  }

  lemma {:induction false} PromptOrCommand(steps: seq<Seen>)
    ensures !(InPrompt(steps) && InCommand(steps))
  {
    if steps != [] {
      PromptOrCommand(steps[..|steps| - 1]);
    }
  }

  /** The state of a run not yet corrupted, told from its marks. */
  lemma {:induction false} StateTells(steps: seq<Seen>)
    requires Disorders(steps) < CORRUPT_LIMIT
    ensures var s := RunFrom(steps);
      && !s.corrupted && s.pendingCmdline == Waiting(steps)
      && (InCommand(steps) ==>
            var ran := RanAt(steps);
            s.open == Some(Open(true, steps[OpenedAt(steps)].row, LineOf(steps),
                                if ran.Some? then Some(steps[ran.value].now) else None,
                                if ran.Some? then Some(steps[ran.value].row) else None)))
      && (InPrompt(steps) ==> s.open == Some(Open(false, steps[PromptAt(steps)].row, None, None, None)))
      && (!InCommand(steps) && !InPrompt(steps) ==> s.open.None?)
  {
    if steps != [] {
      var init := steps[..|steps| - 1];
      DisordersGrow(steps, |init|);
      StateTells(init);
      DisorderIsCounted(steps);
      PromptOrCommand(steps);
      PromptOrCommand(init);
    }
  }

  /** Which marks close a block, and what is in it: a command's line, the rows of its
      opening, of its output and of its end, its exit status and how long it ran; of
      a prompt, or a command a prompt cut short, the rows. */
  lemma BlocksTellTheMarks(steps: seq<Seen>, i: nat)
    requires i < |steps| && Disorders(steps[..i]) < CORRUPT_LIMIT
    ensures var before, mark := steps[..i], steps[i].mark;
      Outcome(steps, i).Closed? <==>
        || (mark.PromptStart? && (InCommand(before) || InPrompt(before)))
        || (mark.CommandStart? && InPrompt(before))
        || (mark.CommandFinished? && InCommand(before))
    ensures var before, mark, row := steps[..i], steps[i].mark, steps[i].row;
      Outcome(steps, i).Closed? ==>
        var b := Outcome(steps, i).block;
        var above: int := row - 1;
        if InPrompt(before) then
          var start := steps[PromptAt(before)].row;
          b == Block(Prompt, Marked, start, if start <= above then above else start, None, None)
        else
          var start := steps[OpenedAt(before)].row;
          if mark.PromptStart? then
            b == Block(Command(LineOf(before), None), Marked,
                       start, if start <= above then above else start, None, None)
          else
            && b.kind == Command(LineOf(before), mark.exit) && b.confidence.Marked? && b.start == start && b.end == row
            && (RanAt(before).None? ==> b.duration.None? && b.outputLine.None?)
            && (RanAt(before).Some? ==>
                  var ran := steps[RanAt(before).value];
                  && b.outputLine == Some(ran.row)
                  && (ran.now <= steps[i].now ==> b.duration == Some(steps[i].now - ran.now)))
  {
    var before := steps[..i];
    StateTells(before);
    PromptOrCommand(before);
    if InPrompt(before) {
      assert before[PromptAt(before)] == steps[PromptAt(before)];
    }
    if InCommand(before) {
      assert before[OpenedAt(before)] == steps[OpenedAt(before)];
      assert RanAt(before).Some? ==> before[RanAt(before).value] == steps[RanAt(before).value];
    }
    hide InPrompt, InCommand, OpenedAt, RanAt, LineOf, PromptAt, RunFrom;
  }

  /** The shell waits at its prompt exactly when a prompt is open, or a command that
      has not begun to run. */
  lemma WaitsBetweenPromptAndExecution(steps: seq<Seen>)
    ensures WaitsAtPrompt(RunFrom(steps)) <==>
      && Disorders(steps) < CORRUPT_LIMIT
      && (InPrompt(steps) || (InCommand(steps) && RanAt(steps).None?))
  {
    DisorderIsCounted(steps);
    PromptOrCommand(steps);
    if Disorders(steps) < CORRUPT_LIMIT {
      StateTells(steps);
    }
  }

  lemma {:induction false} DisordersGrow(steps: seq<Seen>, i: nat)
    requires i <= |steps|
    ensures Disorders(steps[..i]) <= Disorders(steps)
    decreases |steps|
  {
    if i < |steps| {
      DisordersGrow(steps[..|steps| - 1], i);
      assert steps[..|steps| - 1][..i] == steps[..i];
    } else {
      assert steps[..i] == steps;
    }
  }

  /** It is reported once, and from then on nothing is handed over. */
  lemma SilentOnceCorrupted(steps: seq<Seen>, i: nat, j: nat)
    requires i < j < |steps| && Outcome(steps, i).Corrupted?
    ensures Outcome(steps, j).Pending?
  {
    CorruptedAtTheThird(steps, i);
    assert steps[..i + 1][..i] == steps[..i] && steps[..i + 1][i] == steps[i];
    assert Disorders(steps[..i + 1]) == 3;
    DisordersGrow(steps[..j], i + 1);
    assert steps[..j][..i + 1] == steps[..i + 1];
    DisorderIsCounted(steps[..j]);
  }

  // ----- where this is not what is documented

  /** The marks so far leave a command running. */
  predicate Running(steps: seq<Seen>) {
    InCommand(steps) && RanAt(steps).Some?
  }

  /** Out of order as documented: an end without an execution and a prompt in the
      middle of a command, too. */
  predicate DocumentedDisorder(before: seq<Seen>, mark: Mark) {
    || mark.Malformed?
    || (mark.CommandExecuted? && !InCommand(before))
    || (mark.CommandFinished? && !Running(before))
    || (mark.PromptStart? && InCommand(before))
  }

  /** What is counted is documented as disorder, and all of that is counted but for
      a prompt while a command is open and an end of one that has not begun to run:
      either closes the command. */
  lemma CountedExactlyUnlessItCloses(steps: seq<Seen>, seen: Seen)
    requires Disorders(steps) < CORRUPT_LIMIT
    ensures var mark := seen.mark;
      var closes := InCommand(steps) && (mark.PromptStart? || (mark.CommandFinished? && !Running(steps)));
      && (OutOfOrder(steps, seen.mark) <==> DocumentedDisorder(steps, seen.mark) && !closes)
      && (closes ==> Outcome(steps + [seen], |steps|).Closed? && DocumentedDisorder(steps, seen.mark)
                     && Disorders(steps + [seen]) == Disorders(steps))
  {
    DisorderIsCounted(steps);
    assert (steps + [seen])[..|steps|] == steps;
  }

  /** A second prompt in the middle of a command is no disorder. */
  lemma PromptClosesCommand(steps: seq<Seen>, seen: Seen)
    requires InCommand(steps) && Disorders(steps) < CORRUPT_LIMIT && seen.mark.PromptStart?
    ensures DocumentedDisorder(steps, seen.mark) && Outcome(steps + [seen], |steps|).Closed?
    ensures Disorders(steps + [seen]) == Disorders(steps)
  {
    CountedExactlyUnlessItCloses(steps, seen);
  }

  /** Nor is an end right after a start, with no execution between. */
  lemma EndClosesUnexecutedCommand(steps: seq<Seen>, seen: Seen)
    requires steps != [] && steps[|steps| - 1].mark.CommandStart?
    requires Disorders(steps) < CORRUPT_LIMIT && seen.mark.CommandFinished?
    ensures DocumentedDisorder(steps, seen.mark) && Outcome(steps + [seen], |steps|).Closed?
    ensures Disorders(steps + [seen]) == Disorders(steps)
  {
    CountedExactlyUnlessItCloses(steps, seen);
  }
}
