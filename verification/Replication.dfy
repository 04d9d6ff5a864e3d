/** A session, its flush loop, and one viewer that attaches to it.

    A run interleaves what the session loop does with the two separate steps
    of an attach: the snapshot is taken first, the subscription made after.
    What is flushed in between reaches nobody. */
module Replication {
  import opened Wire
  import opened Viewer
  import opened Wrappers

  // ----- damage between two flushes

  /** One damaged line joins the damage already known. */
  function MergeLine(acc: seq<LineDamage>, l: LineDamage): seq<LineDamage> {
    if acc == [] then [l]
    else if acc[0].row == l.row then
      [LineDamage(l.row, if l.left < acc[0].left then l.left else acc[0].left,
                  if l.right > acc[0].right then l.right else acc[0].right)] + acc[1..]
    else [acc[0]] + MergeLine(acc[1..], l)
  }

  function MergeLines(acc: seq<LineDamage>, more: seq<LineDamage>): seq<LineDamage>
    decreases |more|
  {
    if more == [] then acc else MergeLines(MergeLine(acc, more[0]), more[1..])
  }

  function Merge(pending: Damage, now: Damage): Damage {
    if pending.Full? || now.Full? then Full else Lines(MergeLines(pending.lines, now.lines))
  }

  /** Rows a damage set names. */
  function RowSet(lines: seq<LineDamage>): set<Half> {
    set l | l in lines :: l.row
  }

  function OneRowEach(lines: seq<LineDamage>): bool {
    forall i, j :: 0 <= i < j < |lines| ==> lines[i].row != lines[j].row
  }

  lemma RowSetCons(l: LineDamage, rest: seq<LineDamage>)
    ensures RowSet([l] + rest) == {l.row} + RowSet(rest)
    ensures OneRowEach([l] + rest) <==> OneRowEach(rest) && l.row !in RowSet(rest)
  {
    var all := [l] + rest;
    assert forall i :: 0 <= i < |rest| ==> all[i + 1] == rest[i];
    if OneRowEach(all) {
      forall i | 0 <= i < |rest| ensures rest[i].row != l.row {
        assert all[0] == l && all[i + 1] == rest[i];
      }
    }
    if OneRowEach(rest) && l.row !in RowSet(rest) {
      forall i | 0 <= i < |rest| ensures rest[i].row != l.row {
        assert rest[i].row in RowSet(rest);
      }
    }
  }

  lemma {:induction false} MergeLineRows(acc: seq<LineDamage>, l: LineDamage)
    ensures RowSet(MergeLine(acc, l)) == RowSet(acc) + {l.row}
    ensures OneRowEach(acc) ==> OneRowEach(MergeLine(acc, l))
    decreases |acc|
  {
    if acc != [] {
      var rest, m := MergeLine(acc[1..], l), MergeLine(acc, l);
      hide RowSet, OneRowEach;
      MergeLineRows(acc[1..], l);
      assert acc == [acc[0]] + acc[1..];
      RowSetCons(acc[0], acc[1..]);
      RowSetCons(acc[0], rest);
      assert m == [m[0]] + m[1..];
      RowSetCons(m[0], m[1..]);
    }
  }

  /** Merging loses no damaged row and names none twice. */
  lemma {:induction false} MergeRows(acc: seq<LineDamage>, more: seq<LineDamage>)
    ensures RowSet(MergeLines(acc, more)) == RowSet(acc) + RowSet(more)
    ensures OneRowEach(acc) ==> OneRowEach(MergeLines(acc, more))
    decreases |more|
  {
    if more != [] {
      MergeLineRows(acc, more[0]);
      MergeRows(MergeLine(acc, more[0]), more[1..]);
      assert more == [more[0]] + more[1..];
      assert RowSet(more) == {more[0].row} + RowSet(more[1..]);
    }
  }

  /** Some line of the row spans at least these columns. */
  ghost predicate Spans(lines: seq<LineDamage>, l: LineDamage) {
    exists m :: m in lines && m.row == l.row && m.left <= l.left && l.right <= m.right
  }

  /** And no line reaches further than lines there were. */
  ghost predicate Reached(lines: seq<LineDamage>, m: LineDamage) {
    && (exists l :: l in lines && l.row == m.row && l.left == m.left)
    && (exists l :: l in lines && l.row == m.row && l.right == m.right)
  }

  lemma {:induction false} MergeLineSpans(acc: seq<LineDamage>, l: LineDamage)
    ensures Spans(MergeLine(acc, l), l) && forall k :: k in acc ==> Spans(MergeLine(acc, l), k)
    ensures forall m :: m in MergeLine(acc, l) ==> Reached(acc + [l], m)
    decreases |acc|
  {
    var m := MergeLine(acc, l);
    if acc == [] {
      assert l in m && l in acc + [l];
    } else if acc[0].row == l.row {
      assert m[0] in m && acc == [acc[0]] + acc[1..];
      assert acc[0] in acc + [l] && l in acc + [l];
      forall k | k in acc ensures Spans(m, k) {
        assert k == acc[0] || k in m;
      }
      forall k | k in m ensures Reached(acc + [l], k) {
        assert k == m[0] || k in acc + [l];
      }
    } else {
      var rest := MergeLine(acc[1..], l);
      MergeLineSpans(acc[1..], l);
      assert acc == [acc[0]] + acc[1..] && m == [acc[0]] + rest;
      SpansMore([acc[0]], rest, l);
      forall k | k in acc ensures Spans(m, k) {
        if k == acc[0] {
          assert k in m;
        } else {
          SpansMore([acc[0]], rest, k);
        }
      }
      forall k | k in m ensures Reached(acc + [l], k) {
        if k in rest {
          ReachedMore([acc[0]], acc[1..] + [l], k);
          assert [acc[0]] + (acc[1..] + [l]) == acc + [l];
        } else {
          assert k in acc + [l];
        }
      }
    }
  }

  lemma SpansMore(first: seq<LineDamage>, rest: seq<LineDamage>, l: LineDamage)
    requires Spans(rest, l)
    ensures Spans(first + rest, l)
  {
    var m :| m in rest && m.row == l.row && m.left <= l.left && l.right <= m.right;
    assert m in first + rest;
  }

  lemma ReachedMore(first: seq<LineDamage>, rest: seq<LineDamage>, m: LineDamage)
    requires Reached(rest, m)
    ensures Reached(first + rest, m)
  {
    var l :| l in rest && l.row == m.row && l.left == m.left;
    var r :| r in rest && r.row == m.row && r.right == m.right;
    assert l in first + rest && r in first + rest;
  }

  lemma SpansOn(lines: seq<LineDamage>, m: LineDamage, l: LineDamage)
    requires Spans(lines, m) && m.row == l.row && m.left <= l.left && l.right <= m.right
    ensures Spans(lines, l)
  {
  }

  lemma ReachedOn(lines: seq<LineDamage>, mid: seq<LineDamage>, m: LineDamage)
    requires Reached(mid, m) && forall k :: k in mid ==> Reached(lines, k)
    ensures Reached(lines, m)
  {
    var l :| l in mid && l.row == m.row && l.left == m.left;
    var r :| r in mid && r.row == m.row && r.right == m.right;
    assert Reached(lines, l) && Reached(lines, r);
  }

  /** Merged damage spans all columns either had, and reaches no further. */
  lemma {:induction false} MergeSpans(acc: seq<LineDamage>, more: seq<LineDamage>)
    ensures forall l :: l in acc || l in more ==> Spans(MergeLines(acc, more), l)
    ensures forall m :: m in MergeLines(acc, more) ==> Reached(acc + more, m)
    decreases |more|
  {
    hide Spans, Reached;
    var merged := MergeLines(acc, more);
    if more == [] {
      forall l | l in acc ensures Spans(merged, l) && Reached(acc + more, l) {
        ItSpans(acc, l);
        assert acc + more == acc;
      }
    } else {
      var next := MergeLine(acc, more[0]);
      MergeLineSpans(acc, more[0]);
      MergeSpans(next, more[1..]);
      assert more == [more[0]] + more[1..];
      forall l | l in acc || l in more ensures Spans(merged, l) {
        if l !in more[1..] {
          SpansThrough(next, merged, l);
        }
      }
      forall m | m in merged ensures Reached(acc + more, m) {
        forall k | k in next + more[1..] ensures Reached(acc + more, k) {
          if k in next {
            ReachedBefore(acc + [more[0]], more[1..], k);
            assert acc + [more[0]] + more[1..] == acc + more;
          } else {
            ItSpans(acc + more, k);
          }
        }
        ReachedOn(acc + more, next + more[1..], m);
      }
    }
  }

  lemma ItSpans(lines: seq<LineDamage>, l: LineDamage)
    requires l in lines
    ensures Spans(lines, l) && Reached(lines, l)
  {
  }

  lemma ReachedBefore(first: seq<LineDamage>, rest: seq<LineDamage>, m: LineDamage)
    requires Reached(first, m)
    ensures Reached(first + rest, m)
  {
    var l :| l in first && l.row == m.row && l.left == m.left;
    var r :| r in first && r.row == m.row && r.right == m.right;
    assert l in first + rest && r in first + rest;
  }

  lemma SpansThrough(mid: seq<LineDamage>, lines: seq<LineDamage>, l: LineDamage)
    requires Spans(mid, l) && forall k :: k in mid ==> Spans(lines, k)
    ensures Spans(lines, l)
  {
    var m :| m in mid && m.row == l.row && m.left <= l.left && l.right <= m.right;
    SpansOn(lines, m, l);
  }

  // ----- the session and one attaching viewer

  datatype Session = Session(snap: Snapshot, pending: Damage, number: nat)

  /** What the viewer may show wrongly: everything, or some rows. */
  datatype Owed = Owed(all: bool, rows: set<Half>)

  const NOTHING := Owed(false, {})

  /** The attach, with a log nobody reads: the snapshot each delta was made of,
      and what flushes the viewer never saw still owe it. */
  datatype Link =
    | Detached
    | Snapped(reply: Delta, at: Snapshot, owed: Owed)
    | Attached(reply: Delta, at: Snapshot, owed: Owed, sent: seq<Delta>, shown: seq<Snapshot>, owedThen: seq<Owed>)

  datatype State = State(session: Session, link: Link)

  datatype Action =
    | Output(snap: Snapshot, damage: Damage)
    | Redraw(snap: Snapshot)
    | Flush
    | TakeSnapshot
    | Subscribe

  /** Damage the core reports covers every row it changed; a change of size, or
      of anything not in a row, comes with some damage. */
  ghost predicate Covers(was: Snapshot, damage: Damage, now: Snapshot)
    requires Shaped(was) && Shaped(now)
  {
    damage.Full? ||
    (&& was.cols == now.cols && was.rows == now.rows
     && (damage.lines == [] ==> was == now)
     && forall r :: 0 <= r < now.rows && r !in RowSet(damage.lines) ==>
          Row(was.cells, now.rows, now.cols, r) == Row(now.cells, now.rows, now.cols, r))
  }

  predicate Clean(d: Damage) {
    d == Lines([])
  }

  /** What a flush the viewer does not get leaves it owed. */
  function Missed(owed: Owed, damage: Damage): Owed {
    if damage.Full? then Owed(true, {}) else owed.(rows := owed.rows + RowSet(damage.lines))
  }

  function AllRows(snap: Snapshot): set<Half> {
    set r | r in Upto(snap.rows)
  }

  /** What a flush the viewer gets still leaves it owed. */
  function Repaid(owed: Owed, damage: Damage, snap: Snapshot): Owed {
    if damage.Full? then NOTHING
    else Owed(false, (if owed.all then AllRows(snap) else owed.rows) - RowSet(damage.lines))
  }

  /** A flush reaches the viewer only once it is subscribed. */
  function Notified(link: Link, session: Session, delta: Delta): Link {
    match link
    case Detached => link
    case Snapped(reply, at, owed) => Snapped(reply, at, Missed(owed, session.pending))
    case Attached(reply, at, owed, sent, shown, owedThen) =>
      var left := Repaid(owed, session.pending, session.snap);
      Attached(reply, at, left, sent + [delta], shown + [session.snap], owedThen + [left])
  }

  const ID := "session"

  ghost function Apply(s: State, action: Action): Option<State>
    requires Shaped(s.session.snap)
  {
    var session := s.session;
    match action
    case Output(snap, damage) =>
      if !Shaped(snap) || !Covers(session.snap, damage, snap) then None
      else Some(s.(session := session.(snap := snap, pending := Merge(session.pending, damage))))
    case Redraw(snap) =>
      if !Shaped(snap) then None else Some(s.(session := session.(snap := snap, pending := Full)))
    case Flush =>
      if Clean(session.pending) then None
      else
        var n := session.number + 1;
        var delta := DeltaOf(ID, session.snap, session.pending, n);
        var next := s.(session := session.(pending := Lines([]), number := n));
        Some(next.(link := Notified(s.link, session, delta)))
    case TakeSnapshot =>
      if !s.link.Detached? then None
      else Some(s.(link := Snapped(FullDelta(ID, session.snap, 0), session.snap, NOTHING)))
    case Subscribe =>
      match s.link
      case Snapped(reply, at, owed) => Some(s.(link := Attached(reply, at, owed, [], [], [])))
      case _ => None
  }

  function Start(snap: Snapshot): State {
    State(Session(snap, Lines([]), 0), Detached)
  }

  ghost function Run(snap: Snapshot, actions: seq<Action>): (s: Option<State>)
    requires Shaped(snap)
    ensures s.Some? ==> Shaped(s.value.session.snap)
  {
    if actions == [] then Some(Start(snap))
    else
      var before := Run(snap, actions[..|actions| - 1]);
      if before.None? then None else Apply(before.value, actions[|actions| - 1])
  }

  /** The session's snapshot is the one last drawn. */
  function LastDrawn(snap: Snapshot, actions: seq<Action>): Snapshot {
    if actions == [] then snap
    else
      match actions[|actions| - 1]
      case Output(drawn, _) => drawn
      case Redraw(drawn) => drawn
      case _ => LastDrawn(snap, actions[..|actions| - 1])
  }

  lemma {:induction false} SessionIsLastDrawn(snap: Snapshot, actions: seq<Action>, s: State)
    requires Shaped(snap) && Run(snap, actions) == Some(s)
    ensures s.session.snap == LastDrawn(snap, actions)
  {
    if actions != [] {
      SessionIsLastDrawn(snap, actions[..|actions| - 1], Run(snap, actions[..|actions| - 1]).value);
    }
  }

  /** What can be done when: output that its damage covers and a redraw at any time, a
      flush when there is damage, an attach in its two steps, once. */
  lemma StepsCanRun(s: State, snap: Snapshot, damage: Damage)
    requires Shaped(s.session.snap)
    ensures Apply(s, Output(snap, damage)).Some? <==> Shaped(snap) && Covers(s.session.snap, damage, snap)
    ensures Apply(s, Redraw(snap)).Some? <==> Shaped(snap)
    ensures Apply(s, Flush).Some? <==> s.session.pending != Lines([])
    ensures Apply(s, TakeSnapshot).Some? <==> s.link.Detached?
    ensures Apply(s, Subscribe).Some? <==> s.link.Snapped?
  {
    hide Covers, DeltaOf, FullDelta;
  }

  // ----- what the viewer sees

  /** The picture after the reply and the deltas it received. */
  function Watched(reply: Delta, received: seq<Delta>): (p: Picture)
    ensures Framed(p)
  {
    if received == [] then Applied(EMPTY, reply)
    else Applied(Watched(reply, received[..|received| - 1]), received[|received| - 1])
  }

  /** `p` shows the snapshot, except perhaps in some rows. */
  ghost predicate Shows(p: Picture, snap: Snapshot, n: nat, except: set<Half>)
    requires Framed(p) && Shaped(snap)
  {
    && p.(cells := []) == Shown(snap, n).(cells := [])
    && SameRows(p, snap, except)
  }

  ghost predicate SameRows(p: Picture, snap: Snapshot, except: set<Half>)
    requires Framed(p) && Shaped(snap)
  {
    && p.cols == snap.cols && p.rows == snap.rows
    && forall r :: 0 <= r < snap.rows && r !in except ==>
         Row(p.cells, snap.rows, snap.cols, r) == Row(ShownCells(snap.cells), snap.rows, snap.cols, r)
  }

  /** Showing everything is showing the snapshot. */
  lemma ShowsAll(p: Picture, snap: Snapshot, n: nat)
    requires Framed(p) && Shaped(snap)
    ensures Shows(p, snap, n, {}) <==> p == Shown(snap, n)
  {
    if Shows(p, snap, n, {}) {
      RowsDetermine(p.cells, ShownCells(snap.cells), snap.rows, snap.cols);
    }
  }

  /** Outside the pending damage and what it is owed, the viewer is up to date
      once it has received everything sent. */
  ghost predicate InSync(p: Picture, session: Session, owed: Owed)
    requires Framed(p) && Shaped(session.snap)
  {
    owed.all || session.pending.Full? || SameRows(p, session.snap, RowSet(session.pending.lines) + owed.rows)
  }

  /** What has been sent was right when it was sent, up to what was owed. */
  ghost predicate LogHolds(reply: Delta, sent: seq<Delta>, shown: seq<Snapshot>, owedThen: seq<Owed>) {
    && |sent| == |shown| == |owedThen|
    && forall k :: 0 <= k < |sent| ==> EntryHolds(reply, sent[..k + 1], shown[k], sent[k].number, owedThen[k])
  }

  ghost predicate EntryHolds(reply: Delta, received: seq<Delta>, snap: Snapshot, n: nat, owed: Owed) {
    Shaped(snap) && Shows(Watched(reply, received), snap, n, owed.rows)
  }

  ghost predicate Inv(s: State) {
    && Shaped(s.session.snap)
    && match s.link
       case Detached => true
       case Snapped(reply, at, owed) =>
         Shaped(at) && reply == FullDelta(ID, at, 0) && InSync(Watched(reply, []), s.session, owed)
       case Attached(reply, at, owed, sent, shown, owedThen) =>
         && Shaped(at) && reply == FullDelta(ID, at, 0)
         && InSync(Watched(reply, sent), s.session, owed)
         && LogHolds(reply, sent, shown, owedThen)
  }

  lemma OutputKeepsSync(p: Picture, session: Session, owed: Owed, snap: Snapshot, damage: Damage)
    requires Framed(p) && Shaped(session.snap) && Shaped(snap) && Covers(session.snap, damage, snap)
    requires InSync(p, session, owed)
    ensures InSync(p, session.(snap := snap, pending := Merge(session.pending, damage)), owed)
  {
    if !owed.all && session.pending.Lines? && damage.Lines? {
      MergeRows(session.pending.lines, damage.lines);
      forall r | 0 <= r < snap.rows && r !in RowSet(session.pending.lines) + RowSet(damage.lines) + owed.rows
        ensures Row(p.cells, snap.rows, snap.cols, r) == Row(ShownCells(snap.cells), snap.rows, snap.cols, r)
      {
        ShownRow(session.snap, r);
        ShownRow(snap, r);
      }
    }
  }

  lemma ShownRow(snap: Snapshot, r: Half)
    requires Shaped(snap) && r < snap.rows
    ensures Row(ShownCells(snap.cells), snap.rows, snap.cols, r) == ShownCells(Row(snap.cells, snap.rows, snap.cols, r))
  {
    RowFits(r, snap.rows, snap.cols);
  }

  lemma RowsOfLines(lines: seq<LineDamage>, r: Half)
    ensures r in DamagedRows(lines) <==> r in RowSet(lines)
  {
    if r in RowSet(lines) {
      var l :| l in lines && l.row == r;
      var i :| 0 <= i < |lines| && lines[i] == l;
      assert DamagedRows(lines)[i] == r;
    }
    if r in DamagedRows(lines) {
      var i :| 0 <= i < |lines| && DamagedRows(lines)[i] == r;
      assert lines[i] in lines;
    }
  }

  /** A flush the viewer receives shows the snapshot up to what is still owed. */
  lemma FlushShows(p: Picture, session: Session, owed: Owed, n: nat)
    requires Framed(p) && Shaped(session.snap) && InSync(p, session, owed)
    ensures Shows(Applied(p, DeltaOf(ID, session.snap, session.pending, n)), session.snap, n,
                  Repaid(owed, session.pending, session.snap).rows)
  {
    var snap := session.snap;
    var d := DeltaOf(ID, snap, session.pending, n);
    match session.pending
    case Full => FullDeltaShows(p, ID, snap, n);
    case Lines(lines) =>
      forall r | 0 <= r < snap.rows && r !in Repaid(owed, session.pending, snap).rows
        ensures Row(Applied(p, d).cells, snap.rows, snap.cols, r) ==
          Row(ShownCells(snap.cells), snap.rows, snap.cols, r)
      {
        LinesDeltaShows(p, ID, snap, lines, n, r);
        RowsOfLines(lines, r);
        assert Upto(snap.rows)[r] == r;
      }
  }

  /** A flush it does not receive leaves its rows owed. */
  lemma MissedFlushOwes(p: Picture, session: Session, owed: Owed, n: nat)
    requires Framed(p) && Shaped(session.snap) && InSync(p, session, owed)
    ensures InSync(p, session.(pending := Lines([]), number := n), Missed(owed, session.pending))
  {
  }

  lemma LogGrows(reply: Delta, sent: seq<Delta>, shown: seq<Snapshot>, owedThen: seq<Owed>, d: Delta, snap: Snapshot,
      owed: Owed)
    requires LogHolds(reply, sent, shown, owedThen) && Shaped(snap)
    requires Shows(Applied(Watched(reply, sent), d), snap, d.number, owed.rows)
    ensures Watched(reply, sent + [d]) == Applied(Watched(reply, sent), d)
    ensures LogHolds(reply, sent + [d], shown + [snap], owedThen + [owed])
  {
    hide Applied, Shows;
    var all := sent + [d];
    assert all[..|sent|] == sent && all[..|all|] == all;
    assert EntryHolds(reply, all, snap, d.number, owed);
    hide EntryHolds, Watched;
    forall k | 0 <= k < |sent|
      ensures EntryHolds(reply, all[..k + 1], shown[k], sent[k].number, owedThen[k])
    {
      assert all[..k + 1] == sent[..k + 1];
    }
  }

  lemma FlushKeepsInv(s: State, s': State)
    requires Inv(s) && Apply(s, Flush) == Some(s')
    ensures Inv(s')
  {
    hide Applied, Shows, InSync, Repaid, DeltaOf, Watched, LogHolds;
    var session := s.session;
    var n := session.number + 1;
    match s.link
    case Detached =>
    case Snapped(reply, at, owed) =>
      MissedFlushOwes(Watched(reply, []), session, owed, n);
    case Attached(reply, at, owed, sent, shown, owedThen) =>
      var p := Watched(reply, sent);
      var delta := DeltaOf(ID, session.snap, session.pending, n);
      DeltaSeq(session.snap, session.pending, n);
      FlushShows(p, session, owed, n);
      RepaidIsSync(Applied(p, delta), session, owed, n);
      LogGrows(reply, sent, shown, owedThen, delta, session.snap, Repaid(owed, session.pending, session.snap));
  }

  lemma DeltaSeq(snap: Snapshot, damage: Damage, n: nat)
    requires Shaped(snap)
    ensures DeltaOf(ID, snap, damage, n).number == n
  {
  }

  lemma RepaidIsSync(p: Picture, session: Session, owed: Owed, n: nat)
    requires Framed(p) && Shaped(session.snap)
    requires Shows(p, session.snap, n, Repaid(owed, session.pending, session.snap).rows)
    ensures !Repaid(owed, session.pending, session.snap).all
    ensures InSync(p, session.(pending := Lines([]), number := n), Repaid(owed, session.pending, session.snap))
  {
  }

  lemma StepKeepsInv(s: State, action: Action, s': State)
    requires Inv(s) && Apply(s, action) == Some(s')
    ensures Inv(s')
  {
    match action
    case Flush => FlushKeepsInv(s, s');
    case Output(snap, damage) =>
      hide Shows, Applied;
      match s.link {
        case Detached =>
        case Snapped(reply, _, owed) => OutputKeepsSync(Watched(reply, []), s.session, owed, snap, damage);
        case Attached(reply, _, owed, sent, _, _) =>
          OutputKeepsSync(Watched(reply, sent), s.session, owed, snap, damage);
      }
    case Redraw(snap) => hide Shows, Applied;
    case TakeSnapshot =>
      hide Applied;
      FullDeltaShows(EMPTY, ID, s.session.snap, 0);
    case Subscribe =>
  }

  lemma {:induction false} RunKeepsInv(snap: Snapshot, actions: seq<Action>, s: State)
    requires Shaped(snap) && Run(snap, actions) == Some(s)
    ensures Inv(s)
  {
    if actions != [] {
      hide Inv;
      var before := Run(snap, actions[..|actions| - 1]).value;
      RunKeepsInv(snap, actions[..|actions| - 1], before);
      StepKeepsInv(before, actions[|actions| - 1], s);
    } else {
      assert Inv(Start(snap));
    }
  }

  // ----- main results

  /** At every step of every run, after any prefix of the deltas it was sent,
      the viewer shows the snapshot the last of them was made of, except in the
      rows it is still owed. */
  lemma ViewerShowsUpToOwed(snap: Snapshot, actions: seq<Action>, s: State, k: nat)
    requires Shaped(snap) && Run(snap, actions) == Some(s) && s.link.Attached? && k <= |s.link.sent|
    ensures Inv(s)
    ensures k == 0 ==> Draws(Watched(s.link.reply, []), s.link.at, 0)
    ensures k > 0 ==>
      DrawsOutside(Watched(s.link.reply, s.link.sent[..k]), s.link.shown[k - 1], s.link.sent[k - 1].number,
                   s.link.owedThen[k - 1].rows)
  {
    hide Applied, Shows, Draws, DrawsOutside;
    RunKeepsInv(snap, actions, s);
    if k == 0 {
      FullDeltaShows(EMPTY, ID, s.link.at, 0);
    } else {
      ShowsDraws(Watched(s.link.reply, s.link.sent[..k]), s.link.shown[k - 1], s.link.sent[k - 1].number,
                 s.link.owedThen[k - 1].rows);
    }
  }

  /** `p` draws the snapshot, except perhaps in some rows. */
  ghost predicate DrawsOutside(p: Picture, snap: Snapshot, n: nat, except: set<Half>)
    requires Framed(p)
  {
    && Shaped(snap) && FrameDraws(p, snap, n)
    && forall r :: 0 <= r < snap.rows && r !in except ==>
         RowDraws(Row(p.cells, snap.rows, snap.cols, r), Row(snap.cells, snap.rows, snap.cols, r))
  }

  lemma ShowsDraws(p: Picture, snap: Snapshot, n: nat, except: set<Half>)
    requires Framed(p) && Shaped(snap) && Shows(p, snap, n, except)
    ensures DrawsOutside(p, snap, n, except)
  {
    assert FrameDraws(p, snap, n);
    hide RowDraws, FrameDraws;
    forall r | 0 <= r < snap.rows && r !in except
      ensures RowDraws(Row(p.cells, snap.rows, snap.cols, r), Row(snap.cells, snap.rows, snap.cols, r))
    {
      ShownRowDraws(snap, r);
    }
  }

  /** At some step of the run this was the session's snapshot. */
  ghost predicate Had(snap: Snapshot, actions: seq<Action>, t: Snapshot)
    requires Shaped(snap)
  {
    exists j: nat :: j <= |actions| && HadAt(snap, actions[..j], t)
  }

  ghost predicate HadAt(snap: Snapshot, actions: seq<Action>, t: Snapshot)
    requires Shaped(snap)
  {
    Run(snap, actions).Some? && Run(snap, actions).value.session.snap == t
  }

  lemma HadLater(snap: Snapshot, actions: seq<Action>, t: Snapshot)
    requires Shaped(snap) && actions != [] && Had(snap, actions[..|actions| - 1], t)
    ensures Had(snap, actions, t)
  {
    hide HadAt;
    var init := actions[..|actions| - 1];
    var j: nat :| j <= |init| && HadAt(snap, init[..j], t);
    assert init[..j] == actions[..j];
  }

  lemma HadNow(snap: Snapshot, actions: seq<Action>, s: State)
    requires Shaped(snap) && Run(snap, actions) == Some(s)
    ensures Had(snap, actions, s.session.snap)
  {
    assert actions[..|actions|] == actions;
    assert HadAt(snap, actions[..|actions|], s.session.snap);
  }

  /** The snapshots the viewer is said to show are ones the session had. */
  lemma {:induction false} ShownWasHad(snap: Snapshot, actions: seq<Action>, s: State)
    requires Shaped(snap) && Run(snap, actions) == Some(s)
    ensures !s.link.Detached? ==> Had(snap, actions, s.link.at)
    ensures s.link.Attached? ==> forall k :: 0 <= k < |s.link.shown| ==> Had(snap, actions, s.link.shown[k])
  {
    if actions != [] {
      var init := actions[..|actions| - 1];
      var before := Run(snap, init).value;
      ShownWasHad(snap, init, before);
      HadNow(snap, init, before);
      hide Run, Had;
      if !before.link.Detached? {
        HadLater(snap, actions, before.link.at);
      }
      HadLater(snap, actions, before.session.snap);
      ShownGrows(before, actions[|actions| - 1], s);
      if s.link.Attached? {
        forall k | 0 <= k < |s.link.shown| ensures Had(snap, actions, s.link.shown[k]) {
          if before.link.Attached? && k < |before.link.shown| {
            HadLater(snap, actions, before.link.shown[k]);
          }
        }
      }
    }
  }

  lemma ShownGrows(s: State, action: Action, s': State)
    requires Shaped(s.session.snap) && Apply(s, action) == Some(s')
    ensures !s'.link.Detached? ==> s'.link.at == if s.link.Detached? then s.session.snap else s.link.at
    ensures s'.link.Attached? ==> forall k :: 0 <= k < |s'.link.shown| ==>
      s'.link.shown[k] == if s.link.Attached? && k < |s.link.shown| then s.link.shown[k] else s.session.snap
  {
    hide Covers;
  }

  function Flushes(actions: seq<Action>): nat {
    if actions == [] then 0
    else Flushes(actions[..|actions| - 1]) + if actions[|actions| - 1].Flush? then 1 else 0
  }

  /** Deltas carry the count of flushes, so a viewer receives consecutive numbers. */
  lemma {:induction false} NumbersCountFlushes(snap: Snapshot, actions: seq<Action>, s: State)
    requires Shaped(snap) && Run(snap, actions) == Some(s)
    ensures s.session.number == Flushes(actions)
    ensures s.link.Attached? ==> forall k :: 0 <= k < |s.link.sent| ==>
      s.link.sent[k].number == s.session.number - |s.link.sent| + k + 1
  {
    if actions != [] {
      var before := Run(snap, actions[..|actions| - 1]).value;
      NumbersCountFlushes(snap, actions[..|actions| - 1], before);
      hide Covers, Run, FullDelta;
      if actions[|actions| - 1].Flush? {
        DeltaSeq(before.session.snap, before.session.pending, before.session.number + 1);
        hide DeltaOf;
      }
    }
  }

  /** Flushes between the attach's snapshot and its subscription. */
  ghost function WindowFlushes(snap: Snapshot, actions: seq<Action>): nat
    requires Shaped(snap)
  {
    if actions == [] then 0
    else
      var init := actions[..|actions| - 1];
      var before := Run(snap, init);
      WindowFlushes(snap, init) +
      (if before.Some? && before.value.link.Snapped? && actions[|actions| - 1].Flush? then 1 else 0)
  }

  ghost predicate OwesNothing(link: Link) {
    match link
    case Detached => true
    case Snapped(_, _, owed) => owed == NOTHING
    case Attached(_, _, owed, _, _, owedThen) =>
      owed == NOTHING && forall k :: 0 <= k < |owedThen| ==> owedThen[k] == NOTHING
  }

  lemma {:induction false} QuietWindowOwesNothing(snap: Snapshot, actions: seq<Action>, s: State)
    requires Shaped(snap) && Run(snap, actions) == Some(s) && WindowFlushes(snap, actions) == 0
    ensures OwesNothing(s.link)
  {
    if actions != [] {
      QuietWindowOwesNothing(snap, actions[..|actions| - 1], Run(snap, actions[..|actions| - 1]).value);
    }
  }

  /** Every picture the viewer passes through is exactly a snapshot the session
      had, under the number it was flushed with. */
  ghost predicate AlwaysExact(link: Link)
    requires link.Attached?
  {
    |link.shown| == |link.sent| && forall k :: 0 <= k < |link.sent| ==> ExactAt(link, k)
  }

  ghost predicate ExactAt(link: Link, k: nat)
    requires link.Attached? && k < |link.sent| == |link.shown|
  {
    Draws(Watched(link.reply, link.sent[..k + 1]), link.shown[k], link.sent[k].number)
  }

  lemma QuietWindowIsExact(snap: Snapshot, actions: seq<Action>, s: State)
    requires Shaped(snap) && Run(snap, actions) == Some(s) && s.link.Attached? && WindowFlushes(snap, actions) == 0
    ensures AlwaysExact(s.link)
  {
    hide Applied, Shows;
    RunKeepsInv(snap, actions, s);
    QuietWindowOwesNothing(snap, actions, s);
    var link := s.link;
    forall k | 0 <= k < |link.sent|
      ensures ExactAt(link, k)
    {
      ShowsAll(Watched(link.reply, link.sent[..k + 1]), link.shown[k], link.sent[k].number);
      ShownDraws(link.shown[k], link.sent[k].number);
    }
  }

  /** The snapshot the viewer was last sent. */
  ghost function LastSent(link: Link): Snapshot
    requires link.Snapped? || link.Attached?
  {
    if link.Snapped? || link.shown == [] then link.at else link.shown[|link.shown| - 1]
  }

  /** With nothing damaged since, that is the session's, under its number. */
  ghost predicate Current(s: State) {
    && (!s.link.Detached? && Clean(s.session.pending) ==> LastSent(s.link) == s.session.snap)
    && (s.link.Attached? ==>
          && |s.link.sent| == |s.link.shown|
          && (s.link.sent != [] ==> s.link.sent[|s.link.sent| - 1].number == s.session.number))
  }

  lemma CleanMerge(pending: Damage, damage: Damage)
    requires Clean(Merge(pending, damage))
    ensures Clean(pending) && Clean(damage)
  {
    MergeRows(pending.lines, damage.lines);
    forall lines: seq<LineDamage> | RowSet(lines) == {} ensures lines == [] {
      assert lines != [] ==> lines[0].row in RowSet(lines);
    }
  }

  lemma StepKeepsCurrent(s: State, action: Action, s': State)
    requires Shaped(s.session.snap) && Current(s) && Apply(s, action) == Some(s')
    requires !(s.link.Snapped? && action.Flush?)
    ensures Current(s')
  {
    hide MergeLines, RowSet, FullDelta;
    match action
    case Output(snap, damage) =>
      hide DeltaOf;
      if Clean(s'.session.pending) {
        CleanMerge(s.session.pending, damage);
      }
    case Flush => DeltaSeq(s.session.snap, s.session.pending, s.session.number + 1);
    case _ =>
  }

  lemma {:induction false} QuietWindowIsCurrent(snap: Snapshot, actions: seq<Action>, s: State)
    requires Shaped(snap) && Run(snap, actions) == Some(s) && WindowFlushes(snap, actions) == 0
    ensures Current(s)
  {
    if actions != [] {
      hide Current, Apply;
      var before := Run(snap, actions[..|actions| - 1]).value;
      QuietWindowIsCurrent(snap, actions[..|actions| - 1], before);
      StepKeepsCurrent(before, actions[|actions| - 1], s);
    }
  }

  /** With no flush in the window and no damage left to flush, a viewer that has
      received everything shows the session as it is now: cells, cursor, position
      and number. */
  lemma CaughtUp(snap: Snapshot, actions: seq<Action>, s: State)
    requires Shaped(snap) && Run(snap, actions) == Some(s) && s.link.Attached? && WindowFlushes(snap, actions) == 0
    requires Clean(s.session.pending)
    ensures Draws(Watched(s.link.reply, s.link.sent), s.session.snap, if s.link.sent == [] then 0 else s.session.number)
  {
    hide Applied, Draws, Shows, InSync, LogHolds, Run, Watched;
    QuietWindowIsCurrent(snap, actions, s);
    QuietWindowIsExact(snap, actions, s);
    var n := |s.link.sent|;
    if n == 0 {
      ViewerShowsUpToOwed(snap, actions, s, 0);
    } else {
      assert ExactAt(s.link, n - 1);
      assert s.link.sent[..n] == s.link.sent;
    }
  }

  // ----- a flush in the window is lost

  const A := Cell('a', Default, Default, 0)
  const B := Cell('b', Default, Default, 0)

  function TwoRows(first: Cell, second: Cell): Snapshot {
    Snapshot(1, 2, Cursor(0, 0, true), [first, second], 0, 2)
  }

  function TouchRow(r: Half): Damage {
    Lines([LineDamage(r, 0, 0)])
  }

  lemma RunSnoc(snap: Snapshot, actions: seq<Action>, s: State, action: Action) returns (more: seq<Action>, s': State)
    requires Shaped(snap) && Run(snap, actions) == Some(s) && Apply(s, action).Some?
    ensures more == actions + [action] && Some(s') == Apply(s, action) && Run(snap, more) == Some(s')
    ensures WindowFlushes(snap, more) ==
      WindowFlushes(snap, actions) + (if s.link.Snapped? && action.Flush? then 1 else 0)
  {
    more, s' := actions + [action], Apply(s, action).value;
    assert more[..|actions|] == actions;
  }

  lemma TouchCovers(snap: Snapshot, other: Snapshot, r: Half)
    requires snap in {TwoRows(A, A), TwoRows(B, A)} &&
             (other == snap || (snap == TwoRows(A, A) && other == TwoRows(B, A) && r == 0)
             || (snap == TwoRows(B, A) && other == TwoRows(B, B) && r == 1))
    ensures Covers(snap, TouchRow(r), other) && RowSet(TouchRow(r).lines) == {r}
  {
  }

  /** An attach with `w` flushes in its window, the first of which draws 'b'. */
  lemma {:induction false} LossyWindow(w: nat) returns (actions: seq<Action>, s: State)
    requires w > 0
    ensures Run(TwoRows(A, A), actions) == Some(s) && WindowFlushes(TwoRows(A, A), actions) == w
    ensures s.link.Snapped? && s.link.reply == FullDelta(ID, TwoRows(A, A), 0)
    ensures s.session.snap == TwoRows(B, A) && s.session.pending == Lines([])
  {
    var start := TwoRows(A, A);
    var before: seq<Action>;
    var mid: State;
    if w == 1 {
      before, mid := RunSnoc(start, [], Start(start), TakeSnapshot);
      TouchCovers(start, TwoRows(B, A), 0);
    } else {
      before, mid := LossyWindow(w - 1);
      TouchCovers(TwoRows(B, A), TwoRows(B, A), 0);
    }
    var drawn, s1 := RunSnoc(start, before, mid, Output(TwoRows(B, A), TouchRow(0)));
    actions, s := RunSnoc(start, drawn, s1, Flush);
  }

  /** A viewer that missed row 0 and receives row 1 shows neither snapshot. */
  lemma StaleRow(n: nat)
    ensures var reply, delta := FullDelta(ID, TwoRows(A, A), 0), DeltaOf(ID, TwoRows(B, B), TouchRow(1), n);
      !Draws(Watched(reply, [delta]), TwoRows(B, B), n)
  {
    var reply, d := FullDelta(ID, TwoRows(A, A), 0), DeltaOf(ID, TwoRows(B, B), TouchRow(1), n);
    hide Applied;
    assert [d][..0] == [];
    assert Watched(reply, [d]) == Applied(Applied(EMPTY, reply), d);
    FullDeltaShows(EMPTY, ID, TwoRows(A, A), 0);
    var p := Shown(TwoRows(A, A), 0);
    LinesDeltaShows(p, ID, TwoRows(B, B), TouchRow(1).lines, n, 0);
    assert Row(p.cells, 2, 1, 0) == [ShownCell(A)];
    assert Watched(reply, [d]).cells[0] == ShownCell(A);
    assert !CellDraws(ShownCell(A), B);
  }

  lemma StaleLink(link: Link, n: nat)
    requires link.Attached? && link.reply == FullDelta(ID, TwoRows(A, A), 0)
    requires link.sent == [DeltaOf(ID, TwoRows(B, B), TouchRow(1), n)] && link.shown == [TwoRows(B, B)]
    ensures !AlwaysExact(link)
  {
    hide Watched, Draws;
    StaleRow(n);
    assert link.sent[..0 + 1] == link.sent;
    assert !ExactAt(link, 0);
  }

  /** A run with a finished attach and `w` flushes in its window. */
  ghost predicate AttachRun(snap: Snapshot, actions: seq<Action>, s: State, w: nat) {
    Shaped(snap) && Run(snap, actions) == Some(s) && s.link.Attached? && WindowFlushes(snap, actions) == w
  }

  /** An attach shows only true pictures exactly when no flush falls between
      its snapshot and its subscription. */
  lemma ExactUnlessFlushedInWindow(w: nat)
    ensures (forall snap, actions, s :: AttachRun(snap, actions, s, w) ==> AlwaysExact(s.link)) <==> w == 0
  {
    hide AlwaysExact;
    if w == 0 {
      forall snap, actions, s | AttachRun(snap, actions, s, 0)
        ensures AlwaysExact(s.link)
      {
        QuietWindowIsExact(snap, actions, s);
      }
    } else {
      var start := TwoRows(A, A);
      var r0, s0 := LossyWindow(w);
      var r1, s1 := RunSnoc(start, r0, s0, Subscribe);
      TouchCovers(TwoRows(B, A), TwoRows(B, B), 1);
      var r2, s2 := RunSnoc(start, r1, s1, Output(TwoRows(B, B), TouchRow(1)));
      var r3, s3 := RunSnoc(start, r2, s2, Flush);
      var n := s2.session.number + 1;
      assert AttachRun(start, r3, s3, w);
      StaleLink(s3.link, n);
    }
  }
}
