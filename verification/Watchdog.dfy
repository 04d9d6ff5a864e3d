/** The watchdog behind unanswered approvals: who is waiting, since when, and
    how many reminders were raised. */
module Watchdog {
  import opened Numbers

  type Id = string
  /** Instants and durations, in any one unit. */
  type Time = nat

  datatype Watch = Watch(id: Id, since: Time, reminders: nat)

  function Ids(ws: seq<Watch>): set<Id> {
    set w | w in ws :: w.id
  }

  predicate Distinct(ws: seq<Watch>) {
    forall i, j :: 0 <= i < j < |ws| ==> ws[i].id != ws[j].id
  }

  // ----- what each operation does to the list

  function Armed(ws: seq<Watch>, id: Id, now: Time): seq<Watch> {
    if id in Ids(ws) then ws else ws + [Watch(id, now, 0)]
  }

  function Disarmed(ws: seq<Watch>, id: Id): seq<Watch> {
    if ws == [] then []
    else if ws[0].id == id then Disarmed(ws[1..], id)
    else [ws[0]] + Disarmed(ws[1..], id)
  }

  /** The next reminder's time has come. */
  predicate Overdue(w: Watch, after: Time, now: Time) {
    now - w.since >= after * (w.reminders + 1)
  }

  function Reminded(w: Watch, after: Time, now: Time): Watch {
    if Overdue(w, after, now) then w.(reminders := w.reminders + 1) else w
  }

  function RemindedAll(ws: seq<Watch>, after: Time, now: Time): seq<Watch> {
    seq(|ws|, i requires 0 <= i < |ws| => Reminded(ws[i], after, now))
  }

  function OverdueIds(ws: seq<Watch>, after: Time, now: Time): seq<Id> {
    if ws == [] then []
    else
      var last := ws[|ws| - 1];
      OverdueIds(ws[..|ws| - 1], after, now) + (if Overdue(last, after, now) then [last.id] else [])
  }

  class Dog {
    var pending: seq<Watch>

    constructor ()
      ensures pending == []
    {
      pending := [];
    }

    method Arm(id: Id, now: Time)
      modifies this
      ensures pending == Armed(old(pending), id, now)
    {
      var known := false;
      for i := 0 to |pending|
        invariant known <==> exists k :: 0 <= k < i && pending[k].id == id
      {
        if pending[i].id == id {
          known := true;
        }
      }
      if !known {
        pending := pending + [Watch(id, now, 0)];
      }
    }

    method Disarm(id: Id)
      modifies this
      ensures pending == Disarmed(old(pending), id)
    {
      var rest, kept := pending, [];
      while rest != []
        invariant kept + Disarmed(rest, id) == Disarmed(old(pending), id)
      {
        if rest[0].id != id {
          kept := kept + [rest[0]];
        }
        rest := rest[1..];
      }
      pending := kept;
    }

    /** Bumps every overdue entry once and reports it, in list order. */
    method Due(after: Time, now: Time) returns (due: seq<Id>)
      modifies this
      ensures pending == RemindedAll(old(pending), after, now)
      ensures due == OverdueIds(old(pending), after, now)
    {
      due := [];
      var n := |pending|;
      for i := 0 to n
        invariant |pending| == n == |old(pending)|
        invariant pending[..i] == RemindedAll(old(pending), after, now)[..i]
        invariant pending[i..] == old(pending)[i..]
        invariant due == OverdueIds(old(pending)[..i], after, now)
      {
        var p := pending[i];
        assert p == old(pending)[i..][0];
        assert old(pending)[..i + 1][..i] == old(pending)[..i];
        ghost var before := pending;
        if now - p.since >= after * (p.reminders + 1) {
          pending := pending[i := p.(reminders := p.reminders + 1)];
          due := due + [p.id];
        }
        assert pending[..i] == before[..i];
        assert pending[i + 1..] == before[i..][1..];
        assert pending[..i + 1] == pending[..i] + [pending[i]];
      }
      assert old(pending)[..n] == old(pending);
    }
  }

  // ----- properties

  lemma {:induction false} DisarmedIs(ws: seq<Watch>, id: Id)
    ensures Ids(Disarmed(ws, id)) == Ids(ws) - {id}
    ensures forall w :: w in Disarmed(ws, id) <==> w in ws && w.id != id
  {
    if ws != [] {
      DisarmedIs(ws[1..], id);
      assert ws == [ws[0]] + ws[1..];
    }
  }

  lemma {:induction false} DisarmedKeepsDistinct(ws: seq<Watch>, id: Id)
    requires Distinct(ws)
    ensures Distinct(Disarmed(ws, id))
  {
    if ws != [] {
      DisarmedKeepsDistinct(ws[1..], id);
      DisarmedIs(ws[1..], id);
      forall w | w in Disarmed(ws[1..], id) ensures w.id != ws[0].id {
        assert w in ws[1..];
      }
    }
  }

  lemma ArmedIs(ws: seq<Watch>, id: Id, now: Time)
    requires Distinct(ws)
    ensures Ids(Armed(ws, id, now)) == Ids(ws) + {id} && Distinct(Armed(ws, id, now))
  {
    if id !in Ids(ws) {
      var w := Watch(id, now, 0);
      var a := ws + [w];
      forall i | 0 <= i < |ws| ensures ws[i].id != id {
        assert ws[i].id in Ids(ws);
      }
      assert forall x :: x in a <==> x in ws || x == w;
      assert w in a;
    }
  }

  /** Arming adds one id at most once, disarming removes exactly it, and a
      reminder round changes nobody's membership. */
  lemma Membership(ws: seq<Watch>, id: Id, after: Time, now: Time)
    requires Distinct(ws)
    ensures Ids(Armed(ws, id, now)) == Ids(ws) + {id} && Distinct(Armed(ws, id, now))
    ensures Ids(Disarmed(ws, id)) == Ids(ws) - {id} && Distinct(Disarmed(ws, id))
    ensures Ids(RemindedAll(ws, after, now)) == Ids(ws) && Distinct(RemindedAll(ws, after, now))
  {
    hide Ids, Armed, Disarmed, Distinct;
    ArmedIs(ws, id, now);
    DisarmedIs(ws, id);
    DisarmedKeepsDistinct(ws, id);
    RemindedIds(ws, after, now);
    RemindedKeepsDistinct(ws, after, now);
  }

  /** A new watch begins now, with no reminder; a round counts one on exactly those that
      have waited long enough for their next, and leaves the rest alone. */
  lemma WatchesAre(ws: seq<Watch>, id: Id, after: Time, now: Time)
    ensures id in Ids(ws) ==> Armed(ws, id, now) == ws
    ensures id !in Ids(ws) ==>
      var a := Armed(ws, id, now);
      |a| == |ws| + 1 && ws <= a && a[|ws|].id == id && a[|ws|].since == now && a[|ws|].reminders == 0
    ensures var r := RemindedAll(ws, after, now);
      && |r| == |ws|
      && forall i :: 0 <= i < |ws| ==>
           && r[i].id == ws[i].id && r[i].since == ws[i].since
           && r[i].reminders ==
                ws[i].reminders + if now - ws[i].since >= after * (ws[i].reminders + 1) then 1 else 0
  {
  }

  lemma RemindedKeepsDistinct(ws: seq<Watch>, after: Time, now: Time)
    requires Distinct(ws)
    ensures Distinct(RemindedAll(ws, after, now))
  {
  }

  lemma RemindedIds(ws: seq<Watch>, after: Time, now: Time)
    ensures Ids(RemindedAll(ws, after, now)) == Ids(ws)
  {
    var r := RemindedAll(ws, after, now);
    forall x | x in Ids(ws) ensures x in Ids(r) {
      var i :| 0 <= i < |ws| && ws[i].id == x;
      assert r[i] in r && r[i].id == x;
    }
    forall x | x in Ids(r) ensures x in Ids(ws) {
      var i :| 0 <= i < |r| && r[i].id == x;
      assert ws[i] in ws && ws[i].id == x;
    }
  }

  /** Reminders never outrun the time waited. */
  predicate Paced(w: Watch, after: Time, now: Time) {
    w.since <= now && w.reminders * after <= now - w.since
  }

  /** No reminder is owed either. */
  predicate UpToDate(w: Watch, after: Time, now: Time) {
    Paced(w, after, now) && now - w.since < (w.reminders + 1) * after
  }

  lemma DueKeepsPace(w: Watch, after: Time, last: Time, now: Time)
    requires last <= now && Paced(w, after, last)
    ensures Paced(Reminded(w, after, now), after, now)
  {
  }

  /** Asked at least once per interval, the watchdog raises exactly as many
      reminders as whole intervals have passed. */
  lemma DueKeepsCount(w: Watch, after: Time, last: Time, now: Time)
    requires 0 < after && last <= now <= last + after && UpToDate(w, after, last)
    ensures UpToDate(Reminded(w, after, now), after, now)
    ensures Reminded(w, after, now).reminders == (now - w.since) / after
  {
    var r := Reminded(w, after, now);
    var waited := now - w.since;
    assert (w.reminders + 2) * after == (w.reminders + 1) * after + after;
    assert waited < (r.reminders + 1) * after;
    QuotientIs(waited, after, r.reminders);
  }

  lemma {:induction false} OverdueIdsAre(ws: seq<Watch>, after: Time, now: Time, id: Id)
    ensures id in OverdueIds(ws, after, now) <==>
      exists i :: 0 <= i < |ws| && ws[i].id == id && Overdue(ws[i], after, now)
  {
    if ws != [] {
      OverdueIdsAre(ws[..|ws| - 1], after, now, id);
      forall i | 0 <= i < |ws| && ws[i].id == id && Overdue(ws[i], after, now) && i < |ws| - 1
        ensures id in OverdueIds(ws[..|ws| - 1], after, now)
      {
        assert ws[..|ws| - 1][i] == ws[i];
      }
    }
  }
}
