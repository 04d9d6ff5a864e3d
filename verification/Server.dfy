/** The daemon's connections: topics, bounded outboxes, and what happens to a
    client that falls behind.

    A channel outlives its registration: the registry holds one sender, the
    thread that serves the connection holds another. */
module Server {
  import opened Sequences
  import opened Wrappers

  type ConnId = nat
  type Topic = string

  const OUTBOX_CAPACITY := 512

  /** One line for a client: a publication to a topic, a broadcast, or the
      response to a request of its own. */
  datatype Line = Publication(topic: Topic, body: string) | Broadcast(body: string) | Response(body: string)

  datatype Conn = Conn(id: ConnId, subscriptions: set<Topic>)

  /** `queue` waits for the writer; `log` is everything ever queued. */
  datatype Channel = Channel(queue: seq<Line>, log: seq<Line>, writing: bool, serving: bool)

  datatype State = State(conns: seq<Conn>, channels: map<ConnId, Channel>)

  const INIT := State([], map[])

  // ----- the operations on the registry

  predicate Selected(c: Conn, line: Line) {
    line.Broadcast? || (line.Publication? && line.topic in c.subscriptions)
  }

  /** `try_send`: fails when the writer is gone or the outbox is full. */
  predicate Accepts(ch: Channel) {
    ch.writing && |ch.queue| < OUTBOX_CAPACITY
  }

  function Pushed(ch: Channel, line: Line): Channel {
    ch.(queue := ch.queue + [line], log := ch.log + [line])
  }

  /** Who stays registered after a delivery. */
  predicate Stays(c: Conn, channels: map<ConnId, Channel>, line: Line) {
    !Selected(c, line) || (c.id in channels && Accepts(channels[c.id]))
  }

  function Retained(conns: seq<Conn>, channels: map<ConnId, Channel>, line: Line): seq<Conn> {
    if conns == [] then []
    else if Stays(conns[0], channels, line) then [conns[0]] + Retained(conns[1..], channels, line)
    else Retained(conns[1..], channels, line)
  }

  predicate Gets(conns: seq<Conn>, channels: map<ConnId, Channel>, line: Line, id: ConnId) {
    exists c :: c in conns && c.id == id && Selected(c, line) && Stays(c, channels, line)
  }

  function Delivered(s: State, line: Line): State {
    State(Retained(s.conns, s.channels, line),
          map id | id in s.channels ::
            if Gets(s.conns, s.channels, line, id) then Pushed(s.channels[id], line) else s.channels[id])
  }

  function TopicsAfter(c: Conn, id: ConnId, topic: Topic, on: bool): set<Topic> {
    if c.id != id then c.subscriptions
    else if on then c.subscriptions + {topic} else c.subscriptions - {topic}
  }

  function Subscribed(conns: seq<Conn>, id: ConnId, topic: Topic, on: bool): seq<Conn> {
    if conns == [] then []
    else if conns[0].id == id then
      [conns[0].(subscriptions := TopicsAfter(conns[0], id, topic, on))] + conns[1..]
    else [conns[0]] + Subscribed(conns[1..], id, topic, on)
  }

  function Without(conns: seq<Conn>, id: ConnId): seq<Conn> {
    if conns == [] then []
    else if conns[0].id == id then Without(conns[1..], id)
    else [conns[0]] + Without(conns[1..], id)
  }

  predicate Distinct(conns: seq<Conn>) {
    forall i, j :: 0 <= i < j < |conns| ==> conns[i].id != conns[j].id
  }

  predicate Registered(s: State, id: ConnId) {
    exists c :: c in s.conns && c.id == id
  }

  predicate SubscribedTo(s: State, id: ConnId, topic: Topic) {
    exists c :: c in s.conns && c.id == id && topic in c.subscriptions
  }

  // ----- runs

  datatype Action =
    | Accept(id: ConnId)
    | Subscribe(id: ConnId, topic: Topic)
    | Unsubscribe(id: ConnId, topic: Topic)
    | Deliver(line: Line)
    | Drain(id: ConnId)
    | WriterFails(id: ConnId)
    | Respond(id: ConnId, body: string)
    | Hangup(id: ConnId)

  function Apply(s: State, action: Action): Option<State> {
    match action
    case Accept(id) =>
      if id in s.channels then None
      else Some(State(s.conns + [Conn(id, {})], s.channels[id := Channel([], [], true, true)]))
    case Subscribe(id, topic) => Some(s.(conns := Subscribed(s.conns, id, topic, true)))
    case Unsubscribe(id, topic) => Some(s.(conns := Subscribed(s.conns, id, topic, false)))
    case Deliver(line) => if line.Response? then None else Some(Delivered(s, line))
    case Drain(id) =>
      if id !in s.channels || s.channels[id].queue == [] || !s.channels[id].writing then None
      else Some(s.(channels := s.channels[id := s.channels[id].(queue := s.channels[id].queue[1..])]))
    case WriterFails(id) =>
      if id !in s.channels then None
      else Some(s.(channels := s.channels[id := s.channels[id].(writing := false)]))
    case Respond(id, body) =>
      // The serving thread blocks until there is room.
      if id !in s.channels || !s.channels[id].serving || !Accepts(s.channels[id]) then None
      else Some(s.(channels := s.channels[id := Pushed(s.channels[id], Response(body))]))
    case Hangup(id) =>
      if id !in s.channels || !s.channels[id].serving then None
      else Some(State(Without(s.conns, id), s.channels[id := s.channels[id].(serving := false)]))
  }

  function RunFrom(s: State, actions: seq<Action>): Option<State> {
    if actions == [] then Some(s)
    else
      var before := RunFrom(s, actions[..|actions| - 1]);
      if before.None? then None else Apply(before.value, actions[|actions| - 1])
  }

  // ----- the registry of connections, behind its lock

  class Registry {
    var conns: seq<Conn>
    var channels: map<ConnId, Channel>

    ghost function View(): State
      reads this
    {
      State(conns, channels)
    }

    constructor ()
      ensures View() == INIT
    {
      conns, channels := [], map[];
    }

    method SetSubscription(id: ConnId, topic: Topic, on: bool)
      modifies this`conns
      ensures conns == Subscribed(old(conns), id, topic, on)
    {
      hide Subscribed;
      var i := 0;
      while i < |conns| && conns[i].id != id
        invariant 0 <= i <= |conns| && conns == old(conns)
        invariant conns[..i] + Subscribed(conns[i..], id, topic, on) == Subscribed(conns, id, topic, on)
      {
        SubscribedFrom(conns, i, id, topic, on);
        Associate(conns[..i], [conns[i]], Subscribed(conns[i + 1..], id, topic, on));
        assert conns[..i + 1] == conns[..i] + [conns[i]];
        i := i + 1;
      }
      SubscribedFrom(conns, i, id, topic, on);
      if i < |conns| {
        var subs := if on then conns[i].subscriptions + {topic} else conns[i].subscriptions - {topic};
        var changed := conns[i].(subscriptions := subs);
        conns := conns[i := changed];
        assert conns == old(conns)[..i] + ([changed] + old(conns)[i + 1..]);
      } else {
        assert conns[..i] + [] == conns;
      }
    }

    /** Offers the line to every selected connection, and keeps the ones that
        were not selected or had room. */
    method Deliver(line: Line)
      requires Distinct(conns)
      modifies this
      ensures View() == Delivered(old(View()), line)
    {
      hide Gets, Retained, Distinct, Selected, Pushed;
      GetsNothing(channels, line);
      ghost var s := View();
      var kept: seq<Conn> := [];
      var i := 0;
      while i < |conns|
        invariant 0 <= i <= |conns| && conns == s.conns
        invariant kept + Retained(conns[i..], s.channels, line) == Retained(conns, s.channels, line)
        invariant channels.Keys == s.channels.Keys
        invariant forall id :: id in channels ==>
          channels[id] ==
            if Gets(conns[..i], s.channels, line, id) then Pushed(s.channels[id], line) else s.channels[id]
      {
        var c := conns[i];
        RetainedFrom(conns, i, s.channels, line);
        Associate(kept, [c], Retained(conns[i + 1..], s.channels, line));
        assert conns[..i + 1] == conns[..i] + [c];
        GetsOnce(conns, i, s.channels, line);
        if !Selected(c, line) {
          kept := kept + [c];
        } else if c.id in channels && channels[c.id].writing && |channels[c.id].queue| < OUTBOX_CAPACITY {
          channels := channels[c.id := Pushed(channels[c.id], line)];
          kept := kept + [c];
        }
        forall id | id in channels
          ensures channels[id] ==
            if Gets(conns[..i + 1], s.channels, line, id) then Pushed(s.channels[id], line) else s.channels[id]
        {
          GetsSnoc(conns[..i], c, s.channels, line, id);
        }
        i := i + 1;
      }
      assert conns[..i] == conns && conns[i..] == [];
      RetainedNone(s.channels, line);
      conns := kept;
    }

    /** The serving thread is done: forget the connection. */
    method Forget(id: ConnId)
      modifies this`conns
      ensures conns == Without(old(conns), id)
    {
      var kept: seq<Conn> := [];
      for i := 0 to |conns|
        invariant conns == old(conns)
        invariant kept + Without(conns[i..], id) == Without(conns, id)
      {
        assert conns[i..][0] == conns[i] && conns[i..][1..] == conns[i + 1..];
        if conns[i].id != id {
          kept := kept + [conns[i]];
        }
      }
      conns := kept;
    }
  }

  lemma SubscribedFrom(conns: seq<Conn>, i: nat, id: ConnId, topic: Topic, on: bool)
    requires i <= |conns|
    ensures i == |conns| ==> Subscribed(conns[i..], id, topic, on) == []
    ensures i < |conns| && conns[i].id != id ==>
      Subscribed(conns[i..], id, topic, on) == [conns[i]] + Subscribed(conns[i + 1..], id, topic, on)
    ensures i < |conns| && conns[i].id == id ==>
      Subscribed(conns[i..], id, topic, on) ==
        [conns[i].(subscriptions := TopicsAfter(conns[i], id, topic, on))] + conns[i + 1..]
  {
    if i < |conns| {
      FromHere(conns, i);
    }
  }

  lemma GetsNothing(channels: map<ConnId, Channel>, line: Line)
    ensures forall id :: !Gets([], channels, line, id)
  {
  }

  lemma GetsOnce(conns: seq<Conn>, i: nat, channels: map<ConnId, Channel>, line: Line)
    requires Distinct(conns) && i < |conns|
    ensures !Gets(conns[..i], channels, line, conns[i].id)
  {
    hide Stays, Selected;
    forall j | 0 <= j < i ensures conns[..i][j].id != conns[i].id {
    }
  }

  lemma RetainedFrom(conns: seq<Conn>, i: nat, channels: map<ConnId, Channel>, line: Line)
    requires i < |conns|
    ensures Retained(conns[i..], channels, line) ==
      (if Stays(conns[i], channels, line) then [conns[i]] else []) + Retained(conns[i + 1..], channels, line)
  {
    hide Stays;
    assert conns[i..][0] == conns[i] && conns[i..][1..] == conns[i + 1..];
  }

  lemma RetainedNone(channels: map<ConnId, Channel>, line: Line)
    ensures Retained([], channels, line) == []
  {
  }

  lemma GetsSnoc(conns: seq<Conn>, c: Conn, channels: map<ConnId, Channel>, line: Line, id: ConnId)
    ensures Gets(conns + [c], channels, line, id) <==>
            Gets(conns, channels, line, id) || (c.id == id && Selected(c, line) && Stays(c, channels, line))
  {
    if Gets(conns, channels, line, id) {
      var d :| d in conns && d.id == id && Selected(d, line) && Stays(d, channels, line);
      assert d in conns + [c];
    }
    if c.id == id && Selected(c, line) && Stays(c, channels, line) {
      assert c in conns + [c];
    }
  }

  // ----- invariants

  ghost predicate Inv(s: State) {
    && Distinct(s.conns)
    && (forall c :: c in s.conns ==> c.id in s.channels && s.channels[c.id].serving)
    && (forall id :: id in s.channels ==> Queued(s.channels[id]))
  }

  /** The outbox holds the newest lines, and never more than its capacity. */
  predicate Queued(ch: Channel) {
    |ch.queue| <= OUTBOX_CAPACITY && |ch.queue| <= |ch.log| && ch.queue == ch.log[|ch.log| - |ch.queue|..]
  }

  lemma {:induction false} RetainedAre(conns: seq<Conn>, channels: map<ConnId, Channel>, line: Line)
    ensures forall c :: c in Retained(conns, channels, line) <==> c in conns && Stays(c, channels, line)
    ensures Distinct(conns) ==> Distinct(Retained(conns, channels, line))
  {
    if conns != [] {
      var rest := Retained(conns[1..], channels, line);
      RetainedAre(conns[1..], channels, line);
      assert conns == [conns[0]] + conns[1..];
      if Distinct(conns) {
        forall i | 0 <= i < |rest| ensures rest[i].id != conns[0].id {
          assert rest[i] in rest;
          var j :| 0 <= j < |conns[1..]| && conns[1..][j] == rest[i];
          assert conns[j + 1] == rest[i];
        }
      }
    }
  }

  lemma {:induction false} WithoutAre(conns: seq<Conn>, id: ConnId)
    ensures forall c :: c in Without(conns, id) <==> c in conns && c.id != id
    ensures Distinct(conns) ==> Distinct(Without(conns, id))
  {
    if conns != [] {
      var rest := Without(conns[1..], id);
      WithoutAre(conns[1..], id);
      assert conns == [conns[0]] + conns[1..];
      if Distinct(conns) {
        forall i | 0 <= i < |rest| ensures rest[i].id != conns[0].id {
          assert rest[i] in rest;
          var j :| 0 <= j < |conns[1..]| && conns[1..][j] == rest[i];
          assert conns[j + 1] == rest[i];
        }
      }
    }
  }

  /** A subscription changes one connection's topics and nobody's place. */
  lemma {:induction false} SubscribedAre(conns: seq<Conn>, id: ConnId, topic: Topic, on: bool)
    requires Distinct(conns)
    ensures var next := Subscribed(conns, id, topic, on);
      && |next| == |conns|
      && (forall i :: 0 <= i < |conns| ==> next[i].id == conns[i].id)
      && (forall i :: 0 <= i < |conns| ==> next[i].subscriptions == TopicsAfter(conns[i], id, topic, on))
  {
    if conns != [] && conns[0].id != id {
      SubscribedAre(conns[1..], id, topic, on);
    }
  }

  lemma PushedIsQueued(ch: Channel, line: Line)
    requires Queued(ch) && |ch.queue| < OUTBOX_CAPACITY
    ensures Queued(Pushed(ch, line))
  {
  }

  lemma DrainedIsQueued(ch: Channel)
    requires Queued(ch) && ch.queue != []
    ensures Queued(ch.(queue := ch.queue[1..]))
  {
  }

  lemma StoppedIsQueued(ch: Channel)
    requires Queued(ch)
    ensures Queued(ch.(writing := false)) && Queued(ch.(serving := false))
  {
  }

  lemma ChannelQueued(s: State, id: ConnId)
    requires Inv(s) && id in s.channels
    ensures Queued(s.channels[id])
  {
    hide Queued, Distinct;
  }

  lemma DeliveryKeepsInv(s: State, line: Line)
    requires Inv(s)
    ensures Inv(Delivered(s, line))
  {
    hide Queued, Distinct, Gets, Stays;
    RetainedAre(s.conns, s.channels, line);
    forall id | id in s.channels
      ensures Queued(Delivered(s, line).channels[id])
      ensures Delivered(s, line).channels[id].serving == s.channels[id].serving
    {
      if Gets(s.conns, s.channels, line, id) {
        GetterHasRoom(s.conns, s.channels, line, id);
        PushedIsQueued(s.channels[id], line);
      }
    }
  }

  lemma GetterHasRoom(conns: seq<Conn>, channels: map<ConnId, Channel>, line: Line, id: ConnId)
    requires Gets(conns, channels, line, id)
    ensures id in channels && |channels[id].queue| < OUTBOX_CAPACITY
  {
  }

  lemma SubscriptionKeepsInv(s: State, id: ConnId, topic: Topic, on: bool)
    requires Inv(s)
    ensures Inv(s.(conns := Subscribed(s.conns, id, topic, on)))
  {
    hide Queued;
    SubscribedAre(s.conns, id, topic, on);
    var next := Subscribed(s.conns, id, topic, on);
    forall c | c in next ensures c.id in s.channels && s.channels[c.id].serving {
      var i :| 0 <= i < |next| && next[i] == c;
      assert s.conns[i] in s.conns;
    }
  }

  lemma ChannelKeepsInv(s: State, id: ConnId, ch: Channel)
    requires Inv(s) && id in s.channels && Queued(ch) && ch.serving == s.channels[id].serving
    ensures Inv(s.(channels := s.channels[id := ch]))
  {
    hide Queued, Distinct;
  }

  lemma DistinctSnoc(conns: seq<Conn>, c: Conn)
    requires Distinct(conns) && (forall d :: d in conns ==> d.id != c.id)
    ensures Distinct(conns + [c])
  {
    forall i | 0 <= i < |conns| ensures conns[i].id != c.id {
      assert conns[i] in conns;
    }
  }

  lemma AcceptKeepsInv(s: State, c: Conn, ch: Channel)
    requires Inv(s) && c.id !in s.channels && ch.serving && Queued(ch)
    ensures Inv(State(s.conns + [c], s.channels[c.id := ch]))
  {
    hide Queued, Distinct;
    DistinctSnoc(s.conns, c);
  }

  lemma NewChannel()
    ensures Queued(Channel([], [], true, true))
  {
  }

  lemma HangupKeepsInv(s: State, id: ConnId)
    requires Inv(s) && id in s.channels
    ensures Inv(State(Without(s.conns, id), s.channels[id := s.channels[id].(serving := false)]))
  {
    hide Queued, Distinct;
    StoppedIsQueued(s.channels[id]);
    WithoutAre(s.conns, id);
  }

  lemma StepKeepsInv(s: State, action: Action, s': State)
    requires Inv(s) && Apply(s, action) == Some(s')
    ensures Inv(s')
  {
    hide Queued, Inv, Delivered, Subscribed, Without, Distinct;
    match action
    case Accept(id) =>
      NewChannel();
      AcceptKeepsInv(s, Conn(id, {}), Channel([], [], true, true));
    case Deliver(line) => DeliveryKeepsInv(s, line);
    case Subscribe(id, topic) => SubscriptionKeepsInv(s, id, topic, true);
    case Unsubscribe(id, topic) => SubscriptionKeepsInv(s, id, topic, false);
    case Hangup(id) => HangupKeepsInv(s, id);
    case Respond(id, body) =>
      ChannelQueued(s, id);
      PushedIsQueued(s.channels[id], Response(body));
      ChannelKeepsInv(s, id, s'.channels[id]);
    case Drain(id) =>
      ChannelQueued(s, id);
      DrainedIsQueued(s.channels[id]);
      ChannelKeepsInv(s, id, s'.channels[id]);
    case WriterFails(id) =>
      ChannelQueued(s, id);
      StoppedIsQueued(s.channels[id]);
      ChannelKeepsInv(s, id, s'.channels[id]);
  }

  lemma {:induction false} RunKeepsInv(s: State, actions: seq<Action>, s': State)
    requires Inv(s) && RunFrom(s, actions) == Some(s')
    ensures Inv(s')
    decreases |actions|
  {
    if actions != [] {
      hide Inv, Apply;
      var before := RunFrom(s, actions[..|actions| - 1]).value;
      RunKeepsInv(s, actions[..|actions| - 1], before);
      StepKeepsInv(before, actions[|actions| - 1], s');
    }
  }

  /** In every reachable state the outbox is the newest part of what was
      queued, and never exceeds its capacity. */
  lemma OutboxIsBounded(actions: seq<Action>, s: State, id: ConnId)
    requires RunFrom(INIT, actions) == Some(s) && id in s.channels
    ensures Queued(s.channels[id]) && |s.channels[id].queue| <= 512
  {
    RunKeepsInv(INIT, actions, s);
  }

  // ----- a subscriber gets a gap-free prefix

  /** The publications to one topic, in order. */
  function OnTopic(lines: seq<Line>, topic: Topic): seq<string> {
    if lines == [] then []
    else
      var last := lines[|lines| - 1];
      OnTopic(lines[..|lines| - 1], topic) + (if last.Publication? && last.topic == topic then [last.body] else [])
  }

  function Published(actions: seq<Action>, topic: Topic): seq<string> {
    if actions == [] then []
    else Published(actions[..|actions| - 1], topic) + PublishedBy(actions[|actions| - 1], topic)
  }

  function PublishedBy(action: Action, topic: Topic): seq<string> {
    if action.Deliver? && action.line.Publication? && action.line.topic == topic then [action.line.body] else []
  }

  lemma OnTopicSnoc(lines: seq<Line>, line: Line, topic: Topic)
    ensures OnTopic(lines + [line], topic) ==
      OnTopic(lines, topic) + (if line.Publication? && line.topic == topic then [line.body] else [])
  {
    assert (lines + [line])[..|lines|] == lines;
  }

  function LogOn(s: State, id: ConnId, topic: Topic): seq<string> {
    if id in s.channels then OnTopic(s.channels[id].log, topic) else []
  }

  /** What one step can do to a subscriber: hand it everything published on the
      topic, or drop it; and a dropped connection gets nothing more. */
  ghost predicate Follows(s: State, action: Action, s': State, id: ConnId, topic: Topic) {
    && id in s'.channels
    && (!Registered(s, id) ==> !Registered(s', id) && LogOn(s', id, topic) == LogOn(s, id, topic))
    && (SubscribedTo(s, id, topic) ==>
          (SubscribedTo(s', id, topic) && LogOn(s', id, topic) == LogOn(s, id, topic) + PublishedBy(action, topic))
          || (!Registered(s', id) && LogOn(s', id, topic) == LogOn(s, id, topic)))
  }

  lemma OnlyOne(conns: seq<Conn>, c: Conn, d: Conn)
    requires Distinct(conns) && c in conns && d in conns && c.id == d.id
    ensures c == d
  {
  }

  /** What a delivery does to a registered connection. */
  lemma DeliveryTo(s: State, line: Line, c: Conn, topic: Topic)
    requires Inv(s) && c in s.conns
    ensures Registered(Delivered(s, line), c.id) <==> Stays(c, s.channels, line)
    ensures SubscribedTo(Delivered(s, line), c.id, topic) <==> Stays(c, s.channels, line) && topic in c.subscriptions
    ensures Gets(s.conns, s.channels, line, c.id) <==> Selected(c, line) && Stays(c, s.channels, line)
  {
    hide Stays, Selected, Distinct, Queued;
    RetainedAre(s.conns, s.channels, line);
    forall d | d in s.conns && d.id == c.id ensures d == c {
      OnlyOne(s.conns, c, d);
    }
  }

  lemma DeliveryToNobody(s: State, line: Line, id: ConnId)
    requires !Registered(s, id)
    ensures !Registered(Delivered(s, line), id) && !Gets(s.conns, s.channels, line, id)
  {
    hide Stays, Selected, Distinct;
    RetainedAre(s.conns, s.channels, line);
  }

  lemma DeliverFollows(s: State, line: Line, s': State, id: ConnId, topic: Topic)
    requires Inv(s) && Apply(s, Deliver(line)) == Some(s') && id in s.channels
    ensures Follows(s, Deliver(line), s', id, topic)
  {
    hide Inv, Registered, SubscribedTo, Gets, OnTopic, Retained;
    OnTopicSnoc(s.channels[id].log, line, topic);
    if Registered(s, id) {
      var c := TheConn(s, id);
      DeliveryTo(s, line, c, topic);
      SubscribedTopics(s, c, topic);
    } else {
      DeliveryToNobody(s, line, id);
      UnregisteredHasNoTopics(s, id, topic);
    }
  }

  lemma TheConn(s: State, id: ConnId) returns (c: Conn)
    requires Registered(s, id)
    ensures c in s.conns && c.id == id
  {
    c :| c in s.conns && c.id == id;
  }

  lemma SubscribedTopics(s: State, c: Conn, topic: Topic)
    requires Inv(s) && c in s.conns
    ensures SubscribedTo(s, c.id, topic) <==> topic in c.subscriptions
  {
    hide Queued, Distinct;
    forall d | d in s.conns && d.id == c.id ensures d == c {
      OnlyOne(s.conns, c, d);
    }
  }

  lemma UnregisteredHasNoTopics(s: State, id: ConnId, topic: Topic)
    requires !Registered(s, id)
    ensures !SubscribedTo(s, id, topic)
  {
  }

  /** A step on one channel that queues it no publication. */
  lemma ChannelFollows(s: State, action: Action, other: ConnId, ch: Channel, id: ConnId, topic: Topic)
    requires id in s.channels && other in s.channels && PublishedBy(action, topic) == []
    requires OnTopic(ch.log, topic) == OnTopic(s.channels[other].log, topic)
    ensures Follows(s, action, s.(channels := s.channels[other := ch]), id, topic)
  {
    hide OnTopic;
    var s' := s.(channels := s.channels[other := ch]);
    assert Registered(s, id) <==> Registered(s', id);
    assert SubscribedTo(s, id, topic) <==> SubscribedTo(s', id, topic);
  }

  lemma HangupFollows(s: State, other: ConnId, id: ConnId, topic: Topic)
    requires id in s.channels && other in s.channels
    ensures var ch := s.channels[other].(serving := false);
      Follows(s, Hangup(other), State(Without(s.conns, other), s.channels[other := ch]), id, topic)
  {
    hide OnTopic, Without;
    WithoutAre(s.conns, other);
  }

  lemma AcceptFollows(s: State, other: ConnId, id: ConnId, topic: Topic)
    requires id in s.channels && other !in s.channels
    ensures var ch := Channel([], [], true, true);
      Follows(s, Accept(other), State(s.conns + [Conn(other, {})], s.channels[other := ch]), id, topic)
  {
    hide OnTopic;
    var next := s.conns + [Conn(other, {})];
    assert forall c :: c in next <==> c in s.conns || c == Conn(other, {});
  }

  lemma StepFollows(s: State, action: Action, s': State, id: ConnId, topic: Topic)
    requires Inv(s) && Apply(s, action) == Some(s') && id in s.channels && action != Unsubscribe(id, topic)
    ensures Follows(s, action, s', id, topic)
  {
    hide Inv, OnTopic, Delivered, Subscribed, Without, Registered, SubscribedTo;
    match action
    case Accept(other) => AcceptFollows(s, other, id, topic);
    case Deliver(line) => DeliverFollows(s, line, s', id, topic);
    case Subscribe(other, t) => SubscriptionFollows(s, other, t, true, id, topic);
    case Unsubscribe(other, t) => SubscriptionFollows(s, other, t, false, id, topic);
    case Hangup(other) => HangupFollows(s, other, id, topic);
    case Respond(other, body) =>
      OnTopicSnoc(s.channels[other].log, Response(body), topic);
      ChannelFollows(s, action, other, s'.channels[other], id, topic);
    case Drain(other) => ChannelFollows(s, action, other, s'.channels[other], id, topic);
    case WriterFails(other) => ChannelFollows(s, action, other, s'.channels[other], id, topic);
  }

  lemma SubscriptionFollows(s: State, other: ConnId, t: Topic, on: bool, id: ConnId, topic: Topic)
    requires Inv(s) && id in s.channels && !(other == id && t == topic && !on)
    ensures var s' := s.(conns := Subscribed(s.conns, other, t, on));
      && (Registered(s', id) <==> Registered(s, id))
      && (SubscribedTo(s, id, topic) ==> SubscribedTo(s', id, topic))
  {
    SubscribedAre(s.conns, other, t, on);
    var next := Subscribed(s.conns, other, t, on);
    if Registered(s, id) {
      var i :| 0 <= i < |s.conns| && s.conns[i].id == id;
      assert next[i] in next;
    }
    if c :| c in next && c.id == id {
      var i :| 0 <= i < |next| && next[i] == c;
      assert s.conns[i] in s.conns;
    }
    if SubscribedTo(s, id, topic) {
      var i :| 0 <= i < |s.conns| && s.conns[i].id == id && topic in s.conns[i].subscriptions;
      assert next[i] in next && topic in next[i].subscriptions;
    }
  }

  /** From the moment a connection subscribes to a topic and until it
      unsubscribes, whatever else happens, what it is queued of the topic is a
      gap-free prefix of what is published, and all of it while it stays
      registered. */
  lemma {:induction false} SubscriberGetsPrefix(s: State, more: seq<Action>, s': State, id: ConnId, topic: Topic)
    returns (got: seq<string>)
    requires Inv(s) && SubscribedTo(s, id, topic) && RunFrom(s, more) == Some(s') && Unsubscribe(id, topic) !in more
    ensures LogOn(s', id, topic) == LogOn(s, id, topic) + got && got <= Published(more, topic)
    ensures id in s'.channels
    ensures SubscribedTo(s', id, topic) || !Registered(s', id)
    ensures SubscribedTo(s', id, topic) ==> got == Published(more, topic)
    decreases |more|
  {
    if more == [] {
      got := [];
    } else {
      hide Inv, Apply, LogOn;
      var init, last := more[..|more| - 1], more[|more| - 1];
      var before := RunFrom(s, init).value;
      got := SubscriberGetsPrefix(s, init, before, id, topic);
      RunKeepsInv(s, init, before);
      assert last in more;
      StepFollows(before, last, s', id, topic);
      if SubscribedTo(s', id, topic) && SubscribedTo(before, id, topic) {
        SubscribedIsRegistered(before, id, topic);
        SubscribedIsRegistered(s', id, topic);
        got := got + PublishedBy(last, topic);
      }
    }
  }

  lemma SubscribedIsRegistered(s: State, id: ConnId, topic: Topic)
    requires SubscribedTo(s, id, topic)
    ensures Registered(s, id)
  {
  }

  // ----- who is subscribed

  /** One step: subscribing subscribes a registered connection, unsubscribing ends
      it, and nothing else changes who is, but for who is registered. */
  lemma SubscribesStep(s: State, action: Action, s': State, id: ConnId, topic: Topic)
    requires Inv(s) && Apply(s, action) == Some(s')
    ensures SubscribedTo(s', id, topic) <==>
      Registered(s', id)
      && (action == Subscribe(id, topic) || (SubscribedTo(s, id, topic) && action != Unsubscribe(id, topic)))
    ensures Registered(s', id) ==> Registered(s, id) || action == Accept(id)
    ensures action.Subscribe? || action.Unsubscribe? ==> (Registered(s', id) <==> Registered(s, id))
  {
    hide Queued, Delivered, Subscribed, Without;
    match action
    case Subscribe(other, t) =>
      hide Registered, SubscribedTo;
      SubscriptionIs(s, other, t, true, id, topic);
    case Unsubscribe(other, t) =>
      hide Registered, SubscribedTo;
      SubscriptionIs(s, other, t, false, id, topic);
    case Deliver(line) => DeliverySubscribes(s, line, id, topic);
    case Hangup(other) => WithoutAre(s.conns, other);
    case Accept(other) =>
      assert forall c :: c in s'.conns <==> c in s.conns || c == Conn(other, {});
      assert Conn(other, {}) in s'.conns;
    case _ =>
  }

  lemma DeliverySubscribes(s: State, line: Line, id: ConnId, topic: Topic)
    requires Inv(s)
    ensures SubscribedTo(Delivered(s, line), id, topic) <==>
      Registered(Delivered(s, line), id) && SubscribedTo(s, id, topic)
    ensures Registered(Delivered(s, line), id) ==> Registered(s, id)
  {
    hide Inv, Delivered;
    if Registered(s, id) {
      var c := TheConn(s, id);
      DeliveryTo(s, line, c, topic);
      SubscribedTopics(s, c, topic);
    } else {
      DeliveryToNobody(s, line, id);
      UnregisteredHasNoTopics(s, id, topic);
      UnregisteredHasNoTopics(Delivered(s, line), id, topic);
    }
  }

  lemma SubscriptionIs(s: State, other: ConnId, t: Topic, on: bool, id: ConnId, topic: Topic)
    requires Inv(s)
    ensures var s' := s.(conns := Subscribed(s.conns, other, t, on));
      && (Registered(s', id) <==> Registered(s, id))
      && (SubscribedTo(s', id, topic) <==>
            Registered(s, id) && if other == id && t == topic then on else SubscribedTo(s, id, topic))
  {
    SubscribedAre(s.conns, other, t, on);
    hide Queued, Subscribed;
    var next := Subscribed(s.conns, other, t, on);
    if Registered(s, id) {
      var i :| 0 <= i < |s.conns| && s.conns[i].id == id;
      assert next[i] in next;
      assert next[i].subscriptions == TopicsAfter(s.conns[i], other, t, on);
      forall j | 0 <= j < |next| && (next[j].id == id || s.conns[j].id == id) ensures j == i {
        assert next[j].id == s.conns[j].id;
      }
    } else {
      forall j | 0 <= j < |next| ensures next[j].id != id {
        assert s.conns[j] in s.conns;
      }
    }
  }

  /** Step i is a request to subscribe, by a connection then registered. */
  ghost predicate AsksAt(actions: seq<Action>, i: nat, id: ConnId, topic: Topic) {
    && i < |actions| && actions[i] == Subscribe(id, topic)
    && RunFrom(INIT, actions[..i]).Some? && Registered(RunFrom(INIT, actions[..i]).value, id)
  }

  /** And it has not been taken back. */
  ghost predicate AsksStill(actions: seq<Action>, i: nat, id: ConnId, topic: Topic) {
    AsksAt(actions, i, id, topic) && forall j :: i < j < |actions| ==> actions[j] != Unsubscribe(id, topic)
  }

  /** In every run a connection is subscribed to a topic exactly when it is
      registered and asked for it, while registered, after it last took that back. */
  lemma {:induction false} SubscribedExactlyWhenAsked(actions: seq<Action>, s: State, id: ConnId, topic: Topic)
    requires RunFrom(INIT, actions) == Some(s)
    ensures SubscribedTo(s, id, topic) <==> Registered(s, id) && exists i: nat :: AsksStill(actions, i, id, topic)
  {
    if actions != [] {
      var init, last := actions[..|actions| - 1], actions[|actions| - 1];
      var before := RunFrom(INIT, init).value;
      RunKeepsInv(INIT, init, before);
      SubscribedExactlyWhenAsked(init, before, id, topic);
      hide RunFrom, Apply, Inv, SubscribedTo, Registered;
      SubscribesStep(before, last, s, id, topic);
      AsksOnward(actions, before, s, id, topic);
    }
  }

  ghost predicate Asking(actions: seq<Action>, id: ConnId, topic: Topic) {
    exists i: nat :: AsksStill(actions, i, id, topic)
  }

  /** One more step of the run. */
  lemma AsksOnward(actions: seq<Action>, before: State, s: State, id: ConnId, topic: Topic)
    requires actions != [] && RunFrom(INIT, actions[..|actions| - 1]) == Some(before)
    requires Apply(before, actions[|actions| - 1]) == Some(s)
    requires SubscribedTo(before, id, topic) <==>
      Registered(before, id) && Asking(actions[..|actions| - 1], id, topic)
    requires var last := actions[|actions| - 1];
      && (SubscribedTo(s, id, topic) <==>
            Registered(s, id)
            && (last == Subscribe(id, topic) || (SubscribedTo(before, id, topic) && last != Unsubscribe(id, topic))))
      && (Registered(s, id) ==> Registered(before, id) || last == Accept(id))
      && (last.Subscribe? || last.Unsubscribe? ==> (Registered(s, id) <==> Registered(before, id)))
    ensures SubscribedTo(s, id, topic) <==> Registered(s, id) && Asking(actions, id, topic)
  {
    hide RunFrom, Apply, SubscribedTo, Registered;
    var init, last := actions[..|actions| - 1], actions[|actions| - 1];
    if SubscribedTo(s, id, topic) {
      if last == Subscribe(id, topic) {
        AsksNow(actions, before, id, topic);
      } else {
        var i: nat :| AsksStill(init, i, id, topic);
        AsksLonger(actions, i, id, topic);
      }
    }
    if i: nat :| Registered(s, id) && AsksStill(actions, i, id, topic) {
      if i < |init| {
        AsksLonger(actions, i, id, topic);
        AskedHasChannel(init, before, i, id, topic);
        AcceptIsNew(before, last, id);
      } else {
        AskedNow(actions, i, id, topic);
      }
    }
  }

  lemma AsksNow(actions: seq<Action>, before: State, id: ConnId, topic: Topic)
    requires actions != [] && RunFrom(INIT, actions[..|actions| - 1]) == Some(before) && Registered(before, id)
    requires actions[|actions| - 1] == Subscribe(id, topic)
    ensures AsksStill(actions, |actions| - 1, id, topic)
  {
    hide RunFrom, Registered;
  }

  lemma AskedNow(actions: seq<Action>, i: nat, id: ConnId, topic: Topic)
    requires AsksStill(actions, i, id, topic) && i >= |actions| - 1
    ensures actions != [] && actions[|actions| - 1] == Subscribe(id, topic)
  {
  }

  lemma AcceptIsNew(s: State, action: Action, id: ConnId)
    requires Apply(s, action).Some? && id in s.channels
    ensures action != Accept(id)
  {
    hide Delivered;
  }

  lemma AsksLonger(actions: seq<Action>, i: nat, id: ConnId, topic: Topic)
    requires actions != [] && i < |actions| - 1
    ensures AsksStill(actions, i, id, topic) <==>
      AsksStill(actions[..|actions| - 1], i, id, topic) && actions[|actions| - 1] != Unsubscribe(id, topic)
  {
    hide RunFrom, Registered;
    var init := actions[..|actions| - 1];
    assert init[..i] == actions[..i];
    assert forall j :: 0 <= j < |init| ==> init[j] == actions[j];
  }

  lemma {:induction false} AskedHasChannel(actions: seq<Action>, s: State, i: nat, id: ConnId, topic: Topic)
    requires RunFrom(INIT, actions) == Some(s) && AsksAt(actions, i, id, topic)
    ensures id in s.channels
    decreases |actions|
  {
    var init, last := actions[..|actions| - 1], actions[|actions| - 1];
    var before := RunFrom(INIT, init).value;
    RunKeepsInv(INIT, init, before);
    if i < |actions| - 1 {
      assert init[..i] == actions[..i];
      AskedHasChannel(init, before, i, id, topic);
    } else {
      assert id in before.channels;
    }
    StepThreads(before, last, s, id);
  }

  lemma {:induction false} RunCons(s: State, action: Action, mid: State, more: seq<Action>)
    requires Apply(s, action) == Some(mid)
    ensures RunFrom(s, [action] + more) == RunFrom(mid, more)
    decreases |more|
  {
    hide Apply;
    var run := [action] + more;
    if more == [] {
      assert run[..0] == [] && run[0] == action;
      assert RunFrom(s, run[..|run| - 1]) == Some(s);
    } else {
      RunCons(s, action, mid, more[..|more| - 1]);
      assert run[..|run| - 1] == [action] + more[..|more| - 1];
    }
  }

  /** Without asking for a topic, a connection is queued none of it. */
  lemma {:induction false} UnaskedGetsNothing(s: State, more: seq<Action>, s': State, id: ConnId, topic: Topic)
    requires Inv(s) && !SubscribedTo(s, id, topic) && RunFrom(s, more) == Some(s') && Subscribe(id, topic) !in more
    ensures !SubscribedTo(s', id, topic) && LogOn(s', id, topic) == LogOn(s, id, topic)
    decreases |more|
  {
    if more != [] {
      hide Inv, Apply, LogOn, SubscribedTo, Registered;
      var init, last := more[..|more| - 1], more[|more| - 1];
      var before := RunFrom(s, init).value;
      UnaskedGetsNothing(s, init, before, id, topic);
      RunKeepsInv(s, init, before);
      assert last in more;
      SubscribesStep(before, last, s', id, topic);
      UnaskedStep(before, last, s', id, topic);
    }
  }

  lemma UnaskedStep(s: State, action: Action, s': State, id: ConnId, topic: Topic)
    requires Inv(s) && Apply(s, action) == Some(s') && !SubscribedTo(s, id, topic)
    ensures LogOn(s', id, topic) == LogOn(s, id, topic)
  {
    hide Queued, Subscribed, Without, Retained, OnTopic;
    match action
    case Deliver(line) =>
      if id in s.channels {
        OnTopicSnoc(s.channels[id].log, line, topic);
      }
    case Respond(other, body) => OnTopicSnoc(s.channels[other].log, Response(body), topic);
    case Accept(other) => assert OnTopic([], topic) == [] by { NoneOnTopic(topic); }
    case _ =>
  }

  lemma NoneOnTopic(topic: Topic)
    ensures OnTopic([], topic) == []
  {
  }

  /** From the request to subscribe on, by a registered connection: what it is queued
      of the topic is a gap-free prefix of what is published, and all of it while it
      stays registered; and before its first request it was queued nothing of it. */
  lemma SubscribingGetsPrefix(actions: seq<Action>, s: State, more: seq<Action>, s': State, id: ConnId, topic: Topic)
    returns (got: seq<string>)
    requires RunFrom(INIT, actions) == Some(s) && Registered(s, id)
    requires RunFrom(s, [Subscribe(id, topic)] + more) == Some(s') && Unsubscribe(id, topic) !in more
    ensures LogOn(s', id, topic) == LogOn(s, id, topic) + got && got <= Published(more, topic)
    ensures Registered(s', id) ==> got == Published(more, topic)
    ensures Subscribe(id, topic) !in actions ==> LogOn(s, id, topic) == []
    ensures id in s'.channels
  {
    RunKeepsInv(INIT, actions, s);
    var mid := Apply(s, Subscribe(id, topic)).value;
    assert LogOn(mid, id, topic) == LogOn(s, id, topic);
    assert LogOn(INIT, id, topic) == [] && !SubscribedTo(INIT, id, topic);
    if Subscribe(id, topic) !in actions {
      UnaskedGetsNothing(INIT, actions, s, id, topic);
    }
    SubscribesStep(s, Subscribe(id, topic), mid, id, topic);
    StepKeepsInv(s, Subscribe(id, topic), mid);
    RunCons(s, Subscribe(id, topic), mid, more);
    got := SubscriberGetsPrefix(mid, more, s', id, topic);
  }

  /** What a delivery is, connection by connection: a broadcast is for everyone
      registered, a publication for who is subscribed; they are queued it, last, if
      they have room, and are unregistered if not. Everyone else keeps what they
      have. */
  lemma DeliveryIs(s: State, line: Line, s': State, id: ConnId)
    requires Inv(s) && Apply(s, Deliver(line)) == Some(s') && id in s.channels
    ensures id in s'.channels
    ensures var ch := s.channels[id];
      if Registered(s, id) && (line.Broadcast? || SubscribedTo(s, id, line.topic)) then
        if ch.writing && |ch.queue| < 512 then
          Registered(s', id) && s'.channels[id] == ch.(queue := ch.queue + [line], log := ch.log + [line])
        else !Registered(s', id) && s'.channels[id] == ch
      else (Registered(s', id) <==> Registered(s, id)) && s'.channels[id] == ch
  {
    hide Inv, Gets, Retained;
    if Registered(s, id) {
      var c := TheConn(s, id);
      DeliveryTo(s, line, c, "");
      if line.Publication? {
        SubscribedTopics(s, c, line.topic);
      }
      hide Registered, SubscribedTo;
      assert c.id in s.channels by {
        ConnHasChannel(s, c);
      }
    } else {
      DeliveryToNobody(s, line, id);
    }
  }

  lemma ConnHasChannel(s: State, c: Conn)
    requires Inv(s) && c in s.conns
    ensures c.id in s.channels
  {
  }

  /** A connection with a new id can come at any time, publications, broadcasts and
      subscriptions too; a line is drained while there is one and a writer, a response
      queued while there is room, and a served connection can fail or hang up. */
  lemma StepsCanRun(s: State, id: ConnId, topic: Topic, line: Line, body: string)
    ensures Apply(s, Accept(id)).Some? <==> id !in s.channels
    ensures Apply(s, Subscribe(id, topic)).Some? && Apply(s, Unsubscribe(id, topic)).Some?
    ensures Apply(s, Deliver(line)).Some? <==> !line.Response?
    ensures id in s.channels ==>
      var ch := s.channels[id];
      && Apply(s, WriterFails(id)).Some?
      && (Apply(s, Drain(id)).Some? <==> ch.writing && ch.queue != [])
      && (Apply(s, Respond(id, body)).Some? <==> ch.serving && ch.writing && |ch.queue| < 512)
      && (Apply(s, Hangup(id)).Some? <==> ch.serving)
  {
    hide Delivered, Subscribed, Without;
  }

  /** What waits in the outbox is written in order: draining takes the first line, and
      a response goes to the end. */
  lemma OutboxIsAQueue(s: State, id: ConnId, body: string)
    requires id in s.channels
    ensures var drained, ch := Apply(s, Drain(id)), s.channels[id];
      drained.Some? ==> drained.value == s.(channels := s.channels[id := ch.(queue := ch.queue[1..])])
    ensures var answered, ch := Apply(s, Respond(id, body)), s.channels[id];
      answered.Some? ==>
        var line := Response(body);
        answered.value ==
          s.(channels := s.channels[id := ch.(queue := ch.queue + [line], log := ch.log + [line])])
  {
  }

  lemma RunsGoOn(s: State, actions: seq<Action>, a: Action)
    ensures RunFrom(s, []) == Some(s)
    ensures RunFrom(s, actions).Some? ==> RunFrom(s, actions + [a]) == Apply(RunFrom(s, actions).value, a)
  {
    hide Apply;
    assert (actions + [a])[..|actions|] == actions;
  }

  // ----- falling behind

  /** The client reads end of stream once no sender is left. */
  predicate StreamEnded(s: State, id: ConnId) {
    id in s.channels && !Registered(s, id) && !s.channels[id].serving
  }

  /** A delivery unregisters a selected connection exactly when its outbox is
      full or its writer is gone. */
  lemma DroppedExactlyWhenFull(s: State, line: Line, c: Conn)
    requires Inv(s) && c in s.conns && !line.Response?
    ensures !Registered(Delivered(s, line), c.id) <==>
            Selected(c, line) && (!s.channels[c.id].writing || |s.channels[c.id].queue| >= OUTBOX_CAPACITY)
  {
    DeliveryTo(s, line, c, "");
  }

  /** The socket is shut: by the writer after a failed write, or for want of
      senders. */
  predicate SocketShut(s: State, id: ConnId) {
    id in s.channels && (!s.channels[id].writing || StreamEnded(s, id))
  }

  /** Over whole runs: only its own hang-up ends a stream, and only that or a failed
      write shuts a socket, however often the client was dropped for falling
      behind. */
  lemma {:induction false} SocketShutExactlyWhenOver(actions: seq<Action>, s: State, id: ConnId)
    requires RunFrom(INIT, actions) == Some(s)
    ensures StreamEnded(s, id) <==> Hangup(id) in actions
    ensures SocketShut(s, id) <==> Hangup(id) in actions || WriterFails(id) in actions
  {
    if actions != [] {
      hide Inv;
      var init, last := actions[..|actions| - 1], actions[|actions| - 1];
      var before := RunFrom(INIT, init).value;
      SocketShutExactlyWhenOver(init, before, id);
      RunKeepsInv(INIT, init, before);
      StepShuts(before, last, s, id);
      hide Apply, RunFrom, StreamEnded, SocketShut;
      assert actions == init + [last];
    }
  }

  lemma EndedIsUnserved(s: State, id: ConnId)
    requires Inv(s)
    ensures StreamEnded(s, id) <==> id in s.channels && !s.channels[id].serving
  {
    hide Queued;
  }

  predicate Writing(s: State, id: ConnId) {
    id in s.channels && s.channels[id].writing
  }

  predicate Serving(s: State, id: ConnId) {
    id in s.channels && s.channels[id].serving
  }

  /** What one step does to a channel's two threads. */
  lemma StepThreads(s: State, action: Action, s': State, id: ConnId)
    requires Apply(s, action) == Some(s')
    ensures id in s'.channels <==> id in s.channels || action == Accept(id)
    ensures Serving(s', id) <==> (Serving(s, id) || action == Accept(id)) && action != Hangup(id)
    ensures Writing(s', id) <==> (Writing(s, id) || action == Accept(id)) && action != WriterFails(id)
  {
    hide Gets, Retained, Without, Subscribed;
    if action.Deliver? {
      assert s' == Delivered(s, action.line);
      hide Apply;
    }
  }

  lemma StepShuts(s: State, action: Action, s': State, id: ConnId)
    requires Inv(s) && Apply(s, action) == Some(s')
    ensures StreamEnded(s', id) <==> StreamEnded(s, id) || action == Hangup(id)
    ensures SocketShut(s', id) <==> SocketShut(s, id) || action == Hangup(id) || action == WriterFails(id)
  {
    StepKeepsInv(s, action, s');
    EndedIsUnserved(s, id);
    EndedIsUnserved(s', id);
    StepThreads(s, action, s', id);
    StepApplies(s, action, id);
    hide Inv, StreamEnded, Apply;
  }

  lemma StepApplies(s: State, action: Action, id: ConnId)
    requires Apply(s, action).Some?
    ensures action == Accept(id) ==> id !in s.channels
    ensures action == Hangup(id) || action == WriterFails(id) ==> id in s.channels
  {
    hide Delivered, Without, Subscribed;
  }

  /** Once dropped it is queued no further publication. */
  lemma {:induction false} DroppedGetsNothing(s: State, more: seq<Action>, s': State, id: ConnId, topic: Topic)
    requires Inv(s) && id in s.channels && !Registered(s, id) && RunFrom(s, more) == Some(s')
    ensures id in s'.channels && !Registered(s', id) && LogOn(s', id, topic) == LogOn(s, id, topic)
    decreases |more|
  {
    if more != [] {
      hide Inv, LogOn;
      var init, last := more[..|more| - 1], more[|more| - 1];
      var before := RunFrom(s, init).value;
      DroppedGetsNothing(s, init, before, id, topic);
      RunKeepsInv(s, init, before);
      if last == Unsubscribe(id, topic) {
        UnregisteredStays(before, id, topic);
      } else {
        StepFollows(before, last, s', id, topic);
      }
    }
  }

  lemma UnregisteredStays(s: State, id: ConnId, topic: Topic)
    requires Inv(s) && !Registered(s, id)
    ensures !Registered(s.(conns := Subscribed(s.conns, id, topic, false)), id)
  {
    SubscribedAre(s.conns, id, topic, false);
    var next := Subscribed(s.conns, id, topic, false);
    forall c | c in next ensures c.id != id {
      var i :| 0 <= i < |next| && next[i] == c;
      assert s.conns[i] in s.conns;
    }
  }
}
