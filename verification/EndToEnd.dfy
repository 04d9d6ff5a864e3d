/** From the session to the viewer's grid: what the session publishes goes through
    the connection's outbox, over the wire, into the client's queue and out to the
    viewer, and the viewer's pictures are the session's.

    How a line is written and read again is an input; what is asked of it is that
    reading undoes writing. */
module EndToEnd {
  import opened Sequences
  import opened Viewer
  import opened Wire
  import opened Wrappers
  import Client
  import Replication
  import Server

  /** `write` puts a line on the wire; `read` finds the topic and the body of a
      notification; `output` the screen output in a body, if that is what it is. */
  datatype Codec = Codec(write: Server.Line -> Client.Item, read: Client.Message -> Option<(Server.Topic, string)>,
                         output: string -> Option<Delta>)

  /** Reading undoes writing: a publication arrives as a notification of its topic
      and body, a broadcast as one of no topic, a response as no notification. */
  ghost predicate Faithful(codec: Codec) {
    forall line :: FaithfulOn(codec, line)
  }

  ghost predicate FaithfulOn(codec: Codec, line: Server.Line) {
    match line
    case Publication(topic, body) =>
      && |Client.Note(codec.write(line))| == 1
      && codec.read(Client.Note(codec.write(line))[0]) == Some((topic, body))
    case Broadcast(_) =>
      && |Client.Note(codec.write(line))| == 1
      && codec.read(Client.Note(codec.write(line))[0]) == None
    case Response(_) => Client.Note(codec.write(line)) == []
  }

  /** Such a codec there is: the topic as the method, the body as its parameters. */
  lemma FaithfulCodecExists(output: string -> Option<Delta>) returns (codec: Codec)
    ensures Faithful(codec) && codec.output == output
  {
    codec := Codec(
      (line: Server.Line) =>
        match line
        case Publication(topic, body) => Client.Arrived(Client.Request(None, topic, Some(body)))
        case Broadcast(body) => Client.Arrived(Client.Request(None, body, None))
        case Response(body) => Client.Arrived(Client.Message.Response(None, Some(body), None)),
      (m: Client.Message) => if m.Request? && m.params.Some? then Some((m.name, m.params.value)) else None,
      output);
    forall line ensures FaithfulOn(codec, line) {
    }
  }

  // ----- the wire

  /** What the writer has taken from the outbox. */
  function Drained(ch: Server.Channel): seq<Server.Line>
    requires |ch.queue| <= |ch.log|
  {
    ch.log[..|ch.log| - |ch.queue|]
  }

  function Written(codec: Codec, lines: seq<Server.Line>): (items: seq<Client.Item>)
    ensures |items| == |lines|
  {
    seq(|lines|, i requires 0 <= i < |lines| => codec.write(lines[i]))
  }

  /** The bodies of one topic among notifications, in order. */
  function Bodies(codec: Codec, notes: seq<Client.Message>, topic: Server.Topic): seq<string> {
    if notes == [] then []
    else
      var last := codec.read(notes[|notes| - 1]);
      Bodies(codec, notes[..|notes| - 1], topic)
      + if last.Some? && last.value.0 == topic then [last.value.1] else []
  }

  lemma {:induction false} BodiesConcat(codec: Codec, a: seq<Client.Message>, b: seq<Client.Message>,
      topic: Server.Topic)
    ensures Bodies(codec, a + b, topic) == Bodies(codec, a, topic) + Bodies(codec, b, topic)
    decreases |b|
  {
    if b == [] {
      assert a + b == a;
    } else {
      BodiesConcat(codec, a, b[..|b| - 1], topic);
      assert (a + b)[..|a + b| - 1] == a + b[..|b| - 1];
    }
  }

  /** What is read of a topic is what was queued of it. */
  lemma {:induction false} WireKeepsTopics(codec: Codec, lines: seq<Server.Line>, topic: Server.Topic)
    requires Faithful(codec)
    ensures Bodies(codec, Client.Notes(Written(codec, lines)), topic) == Server.OnTopic(lines, topic)
  {
    hide *;
    if lines == [] {
      NoLines(codec, topic);
    } else {
      var init, last := lines[..|lines| - 1], lines[|lines| - 1];
      assert lines == init + [last];
      WireKeepsTopics(codec, init, topic);
      WireSnoc(codec, init, last, topic);
    }
  }

  lemma WireSnoc(codec: Codec, init: seq<Server.Line>, last: Server.Line, topic: Server.Topic)
    requires Faithful(codec)
    requires Bodies(codec, Client.Notes(Written(codec, init)), topic) == Server.OnTopic(init, topic)
    ensures Bodies(codec, Client.Notes(Written(codec, init + [last])), topic) == Server.OnTopic(init + [last], topic)
  {
    hide *;
    var before, item := Written(codec, init), codec.write(last);
    WrittenSnoc(codec, init, last);
    Client.NotesConcat(before, [item]);
    OneNote(item);
    BodiesConcat(codec, Client.Notes(before), Client.Note(item), topic);
    OneLine(codec, last, topic);
    Server.OnTopicSnoc(init, last, topic);
  }

  lemma WrittenSnoc(codec: Codec, init: seq<Server.Line>, last: Server.Line)
    ensures Written(codec, init + [last]) == Written(codec, init) + [codec.write(last)]
  {
  }

  lemma NoLines(codec: Codec, topic: Server.Topic)
    ensures Bodies(codec, Client.Notes(Written(codec, [])), topic) == Server.OnTopic([], topic)
  {
    assert Written(codec, []) == [];
  }

  lemma OneNote(item: Client.Item)
    ensures Client.Notes([item]) == Client.Note(item)
  {
    assert Client.Notes([]) == [];
    hide Client.Note;
  }

  lemma OneLine(codec: Codec, line: Server.Line, topic: Server.Topic)
    requires Faithful(codec)
    ensures Bodies(codec, Client.Note(codec.write(line)), topic) ==
      if line.Publication? && line.topic == topic then [line.body] else []
  {
    assert FaithfulOn(codec, line);
    hide Client.Note, Faithful;
    var notes := Client.Note(codec.write(line));
    assert Bodies(codec, [], topic) == [];
    if |notes| == 1 {
      assert notes[..0] == [];
    }
  }

  // ----- the viewer's side

  /** The screen output among bodies, in order. */
  function Outputs(codec: Codec, bodies: seq<string>): seq<Delta> {
    if bodies == [] then []
    else
      var last := codec.output(bodies[|bodies| - 1]);
      Outputs(codec, bodies[..|bodies| - 1]) + if last.Some? then [last.value] else []
  }

  lemma {:induction false} OutputsGrow(codec: Codec, bodies: seq<string>, more: seq<string>)
    ensures Outputs(codec, bodies) <= Outputs(codec, bodies + more)
    decreases |more|
  {
    if more == [] {
      assert bodies + more == bodies;
    } else {
      var all := bodies + more;
      OutputsGrow(codec, bodies, more[..|more| - 1]);
      assert all[..|all| - 1] == bodies + more[..|more| - 1];
    }
  }

  lemma OutputsOfPrefix(codec: Codec, bodies: seq<string>, all: seq<string>)
    requires bodies <= all
    ensures Outputs(codec, bodies) <= Outputs(codec, all)
  {
    OutputsGrow(codec, bodies, all[|bodies|..]);
    assert bodies + all[|bodies|..] == all;
  }

  /** What the client has handed out of a topic is the first part of what was
      queued to its connection. */
  lemma ClientGetsPrefix(codec: Codec, ch: Server.Channel, ops: seq<Client.Operation>, topic: Server.Topic)
    requires Faithful(codec) && Server.Queued(ch)
    ensures var start := Client.State(Written(codec, Drained(ch)), [], 1);
      Bodies(codec, Client.Returned(start, ops), topic) <= Server.OnTopic(ch.log, topic)
    ensures var start := Client.State(Written(codec, Drained(ch)), [], 1);
      ch.queue == [] && Client.Returned(start, ops) == Client.Notes(start.incoming) ==>
        Bodies(codec, Client.Returned(start, ops), topic) == Server.OnTopic(ch.log, topic)
  {
    hide *;
    LogIsDrainedAndQueued(ch);
    var lines := Drained(ch);
    var start := Client.State(Written(codec, lines), [], 1);
    var returned := Client.Returned(start, ops);
    var rest := ReturnedFirst(start, ops);
    WireKeepsTopics(codec, lines, topic);
    BodiesConcat(codec, returned, rest, topic);
    TopicConcat(lines, ch.queue, topic);
    NothingQueued(lines, ch, topic);
    Prefixes(Bodies(codec, returned, topic), Bodies(codec, rest, topic), Server.OnTopic(ch.queue, topic));
  }

  lemma Prefixes<T>(a: seq<T>, b: seq<T>, c: seq<T>)
    ensures a <= a + b + c
  {
  }

  /** The notifications handed out come first among all that were read or will be. */
  lemma ReturnedFirst(start: Client.State, ops: seq<Client.Operation>) returns (rest: seq<Client.Message>)
    requires start.pending == []
    ensures Client.Notes(start.incoming) == Client.Returned(start, ops) + rest
  {
    hide *;
    var end := Client.Run(start, ops);
    var read := Client.NotificationsAreConserved(start, ops);
    TookIs(start, read, end);
    Client.NotesConcat(read, end.incoming);
    rest := end.pending + Client.Notes(end.incoming);
    assert start.pending + Client.Notes(read) == Client.Notes(read);
    Associate(Client.Returned(start, ops), end.pending, Client.Notes(end.incoming));
  }

  lemma TookIs(s: Client.State, read: seq<Client.Item>, s': Client.State)
    requires Client.Took(s, read, s')
    ensures s.incoming == read + s'.incoming
  {
  }

  lemma LogIsDrainedAndQueued(ch: Server.Channel)
    requires Server.Queued(ch)
    ensures |ch.queue| <= |ch.log| && ch.log == Drained(ch) + ch.queue
  {
  }

  lemma NothingQueued(lines: seq<Server.Line>, ch: Server.Channel, topic: Server.Topic)
    requires ch.log == lines + ch.queue
    ensures ch.queue == [] ==> Server.OnTopic(ch.log, topic) == Server.OnTopic(lines, topic)
  {
    assert lines + [] == lines;
  }

  lemma {:induction false} TopicConcat(a: seq<Server.Line>, b: seq<Server.Line>, topic: Server.Topic)
    ensures Server.OnTopic(a + b, topic) == Server.OnTopic(a, topic) + Server.OnTopic(b, topic)
    decreases |b|
  {
    if b == [] {
      assert a + b == a;
    } else {
      TopicConcat(a, b[..|b| - 1], topic);
      assert (a + b)[..|a + b| - 1] == a + b[..|b| - 1];
    }
  }

  // ----- end to end

  /** One viewer's connection: what the daemon did before and since it subscribed to
      the session's topic, and what the client did with what arrived. */
  datatype Connection = Connection(id: Server.ConnId, topic: Server.Topic, past: seq<Server.Action>, from: Server.State,
                                   more: seq<Server.Action>, now: Server.State, ops: seq<Client.Operation>)

  /** After some past in which it did not ask for the topic, a registered connection
      subscribes to it, and has not unsubscribed since. */
  ghost predicate Watching(c: Connection) {
    && Server.RunFrom(Server.INIT, c.past) == Some(c.from) && Server.Registered(c.from, c.id)
    && Server.Subscribe(c.id, c.topic) !in c.past
    && Server.RunFrom(c.from, [Server.Subscribe(c.id, c.topic)] + c.more) == Some(c.now)
    && Server.Unsubscribe(c.id, c.topic) !in c.more
    && c.id in c.now.channels && Server.Queued(c.now.channels[c.id])
  }

  function ClientStart(codec: Codec, c: Connection): Client.State
    requires c.id in c.now.channels && Server.Queued(c.now.channels[c.id])
  {
    Client.State(Written(codec, Drained(c.now.channels[c.id])), [], 1)
  }

  /** The deltas the client has handed to the viewer. */
  function Received(codec: Codec, c: Connection): seq<Delta>
    requires c.id in c.now.channels && Server.Queued(c.now.channels[c.id])
  {
    Outputs(codec, Bodies(codec, Client.Returned(ClientStart(codec, c), c.ops), c.topic))
  }

  /** Nothing is under way: still registered, the outbox drained, and every
      notification handed out. */
  ghost predicate Delivered(codec: Codec, c: Connection)
    requires c.id in c.now.channels && Server.Queued(c.now.channels[c.id])
  {
    && Server.Registered(c.now, c.id) && c.now.channels[c.id].queue == []
    && Client.Returned(ClientStart(codec, c), c.ops) == Client.Notes(ClientStart(codec, c).incoming)
  }

  /** What reaches the viewer is the first part of what was published, and all of
      it once nothing is under way. */
  lemma ViewerGetsPrefix(codec: Codec, c: Connection)
    requires Faithful(codec) && Watching(c)
    ensures Received(codec, c) <= Outputs(codec, Server.Published(c.more, c.topic))
    ensures Delivered(codec, c) ==> Received(codec, c) == Outputs(codec, Server.Published(c.more, c.topic))
  {
    var got := Server.SubscribingGetsPrefix(c.past, c.from, c.more, c.now, c.id, c.topic);
    var ch := c.now.channels[c.id];
    assert Server.LogOn(c.now, c.id, c.topic) == Server.OnTopic(ch.log, c.topic);
    ClientGetsPrefix(codec, ch, c.ops, c.topic);
    var bodies := Bodies(codec, Client.Returned(ClientStart(codec, c), c.ops), c.topic);
    assert [] + got == got;
    OutputsOfPrefix(codec, bodies, got);
    OutputsOfPrefix(codec, got, Server.Published(c.more, c.topic));
  }

  /** The screen output published since the connection subscribed is what the
      session sent since the viewer attached. */
  ghost predicate Publishes(codec: Codec, c: Connection, link: Replication.Link) {
    link.Attached? && Outputs(codec, Server.Published(c.more, c.topic)) == link.sent
  }

  /** Whatever the interleaving of publications, other traffic, drains, calls and
      requests for notifications: with no flush between the snapshot and the
      subscription of its attach, the viewer at every moment shows a snapshot the
      session had, the one its last delta was made of, or the one it attached to. */
  lemma ViewerShowsASnapshot(codec: Codec, c: Connection, snap: Snapshot, actions: seq<Replication.Action>,
      s: Replication.State)
    returns (k: nat)
    requires Faithful(codec) && Watching(c) && Publishes(codec, c, s.link)
    requires Shaped(snap) && Replication.Run(snap, actions) == Some(s) && Replication.WindowFlushes(snap, actions) == 0
    ensures k <= |s.link.sent| == |s.link.shown| && Received(codec, c) == s.link.sent[..k]
    ensures Replication.Had(snap, actions, if k == 0 then s.link.at else s.link.shown[k - 1])
    ensures var p := Replication.Watched(s.link.reply, Received(codec, c));
      if k == 0 then Draws(p, s.link.at, 0) else Draws(p, s.link.shown[k - 1], s.link.sent[k - 1].number)
  {
    ViewerGetsPrefix(codec, c);
    Replication.QuietWindowIsExact(snap, actions, s);
    Replication.ViewerShowsUpToOwed(snap, actions, s, 0);
    Replication.ShownWasHad(snap, actions, s);
    hide Faithful, Watching, Received, Replication.Run, Replication.WindowFlushes, Replication.Watched, Draws,
      Outputs, Server.Published;
    hide Replication.Inv;
    var received := Received(codec, c);
    k := |received|;
    assert received == s.link.sent[..k];
    if k > 0 {
      assert Replication.ExactAt(s.link, k - 1);
    }
  }

  /** And once nothing is under way and nothing damaged is left to flush, it shows
      the session as it is now. */
  lemma ViewerCatchesUp(codec: Codec, c: Connection, snap: Snapshot, actions: seq<Replication.Action>,
      s: Replication.State)
    requires Faithful(codec) && Watching(c) && Publishes(codec, c, s.link) && Delivered(codec, c)
    requires Shaped(snap) && Replication.Run(snap, actions) == Some(s) && Replication.WindowFlushes(snap, actions) == 0
    requires Replication.Clean(s.session.pending)
    ensures Draws(Replication.Watched(s.link.reply, Received(codec, c)), s.session.snap,
                  if s.link.sent == [] then 0 else s.session.number)
  {
    ViewerGetsPrefix(codec, c);
    hide Faithful, Watching, Received, Replication.Watched, Draws, Outputs, Server.Published, Delivered;
    Replication.CaughtUp(snap, actions, s);
  }
}
