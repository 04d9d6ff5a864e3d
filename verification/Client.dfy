/** The client half of the socket: sequential calls, with the notifications that
    arrive meanwhile put aside for later. */
module Client {
  import opened Sequences
  import opened Wrappers

  // A JSON value, as its text.
  type Value = string

  const NULL: Value := "null"

  datatype Id = Number(n: nat) | Name(s: string)

  datatype RpcError = RpcError(code: int, message: string)

  datatype Message =
    | Response(id: Option<Id>, result: Option<Value>, error: Option<RpcError>)
    | Request(reqId: Option<Id>, name: string, params: Option<Value>)

  /** One read from the socket: a message, or a line that does not parse or an
      I/O error. The end of the sequence is the end of the stream. */
  datatype Item = Arrived(message: Message) | Broken(detail: string)

  datatype CallError = Remote(error: RpcError) | Closed | Io(detail: string)

  const ID_RANGE := 0x1_0000_0000_0000_0000

  datatype State = State(incoming: seq<Item>, pending: seq<Message>, nextId: nat)

  // ----- what a call does

  predicate IsNotification(m: Message) {
    m.Request? && m.reqId.None?
  }

  function Note(item: Item): seq<Message> {
    if item.Arrived? && IsNotification(item.message) then [item.message] else []
  }

  /** The notifications among what was read, in order. */
  function Notes(items: seq<Item>): seq<Message> {
    if items == [] then [] else Note(items[0]) + Notes(items[1..])
  }

  function ValueOf(result: Option<Value>): Value {
    if result.Some? then result.value else NULL
  }

  /** What an item means to a call waiting for `id`; None: keep reading. */
  function Verdict(item: Item, id: nat): Option<Result<Value, CallError>> {
    match item
    case Broken(detail) => Some(Err(Io(detail)))
    case Arrived(m) =>
      if m.Request? then None
      else if m.error.Some? && m.id == Some(Number(id)) then Some(Err(Remote(m.error.value)))
      else if m.id == Some(Number(id)) then Some(Ok(ValueOf(m.result)))
      else if m.error.Some? then Some(Err(Remote(m.error.value)))
      else None
  }

  /** How many items a call reads: up to and including the first that decides. */
  function Reads(incoming: seq<Item>, id: nat): (k: nat)
    ensures k <= |incoming|
  {
    if incoming == [] then 0
    else if Verdict(incoming[0], id).Some? then 1
    else 1 + Reads(incoming[1..], id)
  }

  function Answer(incoming: seq<Item>, id: nat): Result<Value, CallError> {
    if incoming == [] then Err(Closed)
    else if Verdict(incoming[0], id).Some? then Verdict(incoming[0], id).value
    else Answer(incoming[1..], id)
  }

  lemma OneRead(incoming: seq<Item>, id: nat)
    ensures incoming == [] ==> Reads(incoming, id) == 0 && Answer(incoming, id) == Err(Closed)
    ensures incoming != [] && Verdict(incoming[0], id).Some? ==>
      Reads(incoming, id) == 1 && Answer(incoming, id) == Verdict(incoming[0], id).value
    ensures incoming != [] && Verdict(incoming[0], id).None? ==>
      Reads(incoming, id) == 1 + Reads(incoming[1..], id) && Answer(incoming, id) == Answer(incoming[1..], id)
  {
  }

  function Called(s: State, sent: bool): State {
    var next := (s.nextId + 1) % ID_RANGE;
    if !sent then State(s.incoming, s.pending, next)
    else
      var k := Reads(s.incoming, s.nextId);
      State(s.incoming[k..], s.pending + Notes(s.incoming[..k]), next)
  }

  // ----- what asking for a notification does

  function Skips(incoming: seq<Item>): (k: nat)
    ensures k <= |incoming|
  {
    if incoming == [] then 0
    else if incoming[0].Broken? || IsNotification(incoming[0].message) then 1
    else 1 + Skips(incoming[1..])
  }

  function Asked(s: State): State {
    if s.pending != [] then State(s.incoming, s.pending[1..], s.nextId)
    else State(s.incoming[Skips(s.incoming)..], [], s.nextId)
  }

  /** The notification handed to the caller, if there was one. */
  function Handed(s: State): seq<Message> {
    if s.pending != [] then [s.pending[0]] else Notes(s.incoming[..Skips(s.incoming)])
  }

  // ----- the connection: the stream, the queue and the next id

  /** A notification goes to the end of the queue. */
  lemma QueuesNote(before: seq<Message>, notes: seq<Message>, item: Item)
    ensures before + (notes + Note(item)) ==
      before + notes + if item.Arrived? && IsNotification(item.message) then [item.message] else []
  {
  }

  class Client {
    var incoming: seq<Item>
    var pending: seq<Message>
    var nextId: nat

    ghost function View(): State
      reads this
    {
      State(incoming, pending, nextId)
    }

    constructor (stream: seq<Item>)
      ensures View() == State(stream, [], 1)
    {
      incoming, pending, nextId := stream, [], 1;
    }

    /** `sent` says whether writing the request succeeded. */
    method Call(sent: bool) returns (r: Result<Value, CallError>)
      modifies this
      ensures View() == Called(old(View()), sent)
      ensures if sent then r == Answer(old(incoming), old(nextId)) else r.Err?
    {
      assert Notes([]) == [];
      hide Notes, Note, Reads, Answer, ValueOf;
      ghost var was := View();
      var id := nextId;
      nextId := (nextId + 1) % ID_RANGE;
      if !sent {
        return Err(Io("write"));
      }
      ghost var k := 0;
      while incoming != []
        invariant k <= |was.incoming| && incoming == was.incoming[k..]
        invariant nextId == (was.nextId + 1) % ID_RANGE
        invariant pending == was.pending + Notes(was.incoming[..k])
        invariant Reads(was.incoming, id) == k + Reads(incoming, id)
        invariant Answer(was.incoming, id) == Answer(incoming, id)
        decreases |incoming|
      {
        var item := incoming[0];
        NotesSnoc(was.incoming, k);
        QueuesNote(was.pending, Notes(was.incoming[..k]), item);
        OneRead(incoming, id);
        FromHere(was.incoming, k);
        incoming, k := incoming[1..], k + 1;
        match item
        case Broken(detail) => return Err(Io(detail));
        case Arrived(Response(rid, result, error)) =>
          if rid == Some(Number(id)) {
            if error.Some? {
              return Err(Remote(error.value));
            }
            return Ok(ValueOf(result));
          }
          if error.Some? {
            return Err(Remote(error.value));
          }
        case Arrived(Request(rid, name, params)) =>
          if rid.None? {
            pending := pending + [item.message];
          }
      }
      OneRead([], id);
      r := Err(Closed);
    }

    method NextNotification() returns (r: Result<Option<Message>, CallError>)
      modifies this
      ensures View() == Asked(old(View()))
      ensures r.Ok? && r.value.Some? ==> Handed(old(View())) == [r.value.value]
      ensures !(r.Ok? && r.value.Some?) ==> Handed(old(View())) == []
      ensures r == Ok(None) ==> incoming == []
      ensures r.Err? ==>
        var k := Skips(old(incoming));
        0 < k && old(incoming)[k - 1].Broken? && r == Err(Io(old(incoming)[k - 1].detail))
    {
      if pending != [] {
        var first := pending[0];
        pending := pending[1..];
        return Ok(Some(first));
      }
      ghost var was := incoming;
      ghost var k := 0;
      while incoming != []
        invariant k <= |was| && incoming == was[k..] && pending == [] && nextId == old(nextId)
        invariant Notes(was[..k]) == []
        invariant Skips(was) == k + Skips(incoming)
        decreases |incoming|
      {
        var item := incoming[0];
        NotesSnoc(was, k);
        incoming, k := incoming[1..], k + 1;
        match item
        case Broken(detail) => return Err(Io(detail));
        case Arrived(Request(None, name, params)) => return Ok(Some(item.message));
        case _ =>
      }
      r := Ok(None);
    }
  }

  // ----- nothing is lost, reordered or repeated

  lemma {:induction false} NotesConcat(a: seq<Item>, b: seq<Item>)
    ensures Notes(a + b) == Notes(a) + Notes(b)
  {
    if a == [] {
      assert a + b == b;
    } else {
      hide Note;
      var all := a + b;
      NotesConcat(a[1..], b);
      assert all[1..] == a[1..] + b && all[0] == a[0];
      Associate(Note(a[0]), Notes(a[1..]), Notes(b));
    }
  }

  lemma NotesSnoc(items: seq<Item>, k: nat)
    requires k < |items|
    ensures Notes(items[..k + 1]) == Notes(items[..k]) + Note(items[k])
  {
    assert items[..k + 1] == items[..k] + [items[k]];
    NotesConcat(items[..k], [items[k]]);
    assert Notes([]) == [];
  }

  datatype Operation = Call(sent: bool) | NextNotification

  function Step(s: State, op: Operation): State {
    if op.Call? then Called(s, op.sent) else Asked(s)
  }

  function StepReturns(s: State, op: Operation): seq<Message> {
    if op.Call? then [] else Handed(s)
  }

  function Run(s: State, ops: seq<Operation>): State
    decreases |ops|
  {
    if ops == [] then s else Run(Step(s, ops[0]), ops[1..])
  }

  /** The notifications handed to the caller over a run. */
  function Returned(s: State, ops: seq<Operation>): seq<Message>
    decreases |ops|
  {
    if ops == [] then [] else StepReturns(s, ops[0]) + Returned(Step(s, ops[0]), ops[1..])
  }

  /** `read` is what was taken from the wire between two states. */
  ghost predicate Took(s: State, read: seq<Item>, s': State) {
    s.incoming == read + s'.incoming
  }

  lemma StepTakes(s: State, op: Operation) returns (read: seq<Item>)
    ensures Took(s, read, Step(s, op))
    ensures StepReturns(s, op) + Step(s, op).pending == s.pending + Notes(read)
  {
    assert Notes([]) == [];
    if op.Call? && op.sent {
      read := s.incoming[..Reads(s.incoming, s.nextId)];
    } else if op.NextNotification? && s.pending == [] {
      read := s.incoming[..Skips(s.incoming)];
    } else {
      read := [];
    }
  }

  /** However calls and requests for a notification are mixed, whatever fails on
      the way, the notifications returned followed by those still queued are
      those queued at the start followed by those read, in order. */
  lemma {:induction false} NotificationsAreConserved(s: State, ops: seq<Operation>) returns (read: seq<Item>)
    ensures Took(s, read, Run(s, ops))
    ensures Returned(s, ops) + Run(s, ops).pending == s.pending + Notes(read)
    decreases |ops|
  {
    if ops == [] {
      read := [];
    } else {
      var next := Step(s, ops[0]);
      var first := StepTakes(s, ops[0]);
      var rest := NotificationsAreConserved(next, ops[1..]);
      hide Step, StepReturns, Notes;
      read := first + rest;
      NotesConcat(first, rest);
      var now, later, queued := StepReturns(s, ops[0]), Returned(next, ops[1..]), Run(next, ops[1..]).pending;
      Associate(first, rest, Run(next, ops[1..]).incoming);
      Associate(now, later, queued);
      Associate(now, next.pending, Notes(rest));
      Associate(s.pending, Notes(first), Notes(rest));
    }
  }

  /** A request, or a response to someone else that is no error. */
  predicate PassedOver(item: Item, id: nat) {
    && item.Arrived?
    && (item.message.Request? || (item.message.id != Some(Number(id)) && item.message.error.None?))
  }

  /** A call reads up to the first item that is not passed over, and that decides: a
      failed read fails the call, an error in a response, its own or another's, is
      the call's, and its own response without one is its value, null if it has
      none. A stream that ends before fails the call, too. */
  lemma {:induction false} FirstToDecide(incoming: seq<Item>, id: nat) returns (k: nat)
    ensures k <= |incoming| && forall i :: 0 <= i < k ==> PassedOver(incoming[i], id)
    ensures k == |incoming| ==> Answer(incoming, id) == Err(Closed) && Reads(incoming, id) == k
    ensures k < |incoming| ==> !PassedOver(incoming[k], id) && Reads(incoming, id) == k + 1
    ensures k < |incoming| ==>
      var item := incoming[k];
      && (item.Broken? ==> Answer(incoming, id) == Err(Io(item.detail)))
      && (item.Arrived? && item.message.Response? && item.message.error.Some? ==>
            Answer(incoming, id) == Err(Remote(item.message.error.value)))
      && (item.Arrived? && item.message.Response? && item.message.error.None? ==>
            && item.message.id == Some(Number(id))
            && Answer(incoming, id) == Ok(if item.message.result.Some? then item.message.result.value else "null"))
  {
    if incoming == [] || Verdict(incoming[0], id).Some? {
      k := 0;
    } else {
      k := FirstToDecide(incoming[1..], id);
      k := k + 1;
    }
  }

  /** A call that succeeds returns the first response to its own request; before
      it came only requests and responses to others that were no errors. */
  lemma AnswersOwnRequest(incoming: seq<Item>, id: nat) returns (k: nat)
    requires Answer(incoming, id).Ok?
    ensures k < |incoming| && Reads(incoming, id) == k + 1
    ensures incoming[k].Arrived? && incoming[k].message.Response?
    ensures incoming[k].message.id == Some(Number(id)) && incoming[k].message.error.None?
    ensures var result := incoming[k].message.result;
      Answer(incoming, id) == Ok(if result.Some? then result.value else "null")
    ensures forall i :: 0 <= i < k ==>
      && incoming[i].Arrived?
      && (incoming[i].message.Request?
          || (incoming[i].message.id != Some(Number(id)) && incoming[i].message.error.None?))
  {
    k := FirstToDecide(incoming, id);
  }

  function Calls(ops: seq<Operation>): nat {
    if ops == [] then 0 else (if ops[0].Call? then 1 else 0) + Calls(ops[1..])
  }

  /** Each call takes the next id, so within 64 bits no two calls share one. */
  lemma {:induction false} IdsCountCalls(s: State, ops: seq<Operation>)
    requires s.nextId < 0x1_0000_0000_0000_0000
    ensures Run(s, ops).nextId == (s.nextId + Calls(ops)) % 0x1_0000_0000_0000_0000
    decreases |ops|
  {
    hide Reads, Notes, Skips;
    if ops != [] {
      IdsCountCalls(Step(s, ops[0]), ops[1..]);
      ModSum(s.nextId, Calls(ops[1..]));
    }
  }

  lemma ModSum(a: nat, n: nat)
    ensures ((a + 1) % ID_RANGE + n) % ID_RANGE == (a + (1 + n)) % ID_RANGE
  {
  }

  /** Asking for a notification when none is queued takes the first to arrive, and
      reads no further; it fails on a failed read, and finds none on an ended
      stream. Requests that want an answer are no notifications. */
  lemma {:induction false} FirstNotification(incoming: seq<Item>) returns (k: nat)
    ensures k <= |incoming|
    ensures forall i :: 0 <= i < k ==>
      incoming[i].Arrived? && (incoming[i].message.Response? || incoming[i].message.reqId.Some?)
    ensures k == |incoming| ==> Skips(incoming) == k && Notes(incoming[..Skips(incoming)]) == []
    ensures k < |incoming| ==> Skips(incoming) == k + 1
    ensures k < |incoming| && incoming[k].Arrived? ==>
      && incoming[k].message.Request? && incoming[k].message.reqId.None?
      && Notes(incoming[..Skips(incoming)]) == [incoming[k].message]
    ensures k < |incoming| && incoming[k].Broken? ==> Notes(incoming[..Skips(incoming)]) == []
  {
    assert Notes([]) == [];
    if incoming == [] {
      k := 0;
    } else if incoming[0].Broken? || IsNotification(incoming[0].message) {
      k := 0;
      assert incoming[..1] == [incoming[0]] && incoming[..1][1..] == [];
    } else {
      k := FirstNotification(incoming[1..]);
      assert incoming[..Skips(incoming)][1..] == incoming[1..][..Skips(incoming[1..])];
      k := k + 1;
    }
  }
}
