/** The connection lifecycle manager of src/connection/connection.ts.

    The manager owns at most one socket, a reconnect counter with ceiling 5, an
    in-progress flag that serialises connect attempts and an ordered registry of
    message handlers. Sockets and handlers are opaque ids. The backend's events
    (a socket reporting `close` or `open`, a batch of messages) and the points
    where an asynchronous `connect` resumes are separate steps, because other
    steps may run while it is suspended.

    The pure functions over ConnState define each step once; the class
    WhatsAppConnection performs the same steps on its fields, and each of its
    methods is proved to agree with its step function. The lemmas at the end
    state the retry ceiling, the counter reset and the order and isolation of
    handler delivery. */
module Connection {
  import opened Strings
  import opened Messages
  import ConnectionUtils
  import opened Dispatch

  const MaxReconnectAttempts: nat := 5

  /** What socket creation (loading the stored credentials and building the
      socket) produced: a new socket, or an exception. */
  datatype CreateOutcome = Created(socket: SocketId) | CreateFailed

  /** How a connect call that went ahead ends: it returns the new socket, or it
      rethrows the creation error to its caller. */
  datatype ConnectResult = Connected(socket: SocketId) | Rejected

  /** What a connect call does on entry: start an attempt, or wait for the one in flight. */
  datatype Entering = Started | MustWait

  /** One poll of a waiting connect call (every 100 ms in the source). */
  datatype Poll = StillWaiting | Joined(socket: SocketId) | StartedOwn

  /** A `connection.update` event reported by one socket. */
  datatype Update = Close(statusCode: Option<int>) | Connecting | Open

  /** The decision the close listener takes. */
  datatype CloseAction = ReconnectScheduled(attempt: nat) | NotReconnecting | Exit

  /** The manager's fields plus the parts of the environment it reacts to:
      `listening` are the sockets carrying the manager's `connection.update`
      listener, `attached` how many `messages.upsert` listeners each socket carries
      (one more on every open),
      `pending` the reconnect timers set and not yet fired, `waiting` the
      connect calls suspended in the poll loop, `exited` the process having
      called `process.exit(1)`. */
  datatype ConnState = ConnState(
    socket: Option<SocketId>,
    attempts: nat,
    connecting: bool,
    handlers: seq<HandlerId>,
    listening: set<SocketId>,
    attached: multiset<SocketId>,
    pending: nat,
    waiting: nat,
    exited: bool)

  const Initial := ConnState(None, 0, false, [], {}, multiset{}, 0, 0, false)

  ghost predicate Inv(s: ConnState) {
    s.attempts <= MaxReconnectAttempts
  }

  // ---------------------------------------------------------------- steps

  /** `onMessage`: the handler goes to the end of the registry. */
  function RegisterStep(s: ConnState, h: HandlerId): ConnState {
    s.(handlers := s.handlers + [h])
  }

  /** Entry into `connect`: with an attempt in flight the call joins the
      waiters; otherwise it raises the flag and starts creating a socket. */
  function EnterStep(s: ConnState): (ConnState, Entering) {
    if s.connecting then (s.(waiting := s.waiting + 1), MustWait)
    else (s.(connecting := true), Started)
  }

  /** The end of the attempt in flight. A new socket is stored, gets the
      manager's listener and is returned; a creation error leaves the socket
      field alone and is rethrown. Either way the flag comes down. */
  function FinishStep(s: ConnState, o: CreateOutcome): (ConnState, ConnectResult)
    requires s.connecting
  {
    match o
    case Created(sid) =>
      (s.(socket := Some(sid), connecting := false, listening := s.listening + {sid}), Connected(sid))
    case CreateFailed => (s.(connecting := false), Rejected)
  }

  /** One poll of a waiting call: it keeps waiting while the flag is up; then it
      returns the socket if one is set, or else starts its own attempt. */
  function PollStep(s: ConnState): (ConnState, Poll)
    requires s.waiting > 0
  {
    if s.connecting then (s, StillWaiting)
    else if s.socket.Some? then (s.(waiting := s.waiting - 1), Joined(s.socket.value))
    else (s.(waiting := s.waiting - 1, connecting := true), StartedOwn)
  }

  /** The manager's `connection.update` listener on socket sid. A close clears
      the socket field first, then retries (counter below the ceiling), resets
      the counter (no retry wanted) or exits (ceiling reached). An open resets
      the counter and attaches the message listener to sid. A socket without
      the listener reports nothing to the manager. */
  function UpdateStep(s: ConnState, sid: SocketId, u: Update): (ConnState, Option<CloseAction>) {
    if sid !in s.listening then (s, None)
    else match u
      case Close(code) =>
        var reconnect := ConnectionUtils.ShouldReconnect(code);
        var cleared := s.(socket := None);
        if reconnect && s.attempts < MaxReconnectAttempts then
          (cleared.(attempts := s.attempts + 1, pending := s.pending + 1), Some(ReconnectScheduled(s.attempts + 1)))
        else if !reconnect then
          (cleared.(attempts := 0), Some(NotReconnecting))
        else
          (cleared.(exited := true), Some(Exit))
      case Connecting => (s, None)
      case Open => (s.(attempts := 0, attached := s.attached + multiset{sid}), None)
  }

  /** A reconnect timer fires: the listener calls `connect`, which enters as any
      other call. An error from that call is caught and logged there, so no
      further step follows from it. */
  function ReconnectStep(s: ConnState): (ConnState, Entering)
    requires s.pending > 0
  {
    EnterStep(s.(pending := s.pending - 1))
  }

  /** `disconnect`: with a socket, log out (an error is caught) and clear the
      field; without one, nothing. */
  function DisconnectStep(s: ConnState): ConnState {
    if s.socket.Some? then s.(socket := None) else s
  }

  // --------------------------------------------------------------- object

  class WhatsAppConnection {
    var socket: Option<SocketId>
    var reconnectAttempts: nat
    var isConnecting: bool
    var messageHandlers: seq<HandlerId>
    var listening: set<SocketId>
    var attached: multiset<SocketId>
    var pendingReconnects: nat
    var waiting: nat
    var exited: bool
    var deliveries: seq<Delivery>
    var logouts: seq<SocketId>

    function State(): ConnState
      reads this
    {
      ConnState(socket, reconnectAttempts, isConnecting, messageHandlers, listening, attached,
                pendingReconnects, waiting, exited)
    }

    ghost predicate Valid()
      reads this
    {
      Inv(State())
    }

    constructor ()
      ensures Valid() && State() == Initial && deliveries == [] && logouts == []
    {
      socket := None;
      reconnectAttempts := 0;
      isConnecting := false;
      messageHandlers := [];
      listening := {};
      attached := multiset{};
      pendingReconnects := 0;
      waiting := 0;
      exited := false;
      deliveries := [];
      logouts := [];
    }

    method OnMessage(handler: HandlerId)
      requires Valid() && !exited
      modifies this
      ensures Valid() && State() == RegisterStep(old(State()), handler) && deliveries == old(deliveries) && logouts == old(logouts)
      ensures messageHandlers == old(messageHandlers) + [handler]
    {
      messageHandlers := messageHandlers + [handler];
    }

    method GetSocket() returns (s: Option<SocketId>)
      ensures s == socket
    {
      s := socket;
    }

    /** The synchronous prefix of `connect`. */
    method Connect() returns (e: Entering)
      requires Valid() && !exited
      modifies this
      ensures Valid() && (State(), e) == EnterStep(old(State())) && deliveries == old(deliveries) && logouts == old(logouts)
    {
      if isConnecting {
        waiting := waiting + 1;
        e := MustWait;
      } else {
        isConnecting := true;
        e := Started;
      }
    }

    /** The attempt in flight resumes with the outcome of socket creation. */
    method CompleteConnect(outcome: CreateOutcome) returns (r: ConnectResult)
      requires Valid() && !exited && isConnecting
      modifies this
      ensures Valid() && (State(), r) == FinishStep(old(State()), outcome) && deliveries == old(deliveries) && logouts == old(logouts)
      ensures !isConnecting
    {
      match outcome
      case Created(sid) =>
        socket := Some(sid);
        listening := listening + {sid};
        isConnecting := false;
        r := Connected(sid);
      case CreateFailed =>
        isConnecting := false;
        r := Rejected;
    }

    /** One poll of a connect call that found an attempt in flight. */
    method PollWaiting() returns (p: Poll)
      requires Valid() && !exited && waiting > 0
      modifies this
      ensures Valid() && (State(), p) == PollStep(old(State())) && deliveries == old(deliveries) && logouts == old(logouts)
    {
      if isConnecting {
        p := StillWaiting;
      } else if socket.Some? {
        waiting := waiting - 1;
        p := Joined(socket.value);
      } else {
        waiting := waiting - 1;
        isConnecting := true;
        p := StartedOwn;
      }
    }

    /** The `connection.update` listener of socket sid. */
    method OnConnectionUpdate(sid: SocketId, u: Update) returns (action: Option<CloseAction>)
      requires Valid() && !exited
      modifies this
      ensures Valid() && (State(), action) == UpdateStep(old(State()), sid, u) && deliveries == old(deliveries) && logouts == old(logouts)
    {
      action := None;
      if sid in listening {
        match u
        case Close(code) =>
          var reconnect := ConnectionUtils.ShouldReconnect(code);
          socket := None;
          if reconnect && reconnectAttempts < MaxReconnectAttempts {
            reconnectAttempts := reconnectAttempts + 1;
            pendingReconnects := pendingReconnects + 1;
            action := Some(ReconnectScheduled(reconnectAttempts));
          } else if !reconnect {
            reconnectAttempts := 0;
            action := Some(NotReconnecting);
          } else {
            exited := true;
            action := Some(Exit);
          }
        case Connecting =>
        case Open =>
          reconnectAttempts := 0;
          attached := attached + multiset{sid};
      }
    }

    /** A reconnect timer fires and the close listener calls `connect`. */
    method FireReconnect() returns (e: Entering)
      requires Valid() && !exited && pendingReconnects > 0
      modifies this
      ensures Valid() && (State(), e) == ReconnectStep(old(State())) && deliveries == old(deliveries) && logouts == old(logouts)
    {
      pendingReconnects := pendingReconnects - 1;
      e := Connect();
    }

    /** One `messages.upsert` listener of socket sid runs on a batch: for each
        message in batch order, store it when it qualifies, then await every
        handler of the registry, in registry order, catching what throws. */
    method DispatchBatch(sid: SocketId, batch: seq<WAMessage>, throws: (nat, nat) -> bool, storeThrows: nat -> bool)
      modifies this`deliveries
      ensures deliveries == old(deliveries) + DispatchLog(sid, batch, messageHandlers, throws, storeThrows)
    {
      ghost var spec := DispatchLog(sid, batch, messageHandlers, throws, storeThrows);
      var i := 0;
      while i < |batch|
        invariant 0 <= i <= |batch|
        invariant deliveries == old(deliveries) + spec[..i]
      {
        var store: Option<bool> := None;
        if Storable(batch[i]) {
          store := Some(storeThrows(i));
        }
        ghost var expected := HandlerCalls(sid, i, messageHandlers, throws);
        var calls: seq<Call> := [];
        var j := 0;
        while j < |messageHandlers|
          invariant 0 <= j <= |messageHandlers|
          invariant calls == expected[..j]
        {
          calls := calls + [Call(messageHandlers[j], sid, i, throws(j, i))];
          assert expected[..j + 1] == expected[..j] + [expected[j]];
          j := j + 1;
        }
        assert calls == expected;
        deliveries := deliveries + [Delivery(i, store, calls)];
        assert spec[..i + 1] == spec[..i] + [spec[i]];
        i := i + 1;
      }
      assert spec[..|batch|] == spec;
    }

    /** A batch reported by socket sid reaches every `messages.upsert` listener
        that socket carries, as many as it has been opened; none when it never was. */
    method OnUpsert(sid: SocketId, batch: seq<WAMessage>, throws: (nat, nat) -> bool, storeThrows: nat -> bool)
      requires Valid() && !exited
      modifies this`deliveries
      ensures deliveries == old(deliveries)
        + Repeat(DispatchLog(sid, batch, messageHandlers, throws, storeThrows), attached[sid])
    {
      ghost var log := DispatchLog(sid, batch, messageHandlers, throws, storeThrows);
      var k := 0;
      while k < attached[sid]
        invariant 0 <= k <= attached[sid]
        invariant deliveries == old(deliveries) + Repeat(log, k)
      {
        DispatchBatch(sid, batch, throws, storeThrows);
        k := k + 1;
      }
    }

    /** `disconnect`: log out the socket if there is one, and forget it. */
    method Disconnect()
      requires Valid() && !exited
      modifies this
      ensures Valid() && State() == DisconnectStep(old(State()))
      ensures deliveries == old(deliveries)
      ensures logouts == old(logouts) + (if old(socket).Some? then [old(socket).value] else [])
    {
      if socket.Some? {
        logouts := logouts + [socket.value];
        socket := None;
      }
    }
  }

  // ---------------------------------------------------------------- traces

  /** The state-changing steps, for reasoning about whole runs. A step whose
      continuation does not exist (no attempt in flight, no waiter, no timer)
      changes nothing. */
  datatype Event =
    | Register(handler: HandlerId)
    | Enter
    | Finish(outcome: CreateOutcome)
    | PollTick
    | Report(sid: SocketId, update: Update)
    | TimerFires
    | Leave

  function Next(s: ConnState, e: Event): ConnState {
    match e
    case Register(h) => RegisterStep(s, h)
    case Enter => EnterStep(s).0
    case Finish(o) => if s.connecting then FinishStep(s, o).0 else s
    case PollTick => if s.waiting > 0 then PollStep(s).0 else s
    case Report(sid, u) => UpdateStep(s, sid, u).0
    case TimerFires => if s.pending > 0 then ReconnectStep(s).0 else s
    case Leave => DisconnectStep(s)
  }

  /** Whether the step schedules a reconnect. */
  predicate Schedules(s: ConnState, e: Event) {
    e.Report? && UpdateStep(s, e.sid, e.update).1.Some? && UpdateStep(s, e.sid, e.update).1.value.ReconnectScheduled?
  }

  /** A run of steps; nothing happens after the process has exited. */
  function Run(s: ConnState, evs: seq<Event>): ConnState
    decreases |evs|
  {
    if |evs| == 0 || s.exited then s else Run(Next(s, evs[0]), evs[1..])
  }

  /** The number of reconnects a run schedules. */
  function ScheduledIn(s: ConnState, evs: seq<Event>): nat
    decreases |evs|
  {
    if |evs| == 0 || s.exited then 0
    else (if Schedules(s, evs[0]) then 1 else 0) + ScheduledIn(Next(s, evs[0]), evs[1..])
  }

  /** Steps that reset the counter: an open, or a close that asks for no retry. */
  predicate Resets(e: Event) {
    e.Report? && (e.update.Open? || (e.update.Close? && !ConnectionUtils.ShouldReconnect(e.update.statusCode)))
  }

  /** Every step keeps the counter within the ceiling. */
  lemma {:induction false} RunKeepsCeiling(s: ConnState, evs: seq<Event>)
    requires Inv(s)
    ensures Inv(Run(s, evs))
    decreases |evs|
  {
    if |evs| > 0 && !s.exited {
      RunKeepsCeiling(Next(s, evs[0]), evs[1..]);
    }
  }

  /** The retry ceiling: between two resets the counter counts exactly the
      reconnects scheduled, so no stretch without a reset schedules more than
      MaxReconnectAttempts - s.attempts of them. */
  lemma {:induction false} RetryCeiling(s: ConnState, evs: seq<Event>)
    requires Inv(s)
    requires forall k :: 0 <= k < |evs| ==> !Resets(evs[k])
    ensures Run(s, evs).attempts == s.attempts + ScheduledIn(s, evs)
    ensures ScheduledIn(s, evs) <= MaxReconnectAttempts - s.attempts
    decreases |evs|
  {
    if |evs| > 0 && !s.exited {
      var e := evs[0];
      assert !Resets(e);
      assert forall k :: 0 <= k < |evs[1..]| ==> !Resets(evs[1..][k]) by {
        forall k | 0 <= k < |evs[1..]| ensures !Resets(evs[1..][k]) {
          assert evs[1..][k] == evs[k + 1];
        }
      }
      var t := Next(s, e);
      if Schedules(s, e) {
        assert t.attempts == s.attempts + 1;
      } else {
        assert t.attempts == s.attempts;
      }
      RetryCeiling(t, evs[1..]);
    }
  }

  /** A retryable close at the ceiling ends the process instead of a sixth attempt. */
  lemma CeilingExits(s: ConnState, sid: SocketId, code: Option<int>)
    requires s.attempts == MaxReconnectAttempts && sid in s.listening
    requires ConnectionUtils.ShouldReconnect(code)
    ensures UpdateStep(s, sid, Close(code)) == (s.(socket := None, exited := true), Some(Exit))
    ensures Run(s, [Report(sid, Close(code))] + [TimerFires]).pending == s.pending
  {
    var evs := [Report(sid, Close(code))] + [TimerFires];
    assert Run(Next(s, evs[0]), evs[1..]).exited;
  }

  /** A retryable close below the ceiling clears the socket, counts the attempt
      and sets one timer; a close that asks for no retry clears the socket, resets
      the counter and sets none. */
  lemma CloseOutcomes(s: ConnState, sid: SocketId, code: Option<int>)
    requires Inv(s) && sid in s.listening && !s.exited
    ensures var (t, a) := UpdateStep(s, sid, Close(code));
      t.socket == None && t.handlers == s.handlers && t.attached == s.attached
      && (ConnectionUtils.ShouldReconnect(code) && s.attempts < MaxReconnectAttempts ==>
            t.attempts == s.attempts + 1 && t.pending == s.pending + 1 && !t.exited
            && a == Some(ReconnectScheduled(t.attempts)))
      && (!ConnectionUtils.ShouldReconnect(code) ==>
            t.attempts == 0 && t.pending == s.pending && !t.exited && a == Some(NotReconnecting))
  {
  }

  /** An open resets the counter, so the next run of closes counts from zero. */
  lemma OpenResets(s: ConnState, sid: SocketId, evs: seq<Event>)
    requires sid in s.listening && !s.exited
    requires forall k :: 0 <= k < |evs| ==> !Resets(evs[k])
    ensures ScheduledIn(s, [Report(sid, Open)] + evs) == ScheduledIn(UpdateStep(s, sid, Open).0, evs)
    ensures UpdateStep(s, sid, Open).0.attempts == 0
    ensures UpdateStep(s, sid, Open).0.attached[sid] == s.attached[sid] + 1
    ensures Run(UpdateStep(s, sid, Open).0, evs).attempts == ScheduledIn(UpdateStep(s, sid, Open).0, evs)
    ensures ScheduledIn(UpdateStep(s, sid, Open).0, evs) <= MaxReconnectAttempts
  {
    var t := UpdateStep(s, sid, Open).0;
    assert ([Report(sid, Open)] + evs)[1..] == evs;
    RetryCeiling(t, evs);
  }

  /** A socket that reports open n times carries n `messages.upsert`
      listeners, so each batch it reports afterwards is dispatched n times. */
  lemma {:induction false} OpensAttachListeners(s: ConnState, sid: SocketId, n: nat)
    requires sid in s.listening && !s.exited
    ensures Run(s, seq(n, _ => Report(sid, Open))).attached[sid] == s.attached[sid] + n
    decreases n
  {
    if n > 0 {
      var evs := seq(n, _ => Report(sid, Open));
      var t := Next(s, evs[0]);
      assert evs[1..] == seq(n - 1, _ => Report(sid, Open));
      OpensAttachListeners(t, sid, n - 1);
    }
  }

  /** Two connect calls back to back start one attempt; when it produces a
      socket, the waiting call returns that same socket. When it fails, the
      first caller gets the error and the waiting call returns whatever socket
      is still set, or else starts its own attempt. */
  lemma SingleFlight(s: ConnState, o: CreateOutcome)
    requires !s.connecting && !s.exited
    ensures var (s1, e1) := EnterStep(s);
      var (s2, e2) := EnterStep(s1);
      var (s3, r) := FinishStep(s2, o);
      e1 == Started && e2 == MustWait && s2.connecting && s3.waiting > 0
      && (o.Created? ==> r == Connected(o.socket) && PollStep(s3).1 == Joined(o.socket))
      && (o.CreateFailed? ==>
            r == Rejected && PollStep(s3).1 == (if s.socket.Some? then Joined(s.socket.value) else StartedOwn))
  {
  }

}
