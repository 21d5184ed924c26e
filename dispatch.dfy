/** Delivery of a `messages.upsert` batch by the connection manager of
    src/connection/connection.ts: for each message of the batch, in order, the
    store call it gets (when it qualifies) and the handler calls it gets, one
    per registered handler in registry order. Whether a call throws is an
    input; the lemmas state what it does not change. */
module Dispatch {
  import opened Strings
  import opened Messages

  type SocketId = nat
  type HandlerId = nat

  /** One awaited handler call: which handler, the socket it was handed, the
      index of the message in its batch, and whether it threw (caught and logged). */
  datatype Call = Call(handler: HandlerId, socket: SocketId, message: nat, threw: bool)

  /** What one message of a batch caused: `store` is None when the message was
      not handed to the store, Some(threw) when it was. */
  datatype Delivery = Delivery(message: nat, store: Option<bool>, calls: seq<Call>)

  /** A message is stored only when its key has an id and a chat and it has a payload. */
  predicate Storable(m: WAMessage) {
    Truthy(m.key.id) && Truthy(m.key.remoteJid) && m.message.Some?
  }

  /** The handler calls for message i. `throws(j, i)` says whether the j-th
      registered handler throws on message i. */
  function HandlerCalls(sid: SocketId, i: nat, hs: seq<HandlerId>, throws: (nat, nat) -> bool): seq<Call> {
    seq(|hs|, j requires 0 <= j < |hs| => Call(hs[j], sid, i, throws(j, i)))
  }

  /** What message i of the batch causes. `storeThrows(i)` says whether storing it throws. */
  function DeliveryOf(sid: SocketId, batch: seq<WAMessage>, i: nat, hs: seq<HandlerId>,
                      throws: (nat, nat) -> bool, storeThrows: nat -> bool): Delivery
    requires i < |batch|
  {
    Delivery(i, if Storable(batch[i]) then Some(storeThrows(i)) else None, HandlerCalls(sid, i, hs, throws))
  }

  /** What a whole batch causes, message by message. */
  function DispatchLog(sid: SocketId, batch: seq<WAMessage>, hs: seq<HandlerId>,
                       throws: (nat, nat) -> bool, storeThrows: nat -> bool): seq<Delivery> {
    seq(|batch|, i requires 0 <= i < |batch| => DeliveryOf(sid, batch, i, hs, throws, storeThrows))
  }

  /** What n listeners attached to the same socket cause on one batch: each
      runs the whole batch, one after the other. */
  function Repeat(log: seq<Delivery>, n: nat): (r: seq<Delivery>)
    ensures |r| == n * |log|
  {
    if n == 0 then [] else Repeat(log, n - 1) + log
  }

  /** Block k of n repeated logs is the log itself: every listener delivers
      every message of the batch to every handler. */
  lemma {:induction false} RepeatBlock(log: seq<Delivery>, n: nat, k: nat)
    requires k < n
    ensures k * |log| + |log| <= n * |log|
    ensures Repeat(log, n)[k * |log|..k * |log| + |log|] == log
  {
    var prev := Repeat(log, n - 1);
    assert n * |log| == (n - 1) * |log| + |log|;
    if k < n - 1 {
      RepeatBlock(log, n - 1, k);
      assert Repeat(log, n)[k * |log|..k * |log| + |log|] == prev[k * |log|..k * |log| + |log|];
    } else {
      assert k * |log| == |prev|;
    }
  }

  /** The handlers called, in call order. */
  function Handlers(calls: seq<Call>): (r: seq<HandlerId>)
    ensures |r| == |calls|
    ensures forall j :: 0 <= j < |calls| ==> r[j] == calls[j].handler
  {
    if |calls| == 0 then [] else Handlers(calls[..|calls| - 1]) + [calls[|calls| - 1].handler]
  }

  /** The indices of the messages a log hands to the store, in order. */
  function Stored(log: seq<Delivery>): seq<nat> {
    if |log| == 0 then []
    else Stored(log[..|log| - 1]) + (if log[|log| - 1].store.Some? then [log[|log| - 1].message] else [])
  }

  /** Reference: the indices below n of the messages that qualify for storing. */
  function StorableIndices(batch: seq<WAMessage>, n: nat): seq<nat>
    requires n <= |batch|
  {
    if n == 0 then [] else StorableIndices(batch, n - 1) + (if Storable(batch[n - 1]) then [n - 1] else [])
  }

  /** Delivery order and isolation: whatever the handlers and the store throw,
      message i of the batch is the i-th delivery, and it reaches every
      registered handler exactly once, in registry order, with the socket of
      the batch. */
  lemma DeliveryIsolated(sid: SocketId, batch: seq<WAMessage>, hs: seq<HandlerId>,
                         throws: (nat, nat) -> bool, storeThrows: nat -> bool, i: nat)
    requires i < |batch|
    ensures |DispatchLog(sid, batch, hs, throws, storeThrows)| == |batch|
    ensures DispatchLog(sid, batch, hs, throws, storeThrows)[i].message == i
    ensures Handlers(DispatchLog(sid, batch, hs, throws, storeThrows)[i].calls) == hs
    ensures forall c :: c in DispatchLog(sid, batch, hs, throws, storeThrows)[i].calls ==> c.socket == sid && c.message == i
  {
    var calls := DispatchLog(sid, batch, hs, throws, storeThrows)[i].calls;
    assert calls == HandlerCalls(sid, i, hs, throws);
    assert Handlers(calls) == hs;
  }

  /** The outcomes of the calls change nothing but the recorded outcomes: two
      batches that differ only in what throws make the same calls. */
  lemma OutcomesIrrelevant(sid: SocketId, batch: seq<WAMessage>, hs: seq<HandlerId>,
                           throws1: (nat, nat) -> bool, storeThrows1: nat -> bool,
                           throws2: (nat, nat) -> bool, storeThrows2: nat -> bool, i: nat)
    requires i < |batch|
    ensures var d1 := DispatchLog(sid, batch, hs, throws1, storeThrows1)[i];
      var d2 := DispatchLog(sid, batch, hs, throws2, storeThrows2)[i];
      d1.store.Some? == d2.store.Some? && Handlers(d1.calls) == Handlers(d2.calls)
  {
    DeliveryIsolated(sid, batch, hs, throws1, storeThrows1, i);
    DeliveryIsolated(sid, batch, hs, throws2, storeThrows2, i);
  }

  /** Exactly the qualifying messages are handed to the store, in batch order,
      whatever the store and the handlers throw. */
  lemma {:induction false} StoresQualifying(sid: SocketId, batch: seq<WAMessage>, hs: seq<HandlerId>,
                                            throws: (nat, nat) -> bool, storeThrows: nat -> bool, n: nat)
    requires n <= |batch|
    ensures Stored(DispatchLog(sid, batch, hs, throws, storeThrows)[..n]) == StorableIndices(batch, n)
  {
    if n > 0 {
      var log := DispatchLog(sid, batch, hs, throws, storeThrows);
      StoresQualifying(sid, batch, hs, throws, storeThrows, n - 1);
      assert log[..n][..n - 1] == log[..n - 1];
      assert log[..n][n - 1] == DeliveryOf(sid, batch, n - 1, hs, throws, storeThrows);
    }
  }

  /** A handler that throws on every message does not keep the next handler
      from any message (the two-handler case of isolation). */
  lemma SecondHandlerStillCalled(sid: SocketId, batch: seq<WAMessage>, h1: HandlerId, h2: HandlerId,
                                 throws: (nat, nat) -> bool, storeThrows: nat -> bool, i: nat)
    requires i < |batch|
    requires forall m :: throws(0, m)
    ensures Handlers(DispatchLog(sid, batch, [h1, h2], throws, storeThrows)[i].calls) == [h1, h2]
    ensures DispatchLog(sid, batch, [h1, h2], throws, storeThrows)[i].calls[0].threw
  {
    DeliveryIsolated(sid, batch, [h1, h2], throws, storeThrows, i);
  }
}
