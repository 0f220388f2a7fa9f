/** Queueing a payload's work orders and spinning on them, from start to end. */
module ParallelPayload {
  import opened Octets
  import opened Options
  import opened Galois
  import opened Protocol
  import opened ProtocolSafety
  import opened ProtocolRuns
  import opened ProtocolLiveness
  import opened Spawn
  import Fips197
  import Cbc

  /** Orders for threads that exist, of whole blocks, in memory and apart from each other. */
  ghost predicate Acceptable(memory: seq<byte>, slots: nat, requests: seq<Request>) {
    InRange(slots, requests) && RegionsOk(memory, Contexts(requests))
  }

  /** The plan that is left when every request has been spawned from zeroed threads. */
  function Queue(memory: seq<byte>, slots: nat, requests: seq<Request>): (p: Plan)
    requires Acceptable(memory, slots, requests)
    ensures WellFormed(p) && p.memory == memory && p.contexts == Contexts(requests)
  {
    QueueMakesPlan(memory, slots, requests);
    SpawnAllWaits(slots, requests);
    PlanOf(memory, SpawnAll(slots, requests), QueuedBytes(requests))
  }

  /** The region of an order. */
  function Bytes(memory: seq<byte>, r: Request): seq<byte>
    requires r.order.location + r.order.length <= |memory|
  {
    memory[r.order.location..r.order.location + r.order.length]
  }

  /** From `before` to `after` the order's region has been decrypted under the order's key and IV. */
  predicate DecryptedIn(before: seq<byte>, after: seq<byte>, r: Request) {
    OneDecryption(r.key, r.iv, before, after, r.order.location, r.order.location + r.order.length)
  }

  predicate UnchangedIn(before: seq<byte>, after: seq<byte>, r: Request) {
    && r.order.location + r.order.length <= |before| == |after|
    && Bytes(after, r) == Bytes(before, r)
  }

  // --------------------------------------------------------------------------
  // What becomes of each order
  // --------------------------------------------------------------------------

  lemma LostIsUnchanged(p: Plan, memory: seq<byte>, r: Request, c: nat)
    requires WellFormed(p) && HeldDecrypted(p, memory) && c < |p.contexts| && !Held(p, c)
    requires p.contexts[c] == r.Queued()
    ensures UnchangedIn(p.memory, memory, r)
  {
    hide Decrypted;
    assert Region(p, memory, c) == InTheEnd(p, c);
  }

  lemma StandsExactlyWhenHeld(memory: seq<byte>, slots: nat, requests: seq<Request>, k: nat)
    requires Acceptable(memory, slots, requests) && k < |requests| && requests[k].order.length > 0
    ensures var p, c := Queue(memory, slots, requests), Position(requests, k);
      c < |p.contexts| && p.contexts[c] == requests[k].Queued() && (Held(p, c) <==> Stands(requests, k))
  {
    hide Contexts, Position, Stands, RegionsOk, Held, Waiting;
    var t := SpawnAll(slots, requests);
    SpawnAllWaits(slots, requests);
    StandsExactlyWhenLast(requests, k);
    HeldExactlyWhenLast(memory, t, QueuedBytes(requests), Position(requests, k));
  }

  /**
   * When the spin over spawned requests returns, an order whose thread index was not taken again has
   * been decrypted under its own key and IV, and any other order still has its first bytes.
   */
  lemma EveryOrderIsSettled(memory: seq<byte>, slots: nat, requests: seq<Request>, actions: seq<Action>, k: nat)
    requires Acceptable(memory, slots, requests)
    requires Spin(Queue(memory, slots, requests), actions).boot.at == Returned
    requires k < |requests| && requests[k].order.length > 0
    ensures var after := Spin(Queue(memory, slots, requests), actions).memory;
      if Stands(requests, k) then DecryptedIn(memory, after, requests[k]) else UnchangedIn(memory, after, requests[k])
  {
    hide Spin, Queue, WellFormed, HeldDecrypted, OneDecryption, Acceptable, Position, Stands, Held, UnchangedIn;
    var p, c := Queue(memory, slots, requests), Position(requests, k);
    SpinReturnsDecrypted(p, actions);
    StandsExactlyWhenHeld(memory, slots, requests, k);
    if Stands(requests, k) {
      HeldIsDecrypted(p, Spin(p, actions).memory, c);
    } else {
      LostIsUnchanged(p, Spin(p, actions).memory, requests[k], c);
    }
  }

  lemma DistinctStands(slots: nat, requests: seq<Request>, k: nat)
    requires InRange(slots, requests) && DistinctSlots(Contexts(requests))
    requires k < |requests| && requests[k].order.length > 0
    ensures Stands(requests, k)
  {
    hide Contexts, Position, Stands;
    StandsExactlyWhenLast(requests, k);
  }

  /** With distinct thread indices every order is decrypted. */
  lemma EveryOrderIsDecrypted(memory: seq<byte>, slots: nat, requests: seq<Request>, actions: seq<Action>, k: nat)
    requires Acceptable(memory, slots, requests) && DistinctSlots(Contexts(requests))
    requires Spin(Queue(memory, slots, requests), actions).boot.at == Returned
    requires k < |requests| && requests[k].order.length > 0
    ensures DecryptedIn(memory, Spin(Queue(memory, slots, requests), actions).memory, requests[k])
  {
    hide Spin, Queue, OneDecryption, RegionsOk, DistinctSlots, Contexts, Stands;
    DistinctStands(slots, requests, k);
    EveryOrderIsSettled(memory, slots, requests, actions, k);
  }

  /** When the spin has returned, every order has been run to its end if and only if no thread index was used twice. */
  lemma AllRunExactlyWhenDistinct(memory: seq<byte>, slots: nat, requests: seq<Request>, actions: seq<Action>)
    requires Acceptable(memory, slots, requests)
    requires Spin(Queue(memory, slots, requests), actions).boot.at == Returned
    ensures var p := Queue(memory, slots, requests);
      (forall c :: 0 <= c < |p.contexts| ==> Complete(p, Spin(p, actions).jobs, c))
      <==> DistinctSlots(Contexts(requests))
  {
    hide Spin, Contexts, RegionsOk, DistinctSlots, Complete;
    var t := SpawnAll(slots, requests);
    SpawnAllWaits(slots, requests);
    HeldExactlyWhenDistinct(t);
    var p := Queue(memory, slots, requests);
    forall c: nat | c < |p.contexts|
      ensures Complete(p, Spin(p, actions).jobs, c) <==> t.holder[t.contexts[c].slot] == Some(c)
    {
      CompleteExactlyWhenHeld(p, actions, c);
    }
  }

  // --------------------------------------------------------------------------
  // A thread index used twice
  // --------------------------------------------------------------------------

  // The region would be the same after a decryption.
  predicate Fixed(memory: seq<byte>, r: Request)
    requires r.order.location + r.order.length <= |memory| && r.order.length % 16 == 0
  {
    Cbc.Decrypt(Fips197.ExpandedKey(r.key), r.iv, Bytes(memory, r)) == Bytes(memory, r)
  }

  /** An order whose thread index was taken again counts as decrypted only if decryption would not change it. */
  lemma LostOrderIsNotDecrypted(memory: seq<byte>, slots: nat, requests: seq<Request>, actions: seq<Action>, k: nat)
    requires Acceptable(memory, slots, requests)
    requires Spin(Queue(memory, slots, requests), actions).boot.at == Returned
    requires k < |requests| && requests[k].order.length > 0 && !Stands(requests, k)
    ensures var r := requests[k];
      && r.order.location + r.order.length <= |memory| && r.order.length % 16 == 0
      && (DecryptedIn(memory, Spin(Queue(memory, slots, requests), actions).memory, r) <==> Fixed(memory, r))
  {
    hide Spin, Queue, Stands, Contexts, Cbc.Decrypt, Fips197.ExpandedKey;
    ContextOfRequest(requests, k);
    EveryOrderIsSettled(memory, slots, requests, actions, k);
  }

  lemma SumFixesTerm(x: byte, y: byte, z: byte)
    requires Xor(x, y) == Xor(x, z)
    ensures y == z
  {
    hide Xor;
    XorCommutes(x, y);
    XorCommutes(x, z);
    XorCancels(y, x);
    XorCancels(z, x);
  }

  /** Decryption leaves a block as it is for at most one IV. */
  lemma FixedForOneIv(w: Fips197.Schedule, block: Fips197.Block, iv: Fips197.Block, other: Fips197.Block)
    requires Cbc.Decrypt(w, iv, block) == block && Cbc.Decrypt(w, other, block) == block
    ensures iv == other
  {
    hide Fips197.InvCipher, Cbc.Decrypt, Xor;
    var x := Fips197.InvCipher(w, block);
    Cbc.DecryptFirst(w, iv, block, []);
    Cbc.DecryptFirst(w, other, block, []);
    Cbc.DecryptNothing(w, block);
    assert block + [] == block;
    assert Fips197.AddBlocks(x, iv) + [] == Fips197.AddBlocks(x, iv);
    assert Fips197.AddBlocks(x, other) + [] == Fips197.AddBlocks(x, other);
    forall j | 0 <= j < 16 ensures iv[j] == other[j] {
      assert Fips197.AddBlocks(x, iv)[j] == Fips197.AddBlocks(x, other)[j];
      SumFixesTerm(x[j], iv[j], other[j]);
    }
  }

  function TwoOrders(key: Fips197.Key, iv: Fips197.Block): seq<Request> {
    [Request(Order(0, 0, 16, false), key, iv), Request(Order(0, 16, 16, false), key, iv)]
  }

  lemma TwoOrdersAccepted(memory: seq<byte>, key: Fips197.Key, iv: Fips197.Block)
    requires |memory| == 32
    ensures var requests := TwoOrders(key, iv);
      && Acceptable(memory, 1, requests) && !Stands(requests, 0) && Stands(requests, 1)
      && !DistinctSlots(Contexts(requests))
  {
    var requests := TwoOrders(key, iv);
    ReusedIndexLosesOrder(requests[0], requests[1]);
    SpawnAllWaits(1, requests);
    assert requests[1].order.index == requests[0].order.index;
  }

  /**
   * Two orders of a block each for thread index 0, under any key and on any memory: for all IVs but one,
   * a run of the spin returns with the second order decrypted and the first one not.
   */
  lemma ReusedIndexReturnsWrong(memory: seq<byte>, key: Fips197.Key, iv: Fips197.Block, other: Fips197.Block)
    returns (chosen: Fips197.Block, actions: seq<Action>)
    requires |memory| == 32 && iv != other
    ensures chosen == iv || chosen == other
    ensures Acceptable(memory, 1, TwoOrders(key, chosen))
    ensures var requests := TwoOrders(key, chosen);
      var end := Spin(Queue(memory, 1, requests), actions);
      && end.boot.at == Returned
      && DecryptedIn(memory, end.memory, requests[1])
      && UnchangedIn(memory, end.memory, requests[0]) && !DecryptedIn(memory, end.memory, requests[0])
  {
    hide Spin, Queue, Acceptable, Stands, Contexts, DecryptedIn, UnchangedIn, Cbc.Decrypt, Fips197.ExpandedKey;
    var w := Fips197.ExpandedKey(key);
    chosen := if Cbc.Decrypt(w, iv, memory[0..16]) == memory[0..16] then other else iv;
    if Cbc.Decrypt(w, other, memory[0..16]) == memory[0..16] && chosen == other {
      FixedForOneIv(w, memory[0..16], iv, other);
    }
    var requests := TwoOrders(key, chosen);
    TwoOrdersAccepted(memory, key, chosen);
    var p := Queue(memory, 1, requests);
    actions := SpinCanReturn(p, []);
    assert [] + actions == actions;
    EveryOrderIsSettled(memory, 1, requests, actions, 0);
    EveryOrderIsSettled(memory, 1, requests, actions, 1);
    LostOrderIsNotDecrypted(memory, 1, requests, actions, 0);
  }
}
