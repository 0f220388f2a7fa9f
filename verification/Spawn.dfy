/**
 * How work is queued: `SpawnDecryptionWorker` copies an order, its key and its IV into a new
 * thread context and hangs it into the slot of the order's thread index.
 */
module Spawn {
  import opened Octets
  import opened Options
  import opened Protocol
  import Fips197

  datatype Order = Order(index: nat, location: nat, length: nat, suppress: bool)

  // A panic never returns to the caller.
  datatype Status = InvalidParameter | Panicked | Success | Busy

  /** The contexts allocated so far, and what the thread slots hold. */
  datatype Pool = Pool(contexts: seq<Context>, holder: seq<Option<nat>>, started: seq<bool>, finished: seq<bool>)

  ghost predicate PoolShaped(t: Pool) {
    |t.holder| == |t.started| == |t.finished|
  }

  /** What is to be spawned: an order with its key and IV. */
  datatype Request = Request(order: Order, key: Fips197.Key, iv: Fips197.Block) {
    function Queued(): Context {
      Context(order.index, order.location, order.length, order.suppress, key, iv)
    }
  }

  function Zeroed(slots: nat): (t: Pool)
    ensures PoolShaped(t)
  {
    Pool([], seq(slots, _ => None), seq(slots, _ => false), seq(slots, _ => false))
  }

  function Outcome(t: Pool, order: Order): Status
    requires PoolShaped(t)
  {
    if order.index >= |t.holder| then Panicked
    else if order.length > 0 && t.started[order.index] && !t.finished[order.index] then Busy
    else Success
  }

  /** The slots after a spawn: a new context replaces whatever its slot held. */
  function Spawned(t: Pool, r: Request): (u: Pool)
    requires PoolShaped(t)
    ensures PoolShaped(u)
  {
    if Outcome(t, r.order) != Success || r.order.length == 0 then t else
    Pool(t.contexts + [r.Queued()], t.holder[r.order.index := Some(|t.contexts|)],
         t.started[r.order.index := false], t.finished[r.order.index := false])
  }

  /** The global `Threads`, and the contexts they point to. */
  class Threads {
    var contexts: seq<Context>
    const holder: array<Option<nat>>
    const started: array<bool>
    const finished: array<bool>

    ghost predicate Valid()
      reads this
    {
      holder.Length == started.Length == finished.Length && started != finished
    }

    ghost function Contents(): (t: Pool)
      reads this, holder, started, finished
      requires Valid()
      ensures PoolShaped(t)
    {
      Pool(contexts, holder[..], started[..], finished[..])
    }

    constructor (slots: nat)
      ensures Valid() && Contents() == Zeroed(slots)
      ensures fresh(holder) && fresh(started) && fresh(finished)
    {
      contexts := [];
      holder := new Option<nat>[slots](_ => None);
      started := new bool[slots](_ => false);
      finished := new bool[slots](_ => false);
      new;
      assert Contents() == Zeroed(slots);
    }

    /** `CreateThread`: the slot now belongs to the context, and is neither started nor finished. */
    method CreateThread(slot: nat, context: nat)
      requires Valid() && slot < holder.Length
      modifies holder, started, finished
      ensures holder[..] == old(holder[..])[slot := Some(context)]
      ensures started[..] == old(started[..])[slot := false]
      ensures finished[..] == old(finished[..])[slot := false]
    {
      holder[slot] := Some(context);
      finished[slot] := false;
      started[slot] := false;
    }

    method SpawnDecryptionWorker(order: Option<Order>, key: array?<byte>, iv: array?<byte>) returns (status: Status)
      requires Valid()
      requires key != null ==> key.Length == 32
      requires iv != null ==> iv.Length == 16
      modifies this`contexts, holder, started, finished
      ensures Valid()
      ensures order.None? || key == null || iv == null ==> status == InvalidParameter && Contents() == old(Contents())
      ensures order.Some? && key != null && iv != null ==>
        && status == Outcome(old(Contents()), order.value)
        && Contents() == Spawned(old(Contents()), Request(order.value, old(key[..]), old(iv[..])))
      ensures order.Some? && key != null && iv != null ==>
        var i := order.value.index;
        if i >= holder.Length then status == Panicked && Contents() == old(Contents())
        else if order.value.length == 0 then status == Success && Contents() == old(Contents())
        else if old(started[i]) && !old(finished[i]) then status == Busy && Contents() == old(Contents())
        else
          && status == Success
          && contexts == old(contexts) + [Context(i, order.value.location, order.value.length, order.value.suppress,
                                                  old(key[..]), old(iv[..]))]
          && holder[i] == Some(|old(contexts)|) && !started[i] && !finished[i]
          && (forall j :: 0 <= j < holder.Length && j != i ==>
                holder[j] == old(holder[j]) && started[j] == old(started[j]) && finished[j] == old(finished[j]))
    {
      if order.None? || key == null || iv == null {
        return InvalidParameter;
      }
      var o := order.value;
      if o.index >= holder.Length {
        return Panicked;
      }
      if o.length == 0 {
        return Success;
      }
      if started[o.index] && !finished[o.index] {
        return Busy;
      }
      var context := |contexts|;
      contexts := contexts + [Context(o.index, o.location, o.length, o.suppress, key[..], iv[..])];
      CreateThread(o.index, context);
      return Success;
    }
  }

  // --------------------------------------------------------------------------
  // Queueing a whole payload
  // --------------------------------------------------------------------------

  function SpawnAll(slots: nat, requests: seq<Request>): (t: Pool)
    ensures PoolShaped(t)
    decreases |requests|
  {
    if requests == [] then Zeroed(slots) else
    Spawned(SpawnAll(slots, requests[..|requests| - 1]), requests[|requests| - 1])
  }

  /** The contexts that the requests ask for: one for each order that is not empty. */
  function Contexts(requests: seq<Request>): seq<Context>
    decreases |requests|
  {
    if requests == [] then [] else
    var r := requests[|requests| - 1];
    Contexts(requests[..|requests| - 1]) + (if r.order.length == 0 then [] else [r.Queued()])
  }

  /** `*QueuedBytes`: the lengths of all orders. */
  function QueuedBytes(requests: seq<Request>): nat
    decreases |requests|
  {
    if requests == [] then 0 else QueuedBytes(requests[..|requests| - 1]) + requests[|requests| - 1].order.length
  }

  ghost predicate InRange(slots: nat, requests: seq<Request>) {
    forall k :: 0 <= k < |requests| ==> requests[k].order.index < slots
  }

  // A slot holds the last context that was queued for it.
  ghost predicate HoldsLast(contexts: seq<Context>, held: Option<nat>, slot: nat) {
    match held
    case None => forall d :: 0 <= d < |contexts| ==> contexts[d].slot != slot
    case Some(c) =>
      && c < |contexts| && contexts[c].slot == slot
      && forall d :: c < d < |contexts| ==> contexts[d].slot != slot
  }

  ghost predicate Waiting(t: Pool) {
    && PoolShaped(t)
    && (forall i :: 0 <= i < |t.holder| ==> !t.started[i] && !t.finished[i] && HoldsLast(t.contexts, t.holder[i], i))
    && (forall c :: 0 <= c < |t.contexts| ==> t.contexts[c].slot < |t.holder| && t.contexts[c].length > 0)
  }

  lemma SpawnedWaits(t: Pool, r: Request)
    requires Waiting(t) && r.order.index < |t.holder|
    ensures Outcome(t, r.order) == Success && Waiting(Spawned(t, r))
  {
    if r.order.length > 0 {
      var u := Spawned(t, r);
      forall i: nat | i < |u.holder| ensures HoldsLast(u.contexts, u.holder[i], i) {
        assert HoldsLast(t.contexts, t.holder[i], i);
      }
    }
  }

  /** From zeroed slots every spawn succeeds, and each slot holds the last context queued for it. */
  lemma {:induction false} SpawnAllWaits(slots: nat, requests: seq<Request>)
    requires InRange(slots, requests)
    ensures var t := SpawnAll(slots, requests);
      Waiting(t) && |t.holder| == slots && t.contexts == Contexts(requests)
    decreases |requests|
  {
    if requests != [] {
      var before, r := requests[..|requests| - 1], requests[|requests| - 1];
      SpawnAllWaits(slots, before);
      SpawnedWaits(SpawnAll(slots, before), r);
      hide Waiting;
    }
  }

  ghost predicate DistinctSlots(contexts: seq<Context>) {
    forall c, d :: 0 <= c < d < |contexts| ==> contexts[c].slot != contexts[d].slot
  }

  ghost predicate AllHeld(t: Pool)
    requires Waiting(t)
  {
    forall c :: 0 <= c < |t.contexts| ==> t.holder[t.contexts[c].slot] == Some(c)
  }

  /** No order is lost exactly when no thread index is used twice. */
  lemma HeldExactlyWhenDistinct(t: Pool)
    requires Waiting(t)
    ensures AllHeld(t) <==> DistinctSlots(t.contexts)
  {
    if DistinctSlots(t.contexts) {
      forall c: nat | c < |t.contexts| ensures t.holder[t.contexts[c].slot] == Some(c) {
        assert HoldsLast(t.contexts, t.holder[t.contexts[c].slot], t.contexts[c].slot);
      }
    }
  }

  /** The plan that `UefiSpin` works on. */
  function PlanOf(memory: seq<byte>, t: Pool, total: nat): Plan {
    Plan(memory, t.contexts, t.holder, total)
  }

  ghost predicate HoldersExist(p: Plan) {
    forall i :: 0 <= i < |p.holder| && p.holder[i].Some? ==> p.holder[i].value < |p.contexts|
  }

  function HeldBytes(p: Plan, i: nat): nat
    requires HoldersExist(p) && i < |p.holder|
  {
    if p.holder[i].Some? then p.contexts[p.holder[i].value].length else 0
  }

  lemma {:induction false} SlotSumAfterSpawn(p: Plan, q: Plan, c: Context, n: nat)
    requires HoldersExist(p) && n <= |p.holder| && c.slot < |p.holder|
    requires q.contexts == p.contexts + [c] && q.holder == p.holder[c.slot := Some(|p.contexts|)]
    ensures HoldersExist(q)
    ensures SlotSum(q, n) == SlotSum(p, n) + (if c.slot < n then c.length - HeldBytes(p, c.slot) else 0)
    decreases n
  {
    if n > 0 {
      SlotSumAfterSpawn(p, q, c, n - 1);
      assert HeldBytes(q, n - 1) == if n - 1 == c.slot then c.length else HeldBytes(p, n - 1);
    }
  }

  lemma {:induction false} NothingHeld(p: Plan, n: nat)
    requires n <= |p.holder| && forall i :: 0 <= i < |p.holder| ==> p.holder[i].None?
    ensures HoldersExist(p) && SlotSum(p, n) == 0
  {
    if n > 0 {
      NothingHeld(p, n - 1);
    }
  }

  lemma DistinctExtends(contexts: seq<Context>, c: Context)
    ensures DistinctSlots(contexts + [c])
       <==> DistinctSlots(contexts) && forall d :: 0 <= d < |contexts| ==> contexts[d].slot != c.slot
  {
    var next := contexts + [c];
    if DistinctSlots(next) {
      forall d, e | 0 <= d < e < |contexts| ensures contexts[d].slot != contexts[e].slot {
        assert next[d].slot != next[e].slot;
      }
      forall d | 0 <= d < |contexts| ensures contexts[d].slot != c.slot {
        assert next[d].slot != next[|contexts|].slot;
      }
    }
  }

  lemma WaitingHolders(memory: seq<byte>, t: Pool, total: nat)
    requires Waiting(t)
    ensures HoldersExist(PlanOf(memory, t, total))
  {
    forall i: nat | i < |t.holder| && t.holder[i].Some? ensures t.holder[i].value < |t.contexts| {
      assert HoldsLast(t.contexts, t.holder[i], i);
    }
  }

  // What a spawn adds to the bytes held, and when it adds its whole length.
  lemma SpawnAddsBytes(memory: seq<byte>, t: Pool, r: Request, total: nat)
    requires Waiting(t) && r.order.index < |t.holder| && r.order.length > 0
    ensures var p, q := PlanOf(memory, t, total), PlanOf(memory, Spawned(t, r), total);
      && HoldersExist(p) && HoldersExist(q)
      && SlotSum(q, |q.holder|) <= SlotSum(p, |p.holder|) + r.order.length
      && (SlotSum(q, |q.holder|) == SlotSum(p, |p.holder|) + r.order.length
          <==> forall d :: 0 <= d < |t.contexts| ==> t.contexts[d].slot != r.order.index)
  {
    var p, q := PlanOf(memory, t, total), PlanOf(memory, Spawned(t, r), total);
    WaitingHolders(memory, t, total);
    SlotSumAfterSpawn(p, q, r.Queued(), |p.holder|);
    assert HoldsLast(t.contexts, t.holder[r.order.index], r.order.index);
  }

  /** The spin can account for every queued byte exactly when no thread index is used twice. */
  lemma {:induction false} BytesHeldExactlyWhenDistinct(memory: seq<byte>, slots: nat, requests: seq<Request>,
                                                        total: nat)
    requires InRange(slots, requests)
    ensures var p := PlanOf(memory, SpawnAll(slots, requests), total);
      && HoldersExist(p) && SlotSum(p, |p.holder|) <= QueuedBytes(requests)
      && (SlotSum(p, |p.holder|) == QueuedBytes(requests) <==> DistinctSlots(Contexts(requests)))
    decreases |requests|
  {
    hide Waiting, DistinctSlots, SlotSum, HoldersExist, Spawned;
    if requests == [] {
      NothingHeld(PlanOf(memory, Zeroed(slots), total), slots);
      assert DistinctSlots([]) by { NoContexts(); }
    } else {
      var before, r := requests[..|requests| - 1], requests[|requests| - 1];
      BytesHeldExactlyWhenDistinct(memory, slots, before, total);
      SpawnAllWaits(slots, before);
      if r.order.length > 0 {
        SpawnAddsBytes(memory, SpawnAll(slots, before), r, total);
        DistinctExtends(Contexts(before), r.Queued());
      } else {
        EmptyOrder(SpawnAll(slots, before), r);
        assert Contexts(requests) == Contexts(before);
      }
    }
  }

  lemma NoContexts()
    ensures DistinctSlots([])
  {}

  lemma EmptyOrder(t: Pool, r: Request)
    requires PoolShaped(t) && r.order.length == 0
    ensures Spawned(t, r) == t
  {}

  // --------------------------------------------------------------------------
  // The plan
  // --------------------------------------------------------------------------

  /** Orders of whole blocks, inside memory and apart from each other. */
  ghost predicate RegionsOk(memory: seq<byte>, contexts: seq<Context>) {
    && (forall c :: 0 <= c < |contexts| ==>
          contexts[c].length % 16 == 0 && contexts[c].location + contexts[c].length <= |memory|)
    && (forall c, d :: 0 <= c < d < |contexts| ==> Apart(contexts[c], contexts[d]))
  }

  /** Whatever was queued, thread indices used twice or not, is a plan for the spin. */
  lemma QueueMakesPlan(memory: seq<byte>, slots: nat, requests: seq<Request>)
    requires InRange(slots, requests) && RegionsOk(memory, Contexts(requests))
    ensures WellFormed(PlanOf(memory, SpawnAll(slots, requests), QueuedBytes(requests)))
  {
    hide DistinctSlots, SlotSum;
    var t := SpawnAll(slots, requests);
    SpawnAllWaits(slots, requests);
    BytesHeldExactlyWhenDistinct(memory, slots, requests, QueuedBytes(requests));
    forall i: nat | i < |t.holder| && t.holder[i].Some? ensures t.contexts[t.holder[i].value].slot == i {
      assert HoldsLast(t.contexts, t.holder[i], i);
    }
  }

  // A context is held exactly when no later one is for its slot.
  lemma HeldExactlyWhenLast(memory: seq<byte>, t: Pool, total: nat, c: nat)
    requires Waiting(t) && c < |t.contexts|
    ensures Held(PlanOf(memory, t, total), c)
       <==> forall d :: c < d < |t.contexts| ==> t.contexts[d].slot != t.contexts[c].slot
  {
    assert HoldsLast(t.contexts, t.holder[t.contexts[c].slot], t.contexts[c].slot);
  }

  // --------------------------------------------------------------------------
  // Requests and their contexts
  // --------------------------------------------------------------------------

  /** No later order takes the thread index of order `k`. */
  ghost predicate Stands(requests: seq<Request>, k: nat) {
    k < |requests| && requests[k].order.length > 0
    && forall j :: k < j < |requests| && requests[j].order.length > 0 ==>
        requests[j].order.index != requests[k].order.index
  }

  /** Where the context of order `k` is. */
  function Position(requests: seq<Request>, k: nat): nat
    requires k <= |requests|
  {
    |Contexts(requests[..k])|
  }

  lemma {:induction false} ContextOfRequest(requests: seq<Request>, k: nat)
    requires k < |requests| && requests[k].order.length > 0
    ensures Position(requests, k) < |Contexts(requests)|
    ensures Contexts(requests)[Position(requests, k)] == requests[k].Queued()
    decreases |requests|
  {
    var before := requests[..|requests| - 1];
    if k < |requests| - 1 {
      assert requests[..k] == before[..k];
      ContextOfRequest(before, k);
    }
  }

  lemma {:induction false} PositionsGrow(requests: seq<Request>, j: nat, k: nat)
    requires j < k <= |requests|
    ensures Position(requests, j) + (if requests[j].order.length > 0 then 1 else 0) <= Position(requests, k)
    decreases k
  {
    assert requests[..k][..k - 1] == requests[..k - 1];
    if j < k - 1 {
      PositionsGrow(requests, j, k - 1);
    }
  }

  lemma {:induction false} RequestOfContext(requests: seq<Request>, c: nat) returns (k: nat)
    requires c < |Contexts(requests)|
    ensures k < |requests| && requests[k].order.length > 0 && Position(requests, k) == c
    decreases |requests|
  {
    var before := requests[..|requests| - 1];
    if c < |Contexts(before)| {
      k := RequestOfContext(before, c);
      assert requests[..k] == before[..k];
    } else {
      k := |requests| - 1;
    }
  }

  /** An order stands exactly when no later context is for its slot. */
  lemma StandsExactlyWhenLast(requests: seq<Request>, k: nat)
    requires k < |requests| && requests[k].order.length > 0
    ensures var c, all := Position(requests, k), Contexts(requests);
      && c < |all| && all[c] == requests[k].Queued()
      && (Stands(requests, k) <==> forall d :: c < d < |all| ==> all[d].slot != requests[k].order.index)
  {
    hide Contexts, Position;
    var c, all := Position(requests, k), Contexts(requests);
    ContextOfRequest(requests, k);
    forall j | k < j < |requests| && requests[j].order.length > 0 && requests[j].order.index == requests[k].order.index
      ensures exists d :: c < d < |all| && all[d].slot == requests[k].order.index
    {
      ContextOfRequest(requests, j);
      PositionsGrow(requests, k, j);
      assert all[Position(requests, j)].slot == requests[k].order.index;
    }
    forall d: nat | c < d < |all| && all[d].slot == requests[k].order.index ensures !Stands(requests, k) {
      var j := RequestOfContext(requests, d);
      ContextOfRequest(requests, j);
      if j < k {
        PositionsGrow(requests, j, k);
      }
    }
  }

  /** Two orders for the same thread index: the first is no longer held, and half of the bytes are missing. */
  lemma ReusedIndexLosesOrder(r: Request, s: Request)
    requires r.order.index == s.order.index == 0 && r.order.length == s.order.length == 16
    ensures var t := SpawnAll(1, [r, s]);
      && t.contexts == [r.Queued(), s.Queued()] && t.holder == [Some(1)]
      && QueuedBytes([r, s]) == 32 && !DistinctSlots(t.contexts)
  {
    assert [r, s][..1] == [r] && [r][..0] == [];
    assert SpawnAll(1, [r]) == Spawned(SpawnAll(1, []), r);
    assert SpawnAll(1, [r, s]) == Spawned(SpawnAll(1, [r]), s);
    assert QueuedBytes([r, s]) == QueuedBytes([r]) + 16;
    var contexts := SpawnAll(1, [r, s]).contexts;
    assert contexts[0].slot == contexts[1].slot;
  }
}
