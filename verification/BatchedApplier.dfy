/** The cancel/replace rules of absorb, and the class that runs the coalescing loop. */
module BatchedApplier {
  import opened Wrappers

  datatype UserId = UserId(uuid: nat)

  datatype Kind = AddUser | RemoveUser | SetLimit

  datatype Delta = Delta(kind: Kind, userID: UserId, payload: string, enqueued: int)

  type Pending = map<UserId, Delta>

  predicate Cancels(x: Kind, y: Kind) {
    (x.AddUser? && y.RemoveUser?) || (x.RemoveUser? && y.AddUser?)
  }

  function Merge(m: Pending, d: Delta): Pending {
    if d.userID in m && Cancels(m[d.userID].kind, d.kind) then m - {d.userID}
    else m[d.userID := d]
  }

  function MergeAll(m: Pending, ds: seq<Delta>): Pending
    decreases |ds|
  {
    if ds == [] then m else MergeAll(Merge(m, ds[0]), ds[1..])
  }

  lemma {:induction false} MergeAllConcat(m: Pending, xs: seq<Delta>, ys: seq<Delta>)
    ensures MergeAll(m, xs + ys) == MergeAll(MergeAll(m, xs), ys)
    decreases |xs|
  {
    if xs == [] {
      assert xs + ys == ys;
    } else {
      assert (xs + ys)[1..] == xs[1..] + ys;
      MergeAllConcat(Merge(m, xs[0]), xs[1..], ys);
    }
  }

  /** The FlushFn argument: every pending delta once, in some order. */
  ghost predicate Lists(m: Pending, snapshot: seq<Delta>) {
    && |snapshot| == |m|
    && (forall i :: 0 <= i < |snapshot| ==> snapshot[i].userID in m && m[snapshot[i].userID] == snapshot[i])
    && (forall i, j :: 0 <= i < j < |snapshot| ==> snapshot[i].userID != snapshot[j].userID)
  }

  ghost predicate KeyedByUser(m: Pending) {
    forall u :: u in m ==> m[u].userID == u
  }

  class Applier {
    const maxQueue: nat
    var queue: seq<Delta>
    var pending: Pending

    ghost predicate Valid() reads this {
      maxQueue > 0 && |queue| <= maxQueue && KeyedByUser(pending)
    }

    /** A non-positive bound falls back to 1000. */
    constructor (maxQueue: int)
      ensures Valid() && queue == [] && pending == map[]
      ensures this.maxQueue == if maxQueue <= 0 then 1000 else maxQueue
    {
      this.maxQueue := if maxQueue <= 0 then 1000 else maxQueue;
      queue := [];
      pending := map[];
    }

    /** Hands d to the loop; `sent` is false while the channel is full and the caller stays blocked. */
    method Enqueue(d: Delta, stampZero: bool, now: int) returns (sent: bool)
      requires Valid()
      modifies this`queue
      ensures Valid()
      ensures sent == (|old(queue)| < maxQueue)
      ensures queue == if sent then old(queue) + [if stampZero then d.(enqueued := now) else d] else old(queue)
    {
      sent := |queue| < maxQueue;
      if sent {
        queue := queue + [if stampZero then d.(enqueued := now) else d];
      }
    }

    /** The receive operation on the channel. */
    method Receive() returns (d: Delta)
      requires Valid() && queue != []
      modifies this`queue
      ensures Valid() && [d] + queue == old(queue)
    {
      d := queue[0];
      queue := queue[1..];
    }

    method Absorb(d: Delta)
      requires Valid()
      modifies this`pending
      ensures Valid()
      ensures pending == Merge(old(pending), d)
    {
      if d.userID !in pending {
        pending := pending[d.userID := d];
        return;
      }
      var existing := pending[d.userID];
      if (existing.kind == AddUser && d.kind == RemoveUser) || (existing.kind == RemoveUser && d.kind == AddUser) {
        pending := pending - {d.userID};
        return;
      }
      pending := pending[d.userID := d];
    }

    /** Takes the snapshot handed to FlushFn; None when there is nothing to flush. */
    method Flush() returns (snapshot: Option<seq<Delta>>)
      requires Valid()
      modifies this`pending
      ensures Valid() && pending == map[]
      ensures snapshot.None? <==> old(pending) == map[]
      ensures snapshot.Some? ==> snapshot.value != [] && Lists(old(pending), snapshot.value)
    {
      if |pending| == 0 {
        assert pending == map[];
        return None;
      }
      var taken: seq<Delta> := [];
      var todo := pending.Keys;
      while todo != {}
        invariant todo <= pending.Keys
        invariant |taken| + |todo| == |pending.Keys|
        invariant forall i :: 0 <= i < |taken| ==>
          taken[i].userID in pending && taken[i].userID !in todo && pending[taken[i].userID] == taken[i]
        invariant forall i, j :: 0 <= i < j < |taken| ==> taken[i].userID != taken[j].userID
      {
        var u :| u in todo;
        todo := todo - {u};
        taken := taken + [pending[u]];
      }
      pending := map[];
      return Some(taken);
    }

    /** Absorbs whatever is still queued; nothing is flushed. */
    method Drain()
      requires Valid()
      modifies this
      ensures Valid() && queue == []
      ensures pending == MergeAll(old(pending), old(queue))
    {
      while queue != []
        invariant Valid()
        invariant MergeAll(pending, queue) == MergeAll(old(pending), old(queue))
        decreases |queue|
      {
        var d := Receive();
        Absorb(d);
      }
    }
  }
}
