/**
 * The in-process mediator between the world and the NPCs (src/game/messaging/world_bus.py):
 * a registry from NPC id to a snapshot builder (pull) and a per-NPC priority event queue (push).
 *
 * The lock is left out: every operation is one atomic step. A `PriorityQueue` is modelled by its
 * abstract value, the sequence of pending entries in the order `get` would return them.
 */
module Bus {
  import opened Wrappers
  import opened Messages

  /** The queue key `(-priority, seq)`; Python compares such tuples lexicographically. */
  datatype Key = Key(negPriority: int, seqNo: int)

  /** `a < b` on keys: `a` is served first. */
  predicate Before(a: Key, b: Key)
  {
    a.negPriority < b.negPriority || (a.negPriority == b.negPriority && a.seqNo < b.seqNo)
  }

  /** A queued item `(-ev.priority, seq, ev)`. */
  datatype Entry = Entry(key: Key, ev: WorldEvent)

  /** The item `publish_event` enqueues for `ev` when it draws sequence number `seqNo`. */
  function EntryFor(ev: WorldEvent, seqNo: int): Entry
  {
    Entry(Key(-ev.priority, seqNo), ev)
  }

  /** The order of keys is: higher priority first, and within one priority the smaller sequence number first. */
  lemma BeforeMeansPriorityThenFifo(a: WorldEvent, sa: int, b: WorldEvent, sb: int)
    ensures Before(EntryFor(a, sa).key, EntryFor(b, sb).key)
        <==> a.priority > b.priority || (a.priority == b.priority && sa < sb)
  {
  }

  /** Pending entries in serving order, each key strictly before the next ones. */
  predicate Sorted(q: seq<Entry>)
  {
    forall i, j :: 0 <= i < j < |q| ==> Before(q[i].key, q[j].key)
  }

  /** Every entry of `q` drew a sequence number smaller than `s`. */
  predicate AllOlder(q: seq<Entry>, s: int)
  {
    forall i :: 0 <= i < |q| ==> q[i].key.seqNo < s
  }

  lemma MultisetMember<T>(q: seq<T>, i: int)
    requires 0 <= i < |q|
    ensures q[i] in multiset(q)
  {
  }

  /** `PriorityQueue.put`: the new entry, younger than every pending one, takes its place in serving order. */
  function Insert(q: seq<Entry>, e: Entry): (r: seq<Entry>)
    requires Sorted(q) && AllOlder(q, e.key.seqNo)
    ensures Sorted(r)
    ensures multiset(r) == multiset(q) + multiset{e}
  {
    if q == [] then [e]
    else if Before(e.key, q[0].key) then [e] + q
    else
      var rest := Insert(q[1..], e);
      assert forall j :: 0 <= j < |rest| ==> Before(q[0].key, rest[j].key) by {
        forall j | 0 <= j < |rest| ensures Before(q[0].key, rest[j].key) {
          MultisetMember(rest, j);
          assert rest[j] in multiset(q[1..]) || rest[j] == e;
          if rest[j] != e {
            var k :| 0 <= k < |q[1..]| && q[1..][k] == rest[j];
            assert q[k + 1] == rest[j];
          }
        }
      }
      assert q == [q[0]] + q[1..];
      [q[0]] + rest
  }

  /** Inserting into a queue whose entries are all older than `s` keeps them older than `s`, if the new one is. */
  lemma InsertAllOlder(q: seq<Entry>, e: Entry, s: int)
    requires Sorted(q) && AllOlder(q, e.key.seqNo)
    requires AllOlder(q, s) && e.key.seqNo < s
    ensures AllOlder(Insert(q, e), s)
  {
    var r := Insert(q, e);
    forall i | 0 <= i < |r| ensures r[i].key.seqNo < s {
      MultisetMember(r, i);
      if r[i] != e {
        assert r[i] in multiset(q);
        var k :| 0 <= k < |q| && q[k] == r[i];
      }
    }
  }

  /** The entries for `evs` published one after the other, drawing `s0 + 1`, `s0 + 2`, ... */
  function Tagged(evs: seq<WorldEvent>, s0: int): (r: seq<Entry>)
    ensures |r| == |evs|
    ensures forall i :: 0 <= i < |evs| ==> r[i] == EntryFor(evs[i], s0 + i + 1)
  {
    seq(|evs|, i requires 0 <= i < |evs| => EntryFor(evs[i], s0 + i + 1))
  }

  lemma TaggedSnoc(evs: seq<WorldEvent>, s0: int)
    requires evs != []
    ensures Tagged(evs, s0) == Tagged(evs[..|evs| - 1], s0) + [EntryFor(evs[|evs| - 1], s0 + |evs|)]
  {
    var n := |evs|;
    var l := Tagged(evs[..n - 1], s0) + [EntryFor(evs[n - 1], s0 + n)];
    forall i | 0 <= i < n ensures Tagged(evs, s0)[i] == l[i] {
      if i < n - 1 {
        assert evs[..n - 1][i] == evs[i];
      }
    }
  }

  /**
   * The queue of an NPC registered with an empty queue, after `evs` were published to it in
   * order, the first drawing sequence number `s0 + 1`.
   */
  function Published(evs: seq<WorldEvent>, s0: int): (r: seq<Entry>)
    ensures Sorted(r) && AllOlder(r, s0 + |evs| + 1)
    ensures multiset(r) == multiset(Tagged(evs, s0))
  {
    if evs == [] then []
    else
      var n := |evs|;
      var prev := Published(evs[..n - 1], s0);
      var e := EntryFor(evs[n - 1], s0 + n);
      InsertAllOlder(prev, e, s0 + n + 1);
      TaggedSnoc(evs, s0);
      Insert(prev, e)
  }

  /** In a queue in serving order, the position of two entries with distinct keys follows their keys. */
  lemma SortedPositions(d: seq<Entry>, a: int, b: int)
    requires Sorted(d)
    requires 0 <= a < |d| && 0 <= b < |d| && d[a].key.seqNo != d[b].key.seqNo
    ensures a < b <==> Before(d[a].key, d[b].key)
  {
    if b < a {
      assert Before(d[b].key, d[a].key);
    }
  }

  /**
   * Priority-FIFO ordering: after `evs` were published (position `i` drawing `s0 + i + 1`), the
   * entry of event `i` is served before the entry of event `j` exactly when `i` has the higher
   * priority, or the same priority and was published first.
   */
  lemma DrainOrder(evs: seq<WorldEvent>, s0: int, i: int, j: int, a: int, b: int)
    requires 0 <= i < |evs| && 0 <= j < |evs| && i != j
    requires 0 <= a < |Published(evs, s0)| && Published(evs, s0)[a] == Tagged(evs, s0)[i]
    requires 0 <= b < |Published(evs, s0)| && Published(evs, s0)[b] == Tagged(evs, s0)[j]
    ensures a < b <==> evs[i].priority > evs[j].priority || (evs[i].priority == evs[j].priority && i < j)
  {
    var d := Published(evs, s0);
    SortedPositions(d, a, b);
  }

  /** Multiplicity of the element at position `i` of a sequence whose elements are pairwise distinct. */
  lemma DistinctCount<T>(t: seq<T>, i: int)
    requires 0 <= i < |t|
    requires forall k, l :: 0 <= k < l < |t| ==> t[k] != t[l]
    ensures multiset(t)[t[i]] == 1
  {
    var others := t[..i] + t[i + 1..];
    assert t == t[..i] + [t[i]] + t[i + 1..];
    assert t[i] !in multiset(others) by {
      forall k | 0 <= k < |others| ensures others[k] != t[i] {
        if k < i { assert others[k] == t[k]; } else { assert others[k] == t[k + 1]; }
      }
    }
    assert multiset(t) == multiset(others) + multiset{t[i]};
  }

  /** Publishing loses and duplicates nothing: every published event is pending exactly once. */
  lemma PublishedKeepsEveryEvent(evs: seq<WorldEvent>, s0: int, i: int)
    requires 0 <= i < |evs|
    ensures multiset(Published(evs, s0))[Tagged(evs, s0)[i]] == 1
  {
    var t := Tagged(evs, s0);
    forall k, l | 0 <= k < l < |t| ensures t[k] != t[l] {
      assert t[k].key.seqNo == s0 + k + 1;
      assert t[l].key.seqNo == s0 + l + 1;
    }
    DistinctCount(t, i);
  }

  /** The error `request_snapshot` raises for an id nobody registered. */
  datatype BusError = KeyError(npcId: string)

  /**
   * The registry. `W` stands for the state of the world when a builder is invoked: a builder is an
   * opaque function of it, re-applied on every request.
   */
  class WorldBus<W> {
    var builders: map<string, W -> WorldSnapshot>
    var queues: map<string, seq<Entry>>
    /** The global `_seq` counter: the last sequence number handed out. */
    var lastSeq: nat

    /** Every registered id has a builder and a queue; queues are in serving order and hold only issued numbers. */
    ghost predicate Valid()
      reads this
    {
      && builders.Keys == queues.Keys
      && (forall id :: id in queues ==> Sorted(queues[id]) && AllOlder(queues[id], lastSeq + 1))
    }

    constructor ()
      ensures Valid()
      ensures builders == map[] && queues == map[] && lastSeq == 0
    {
      builders := map[];
      queues := map[];
      lastSeq := 0;
    }

    /** Installs or overwrites the builder and replaces the id's queue by an empty one, discarding pending events. */
    method RegisterNpc(npcId: string, builder: W -> WorldSnapshot)
      requires Valid()
      modifies this
      ensures Valid()
      ensures builders == old(builders)[npcId := builder]
      ensures queues == old(queues)[npcId := []]
      ensures lastSeq == old(lastSeq)
    {
      builders := builders[npcId := builder];
      queues := queues[npcId := []];
    }

    /** Removes the builder and the queue; an unknown id is not an error. */
    method UnregisterNpc(npcId: string)
      requires Valid()
      modifies this
      ensures Valid()
      ensures builders == old(builders) - {npcId}
      ensures queues == old(queues) - {npcId}
      ensures npcId !in builders && npcId !in queues
      ensures lastSeq == old(lastSeq)
    {
      builders := builders - {npcId};
      queues := queues - {npcId};
    }

    /** Pull: `KeyError` for an unregistered id, otherwise the builder applied to the world as it is now (no caching). */
    method RequestSnapshot(npcId: string, world: W) returns (r: Result<WorldSnapshot, BusError>)
      ensures r.Failure? <==> npcId !in builders
      ensures r.Failure? ==> r.error == KeyError(npcId)
      ensures r.Success? ==> npcId in builders && r.value == builders[npcId](world)
    {
      if npcId !in builders {
        return Failure(KeyError(npcId));
      }
      var builder := builders[npcId];
      r := Success(builder(world));
    }

    /**
     * Push: an unregistered id drops the event silently (no queue created, counter untouched);
     * otherwise the counter is bumped by one and the event is queued under `(-priority, counter)`.
     * No other id's queue changes.
     */
    method PublishEvent(npcId: string, ev: WorldEvent)
      requires Valid()
      modifies this
      ensures Valid()
      ensures builders == old(builders)
      ensures npcId !in old(queues) ==> queues == old(queues) && lastSeq == old(lastSeq)
      ensures npcId in old(queues) ==>
        && lastSeq == old(lastSeq) + 1
        && queues == old(queues)[npcId := Insert(old(queues)[npcId], EntryFor(ev, lastSeq))]
      ensures forall id :: id != npcId && id in old(queues) ==> id in queues && queues[id] == old(queues)[id]
    {
      if npcId !in queues {
        return;
      }
      var q := queues[npcId];
      lastSeq := lastSeq + 1;
      var e := EntryFor(ev, lastSeq);
      InsertAllOlder(q, e, lastSeq + 1);
      queues := queues[npcId := Insert(q, e)];
    }

    /**
     * Non-blocking poll: `None` for an unregistered id or an empty queue; otherwise removes and
     * returns the head, which is served before every entry left behind.
     */
    method TryGetEvent(npcId: string) returns (r: Option<WorldEvent>)
      requires Valid()
      modifies this
      ensures Valid()
      ensures builders == old(builders) && lastSeq == old(lastSeq)
      ensures npcId !in old(queues) || old(queues)[npcId] == [] ==> r == None && queues == old(queues)
      ensures npcId in old(queues) && old(queues)[npcId] != [] ==>
        && r == Some(old(queues)[npcId][0].ev)
        && queues == old(queues)[npcId := old(queues)[npcId][1..]]
        && (forall e :: e in queues[npcId] ==> Before(old(queues)[npcId][0].key, e.key))
    {
      if npcId !in queues {
        return None;
      }
      var q := queues[npcId];
      if q == [] {
        return None;
      }
      queues := queues[npcId := q[1..]];
      r := Some(q[0].ev);
    }
  }
}
