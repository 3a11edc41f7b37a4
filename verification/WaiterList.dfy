/**
 The intrusive doubly linked waiter list of the condition variable, on the heap.

 `Nodes` is the abstract list, oldest waiter first; `Valid` ties it to the
 first/last/previous/next/linked fields.  Every operation is specified by what
 it does to `Nodes`.
 */
module WaiterList {
  import opened Fifo

  class Waiter {
    var previous: Waiter?
    var next: Waiter?
    var linked: bool
    var semaphore: nat

    constructor ()
      ensures previous == null && next == null && !linked && semaphore == 0
    {
      previous, next, linked, semaphore := null, null, false, 0;
    }
  }

  class Condition {
    var first: Waiter?
    var last: Waiter?
    ghost var Nodes: seq<Waiter>

    ghost predicate Valid()
      reads this, Nodes
    {
      && Distinct(Nodes)
      && first == (if Nodes == [] then null else Nodes[0])
      && last == (if Nodes == [] then null else Nodes[|Nodes| - 1])
      && (forall i {:trigger Nodes[i].previous} :: 0 <= i < |Nodes| ==>
            Nodes[i].previous == (if i == 0 then null else Nodes[i - 1]))
      && (forall i {:trigger Nodes[i].next} :: 0 <= i < |Nodes| ==>
            Nodes[i].next == (if i == |Nodes| - 1 then null else Nodes[i + 1]))
      && (forall i {:trigger Nodes[i].linked} :: 0 <= i < |Nodes| ==> Nodes[i].linked)
    }

    constructor ()
      ensures Valid() && Nodes == []
    {
      first, last, Nodes := null, null, [];
    }

    method Append(w: Waiter)
      requires Valid() && w !in Nodes
      modifies this, w`previous, w`next, w`linked, (if last == null then {} else {last})`next
      ensures Valid() && Nodes == old(Nodes) + [w]
    {
      w.previous := last;
      w.next := null;
      w.linked := true;
      if last != null {
        last.next := w;
      } else {
        first := w;
      }
      last := w;
      Nodes := Nodes + [w];
    }

    /** The list with position k cut out, once the neighbours of k point past it. */
    twostate lemma CutIsValid(k: nat)
      requires old(Valid()) && k < |old(Nodes)| && Nodes == old(Nodes)[..k] + old(Nodes)[k + 1..]
      requires var n := old(Nodes);
        && first == (if k == 0 then (if |n| == 1 then null else n[1]) else n[0])
        && last == (if k == |n| - 1 then (if k == 0 then null else n[k - 1]) else n[|n| - 1])
        && (forall i {:trigger n[i].previous} :: 0 <= i < |n| && i != k ==>
              n[i].previous == if i == k + 1 then (if k == 0 then null else n[k - 1]) else old(n[i].previous))
        && (forall i {:trigger n[i].next} :: 0 <= i < |n| && i != k ==>
              n[i].next == if i == k - 1 then (if k == |n| - 1 then null else n[k + 1]) else old(n[i].next))
        && (forall i {:trigger n[i].linked} :: 0 <= i < |n| && i != k ==> n[i].linked)
      ensures Valid()
    {
      var n := old(Nodes);
      forall i | 0 <= i < |Nodes|
        ensures Nodes[i] == n[if i < k then i else i + 1]
        ensures Nodes[i].previous == (if i == 0 then null else Nodes[i - 1])
        ensures Nodes[i].next == (if i == |Nodes| - 1 then null else Nodes[i + 1])
        ensures Nodes[i].linked
      {
        var j := if i < k then i else i + 1;
        assert Nodes[i] == n[j];
        assert old(n[j].previous) == if j == 0 then null else n[j - 1];
        assert old(n[j].next) == if j == |n| - 1 then null else n[j + 1];
        assert n[j].linked;
      }
    }

    /** Makes the neighbours of the waiter at position k, or the ends of the list,
        point past it. */
    method Bypass(w: Waiter, ghost k: nat)
      requires Valid() && k < |Nodes| && Nodes[k] == w
      modifies this`first, this`last, Nodes`previous, Nodes`next
      ensures first == if k == 0 then (if |Nodes| == 1 then null else Nodes[1]) else Nodes[0]
      ensures last == if k == |Nodes| - 1 then (if k == 0 then null else Nodes[k - 1]) else Nodes[|Nodes| - 1]
      ensures forall i {:trigger Nodes[i].previous} :: 0 <= i < |Nodes| && i != k ==>
        Nodes[i].previous == if i == k + 1 then (if k == 0 then null else Nodes[k - 1]) else old(Nodes[i].previous)
      ensures forall i {:trigger Nodes[i].next} :: 0 <= i < |Nodes| && i != k ==>
        Nodes[i].next == if i == k - 1 then (if k == |Nodes| - 1 then null else Nodes[k + 1]) else old(Nodes[i].next)
    {
      assert Nodes[k].previous == (if k == 0 then null else Nodes[k - 1]);
      assert Nodes[k].next == (if k == |Nodes| - 1 then null else Nodes[k + 1]);
      if w.previous != null {
        w.previous.next := w.next;
      } else {
        first := w.next;
      }
      if w.next != null {
        w.next.previous := w.previous;
      } else {
        last := w.previous;
      }
    }

    /** Unlinks w if it is linked and does nothing otherwise. */
    method Remove(w: Waiter)
      requires Valid() && (w.linked <==> w in Nodes)
      modifies this, Nodes`previous, Nodes`next, Nodes`linked
      ensures Valid() && !w.linked && Nodes == Without(old(Nodes), w)
    {
      if !w.linked {
        WithoutMembers(Nodes, w);
        return;
      }
      ghost var k: nat :| k < |Nodes| && Nodes[k] == w;
      Bypass(w, k);
      w.linked := false;
      WithoutAt(Nodes, k);
      Nodes := Nodes[..k] + Nodes[k + 1..];
      CutIsValid(k);
    }

    /** remove_waiter applied to the head of a list that is not empty. */
    method RemoveFirst() returns (waiter: Waiter)
      requires Valid() && Nodes != []
      modifies this, Nodes`previous, Nodes`next, Nodes`linked
      ensures Valid() && waiter == old(Nodes)[0] && Nodes == old(Nodes)[1..]
      ensures !waiter.linked && waiter !in Nodes
    {
      waiter := first;
      assert Nodes[0].linked;
      WithoutAt(Nodes, 0);
      assert Nodes[..0] + Nodes[1..] == Nodes[1..];
      Remove(waiter);
    }

    /** What signal and broadcast do with the oldest waiter. */
    method WakeFirst() returns (waiter: Waiter)
      requires Valid() && Nodes != []
      modifies this, Nodes`previous, Nodes`next, Nodes`linked, {Nodes[0]}`semaphore
      ensures Valid() && waiter == old(Nodes)[0] && Nodes == old(Nodes)[1..]
      ensures !waiter.linked && waiter.semaphore == old(Nodes[0].semaphore) + 1
    {
      waiter := RemoveFirst();
      Post(waiter);
    }

    /** condition_signal under the lock: the oldest waiter, if any, is unlinked
        and its semaphore posted once; nobody else is touched. */
    method Signal() returns (woken: seq<Waiter>)
      requires Valid()
      modifies this, Nodes
      ensures Valid() && woken == FirstOnly(old(Nodes)) && Nodes == old(Nodes)[|woken|..]
      ensures forall i | 0 <= i < |old(Nodes)| ::
        old(Nodes)[i].semaphore == old(Nodes[i].semaphore) + if i == 0 then 1 else 0
      ensures forall x | x in woken :: !x.linked
    {
      woken := [];
      if first != null {
        var waiter := WakeFirst();
        woken := [waiter];
      }
    }

    /** tx_semaphore_put on a waiter outside the list. */
    method Post(waiter: Waiter)
      requires Valid() && waiter !in Nodes
      modifies waiter`semaphore
      ensures Valid() && waiter.semaphore == old(waiter.semaphore) + 1
    {
      waiter.semaphore := waiter.semaphore + 1;
    }

    /** condition_broadcast under the lock: every waiter is unlinked and posted
        exactly once, oldest first. */
    method Broadcast() returns (woken: seq<Waiter>)
      requires Valid()
      modifies this, Nodes
      ensures Valid() && Nodes == [] && woken == old(Nodes)
      ensures forall i | 0 <= i < |woken| :: !woken[i].linked && woken[i].semaphore == old(Nodes[i].semaphore) + 1
    {
      woken := [];
      ghost var all := Nodes;
      while first != null
        invariant Valid() && Distinct(all) && |woken| <= |all| && Nodes == all[|woken|..] && woken == all[..|woken|]
        invariant forall i | 0 <= i < |woken| :: !all[i].linked && all[i].semaphore == old(all[i].semaphore) + 1
        invariant forall i | |woken| <= i < |all| :: all[i].semaphore == old(all[i].semaphore)
        decreases |Nodes|
      {
        ghost var k := |woken|;
        var waiter := WakeFirst();
        assert waiter == all[k] && Nodes == all[k + 1..];
        woken := woken + [waiter];
      }
    }
  }
}
