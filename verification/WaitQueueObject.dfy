/**
 The wait queue as an object: the loops of `wake_one` and `wake_all` between two interferences.
 */
module WaitQueueObject {

  class Waker {
    var hasWoken: bool

    constructor ()
      ensures !hasWoken
    {
      hasWoken := false;
    }

    /** Whether this call is the one that wakes the waiter. */
    method WakeUp() returns (r: bool)
      modifies this
      ensures hasWoken && r == !old(hasWoken)
    {
      r := !hasWoken;
      hasWoken := true;
    }

    /** One round of `do_wait`: consumes the wakeup if there is one. */
    method TakeWakeup() returns (r: bool)
      modifies this
      ensures !hasWoken && r == old(hasWoken)
    {
      r := hasWoken;
      hasWoken := false;
    }

    /** After this no one can wake the waiter. */
    method Close()
      modifies this
      ensures hasWoken
    {
      hasWoken := true;
    }
  }

  /** The waiting side; it closes its waker when it is dropped. */
  class Waiter {
    const waker: Waker

    constructor ()
      ensures fresh(waker) && !waker.hasWoken
    {
      waker := new Waker();
    }

    /**
     Waits until the flag is set and consumes it. `wakes[i]` says whether the waiter is woken while it is
     parked for the `i`-th time; the call has not returned if no wakeup comes.
     */
    method Wait(wakes: seq<bool>) returns (done: bool)
      modifies waker
      ensures done <==> old(waker.hasWoken) || true in wakes
      ensures !waker.hasWoken
    {
      for i := 0 to |wakes|
        invariant i == 0 ==> waker.hasWoken == old(waker.hasWoken)
        invariant i > 0 ==> !old(waker.hasWoken) && true !in wakes[..i - 1] && waker.hasWoken == wakes[i - 1]
      {
        done := waker.TakeWakeup();
        if done { return; }
        if wakes[i] {
          var _ := waker.WakeUp();
        }
      }
      done := waker.TakeWakeup();
    }

    /** After the drop nobody can wake the waiter any more. */
    method Drop()
      modifies waker
      ensures waker.hasWoken
    {
      waker.Close();
    }
  }

  class WaitQueue {
    var numWakers: nat
    var wakers: seq<Waker>

    ghost predicate Valid()
      reads this
    {
      numWakers == |wakers|
    }

    /** No waker of this stretch of the queue can be woken. */
    ghost predicate AllWoken(ws: seq<Waker>)
      reads ws
    {
      forall w | w in ws :: w.hasWoken
    }

    constructor ()
      ensures Valid() && wakers == []
    {
      numWakers, wakers := 0, [];
    }

    method IsEmpty() returns (r: bool)
      requires Valid()
      ensures r <==> wakers == []
    {
      return numWakers == 0;
    }

    method Enqueue(waker: Waker)
      requires Valid()
      modifies this
      ensures Valid() && wakers == old(wakers) + [waker]
    {
      wakers := wakers + [waker];
      numWakers := numWakers + 1;
    }

    /**
     Wakes the first waker that can be woken, and drops it and all before it; `k` is its place. Without
     such a waker the queue ends up empty and nothing else changes.
     */
    method WakeOne() returns (r: bool, ghost k: nat)
      requires Valid()
      modifies this, wakers
      ensures Valid() && k <= |old(wakers)| && old(AllWoken(wakers[..k]))
      ensures r <==> !old(AllWoken(wakers))
      ensures r ==> k < |old(wakers)| && !old(wakers[k].hasWoken) && wakers == old(wakers)[k + 1..]
      ensures !r ==> k == |old(wakers)| && wakers == []
      ensures forall w | w in old(wakers) :: w.hasWoken == (old(w.hasWoken) || (r && w == old(wakers)[k]))
    {
      k := 0;
      if numWakers == 0 {
        return false, 0;
      }
      while true
        invariant Valid() && k <= |old(wakers)| && wakers == old(wakers)[k..]
        invariant old(AllWoken(wakers[..k]))
        invariant forall w | w in old(wakers) :: w.hasWoken == old(w.hasWoken)
        decreases |wakers|
      {
        if wakers == [] {
          assert old(wakers)[..k] == old(wakers);
          return false, k;
        }
        var waker := wakers[0];
        wakers := wakers[1..];
        numWakers := numWakers - 1;
        assert waker == old(wakers)[k];
        var woken := waker.WakeUp();
        if woken {
          return true, k;
        }
        assert old(wakers)[..k + 1] == old(wakers)[..k] + [waker];
        k := k + 1;
      }
    }

    /** The wakers of a stretch of the queue that can be woken. */
    ghost function Open(ws: seq<Waker>): set<Waker>
      reads ws
    {
      set w | w in ws && !w.hasWoken
    }

    /** Wakes every waker that can be woken, and counts them. */
    method WakeAll() returns (num: nat)
      requires Valid()
      modifies this, wakers
      ensures Valid() && wakers == []
      ensures forall w | w in old(wakers) :: w.hasWoken
      ensures num == old(|Open(wakers)|)
    {
      num := 0;
      if numWakers == 0 {
        return;
      }
      ghost var ws := wakers;
      ghost var k := 0;
      while wakers != []
        invariant Valid() && k <= |ws| && wakers == ws[k..]
        invariant forall w | w in ws :: w.hasWoken == (old(w.hasWoken) || w in ws[..k])
        invariant num == old(|Open(ws[..k])|)
        decreases |wakers|
      {
        var waker := wakers[0];
        wakers := wakers[1..];
        numWakers := numWakers - 1;
        assert ws[..k + 1] == ws[..k] + [waker];
        assert old(Open(ws[..k + 1])) == old(Open(ws[..k])) + if waker.hasWoken then {} else {waker};
        var woken := waker.WakeUp();
        if woken { num := num + 1; }
        k := k + 1;
      }
      assert ws[..k] == ws;
    }
  }
}
