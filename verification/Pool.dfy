/** The pool as it runs: providers, waiters, leases and services as objects, each lock-protected section a method that
    does to the objects what the scheduler's function does to the state. */
module Pool {
  import opened Wire
  import S = Scheduler

  /** One upstream in one service's pool. */
  class Provider {
    ghost const id: nat
    const service: string
    const slots: u16
    const priority: u16
    var busy: int
    var gone: bool

    ghost function Value(): S.Prov
      reads this
    {
      S.Prov(slots, priority, busy, gone)
    }

    constructor (service: string, slots: u16, priority: u16, ghost id: nat)
      ensures this.id == id && this.service == service && Value() == S.Prov(slots, priority, 0, false)
    {
      this.id, this.service, this.slots, this.priority := id, service, slots, priority;
      busy, gone := 0, false;
    }

    /** How many slots are still open. */
    function Room(): int
      reads this
    {
      slots - busy
    }
  }

  /** One slot of one provider, held from dispatch until the job ends. */
  class Lease {
    const service: Service
    const provider: Provider
    ghost const ticket: nat
    var released: bool

    constructor (service: Service, provider: Provider, ghost ticket: nat)
      ensures this.service == service && this.provider == provider && this.ticket == ticket && !released
    {
      this.service, this.provider, this.ticket := service, provider, ticket;
      released := false;
    }
  }

  /** One job in a queue; lease is its one-place channel. */
  class Waiter {
    ghost const ticket: nat
    var lease: Lease?

    constructor (ghost ticket: nat)
      ensures this.ticket == ticket && lease == null
    {
      this.ticket := ticket;
      lease := null;
    }
  }

  /** The providers of a service and the jobs waiting for one. */
  class Service {
    var providers: seq<Provider>
    var waiters: seq<Waiter>

    /** The state as the scheduler has it, and the objects that carry it. */
    ghost var view: S.Svc
    ghost var known: set<Provider>
    ghost var given: set<Lease>
    ghost var rooms: set<Waiter>

    ghost predicate ProvidersTied()
      reads this, known
    {
      && (forall p :: p in known ==> p.id in view.provs && p.Value() == view.provs[p.id])
      && (forall p, q :: p in known && q in known && p.id == q.id ==> p == q)
      && |providers| == |view.listed|
      && (forall i :: 0 <= i < |providers| ==> providers[i] in known && providers[i].id == view.listed[i])
    }

    ghost predicate LeasesTied()
      reads this, given
    {
      && (forall l :: l in given ==>
            && l.ticket in view.leases && l.service == this && l.provider in known
            && view.leases[l.ticket] == S.Lease(l.provider.id, l.released))
      && (forall l, m :: l in given && m in given && l.ticket == m.ticket ==> l == m)
    }

    ghost predicate WaitersTied()
      reads this, rooms
    {
      && |waiters| == |view.queue|
      && (forall i :: 0 <= i < |waiters| ==> waiters[i] in rooms && waiters[i].ticket == view.queue[i])
      && (forall w, v :: w in rooms && v in rooms && w.ticket == v.ticket ==> w == v)
      && (forall w :: w in rooms ==>
            && (w.lease != null <==> w.ticket in view.full)
            && (w.lease != null ==> w.lease in given && w.lease.ticket == w.ticket))
    }

    /** The objects say what the view says. */
    ghost predicate Tied()
      reads this, known, given, rooms
    {
      ProvidersTied() && LeasesTied() && WaitersTied() && S.Consistent(view)
    }

    // What the ties say of one object.

    lemma KnownProvider(pr: Provider)
      requires ProvidersTied() && pr in known
      ensures pr.id in view.provs && pr.Value() == view.provs[pr.id]
    {
    }

    lemma GivenLease(lease: Lease)
      requires LeasesTied() && lease in given
      ensures lease.ticket in view.leases && lease.service == this && lease.provider in known
      ensures view.leases[lease.ticket] == S.Lease(lease.provider.id, lease.released)
    {
    }

    lemma RoomedWaiter(w: Waiter)
      requires WaitersTied() && w in rooms
      ensures w.lease != null <==> w.ticket in view.full
      ensures w.lease != null ==> w.lease in given && w.lease.ticket == w.ticket
    {
    }

    lemma HeadWaits()
      requires WaitersTied()
      ensures |waiters| == |view.queue|
      ensures waiters != [] ==> waiters[0] in rooms && waiters[0].ticket == view.queue[0]
    {
    }

    // What one change to the objects does to each of the three ties.

    twostate lemma ProvidersUntouched()
      requires old(ProvidersTied()) && unchanged(this`known, this`providers) && unchanged(known)
      requires view.provs == old(view.provs) && view.listed == old(view.listed)
      ensures ProvidersTied()
    {
    }

    twostate lemma BusyChanged(pr: Provider)
      requires old(ProvidersTied()) && unchanged(this`known, this`providers) && pr in known
      requires pr.gone == old(pr.gone) && (forall p :: p in known && p != pr ==> unchanged(p))
      requires view.provs == old(view.provs)[pr.id := old(view.provs)[pr.id].(busy := pr.busy)]
      requires view.listed == old(view.listed)
      ensures ProvidersTied()
    {
    }

    twostate lemma LeasesUntouched()
      requires old(LeasesTied()) && unchanged(this`given) && unchanged(given) && old(known) <= known
      requires view.leases == old(view.leases)
      ensures LeasesTied()
    {
    }

    twostate lemma LeaseAdded(new lease: Lease)
      requires old(LeasesTied()) && given == old(given) + {lease} && unchanged(old(given)) && old(known) <= known
      requires lease.ticket !in old(view.leases) && lease.service == this && lease.provider in known && !lease.released
      requires view.leases == old(view.leases)[lease.ticket := S.Lease(lease.provider.id, false)]
      ensures LeasesTied()
    {
    }

    twostate lemma LeaseReleased(lease: Lease)
      requires old(LeasesTied()) && unchanged(this`given) && lease in given && unchanged(this`known)
      requires lease.released && (forall l :: l in given && l != lease ==> unchanged(l))
      requires view.leases == old(view.leases)[lease.ticket := S.Lease(lease.provider.id, true)]
      ensures LeasesTied()
    {
    }

    twostate lemma WaitersUntouched()
      requires old(WaitersTied()) && unchanged(this`waiters, this`rooms) && unchanged(rooms) && old(given) <= given
      requires view.queue == old(view.queue) && view.full == old(view.full)
      ensures WaitersTied()
    {
    }

    twostate lemma HeadPopped()
      requires old(WaitersTied()) && old(waiters) != [] && waiters == old(waiters)[1..]
      requires unchanged(this`rooms) && unchanged(rooms) && old(given) <= given
      requires view.queue == old(view.queue)[1..] && view.full == old(view.full)
      ensures WaitersTied()
    {
    }

    twostate lemma ChannelFilled(w: Waiter)
      requires old(WaitersTied()) && unchanged(this`rooms, this`waiters) && w in rooms && old(given) <= given
      requires forall v :: v in rooms && v != w ==> unchanged(v)
      requires w.lease != null && w.lease in given && w.lease.ticket == w.ticket
      requires view.queue == old(view.queue) && view.full == old(view.full) + {w.ticket}
      ensures WaitersTied()
    {
    }

    twostate lemma WaiterQueued(new w: Waiter, front: bool)
      requires old(WaitersTied()) && rooms == old(rooms) + {w} && unchanged(old(rooms)) && old(given) <= given
      requires w.lease == null && w.ticket !in view.full && forall v :: v in old(rooms) ==> v.ticket != w.ticket
      requires waiters == if front then [w] + old(waiters) else old(waiters) + [w]
      requires view.queue == if front then [w.ticket] + old(view.queue) else old(view.queue) + [w.ticket]
      requires view.full == old(view.full)
      ensures WaitersTied()
    {
    }

    twostate lemma WaiterOut(i: nat)
      requires old(WaitersTied()) && i < |old(waiters)| && unchanged(this`rooms) && unchanged(rooms)
               && old(given) <= given
      requires waiters == old(waiters)[..i] + old(waiters)[i + 1..]
      requires view.queue == old(view.queue)[..i] + old(view.queue)[i + 1..] && view.full == old(view.full)
      ensures WaitersTied()
    {
    }

    twostate lemma ChannelEmptied(w: Waiter)
      requires old(WaitersTied()) && unchanged(this`rooms, this`waiters) && w in rooms && w.lease == null
               && old(given) <= given
      requires forall v :: v in rooms && v != w ==> unchanged(v)
      requires view.queue == old(view.queue) && view.full == old(view.full) - {w.ticket}
      ensures WaitersTied()
    {
    }

    twostate lemma ProviderListed(pr: Provider)
      requires old(ProvidersTied()) && known == old(known) + {pr} && unchanged(old(known))
               && providers == old(providers) + [pr]
      requires pr.id !in old(view.provs) && view.provs == old(view.provs)[pr.id := pr.Value()]
      requires view.listed == old(view.listed) + [pr.id]
      ensures ProvidersTied()
    {
    }

    twostate lemma ProviderOut(pr: Provider, new i: nat)
      requires old(ProvidersTied()) && unchanged(this`known) && pr in known
               && (forall p :: p in known && p != pr ==> unchanged(p))
      requires pr.gone && pr.busy == old(pr.busy) && i <= |old(providers)| && |old(providers)| == |old(view.listed)|
      requires view.provs == old(view.provs)[pr.id := old(view.provs)[pr.id].(gone := true)]
      requires i < |old(providers)| ==> providers == old(providers)[..i] + old(providers)[i + 1..]
      requires i < |old(providers)| ==> view.listed == old(view.listed)[..i] + old(view.listed)[i + 1..]
      requires i == |old(providers)| ==> providers == old(providers) && view.listed == old(view.listed)
      ensures ProvidersTied()
    {
    }


    /** What holds whenever the lock is free. */
    ghost predicate Valid()
      reads this, known, given, rooms
    {
      Tied() && S.Conserved(view)
    }

    constructor ()
      ensures Valid() && view == S.Svc(map[], [], [], map[], {}) && known == {} && given == {} && rooms == {}
    {
      providers, waiters := [], [];
      view, known, given, rooms := S.Svc(map[], [], [], map[], {}), {}, {}, {};
    }

    /** The k-th provider is there with a slot open, and among the first n such it has the smallest priority number,
        of those the most slots open, and of those it is the first. */
    ghost predicate ChosenOf(n: nat, k: nat)
      requires k < n <= |providers|
      reads this, providers
    {
      && !providers[k].gone && providers[k].busy < providers[k].slots
      && forall i :: 0 <= i < n && !providers[i].gone && providers[i].busy < providers[i].slots ==>
          var chosen, other := providers[k], providers[i];
          && chosen.priority <= other.priority
          && (chosen.priority == other.priority ==> chosen.slots - chosen.busy >= other.slots - other.busy)
          && (chosen.priority == other.priority && chosen.slots - chosen.busy == other.slots - other.busy ==> k <= i)
    }

    /** The free provider a job should go to. */
    method Best() returns (best: Provider?)
      requires Tied()
      ensures best == null <==> S.Best(view).None?
      ensures best != null ==> best in known && S.Best(view) == Some(best.id)
      ensures best == null <==>
              forall i :: 0 <= i < |providers| ==> providers[i].gone || providers[i].busy >= providers[i].slots
      ensures best != null ==> exists k :: 0 <= k < |providers| && providers[k] == best && ChosenOf(|providers|, k)
    {
      hide S.Counted, LeasesTied, WaitersTied;
      best := null;
      for i := 0 to |providers|
        invariant best == null <==> S.BestOf(view, i).None?
        invariant best != null ==> best in known && S.BestOf(view, i) == Some(best.id)
      {
        var pr := providers[i];
        if !pr.gone && pr.busy < pr.slots {
          if best == null || pr.priority < best.priority ||
             (pr.priority == best.priority && pr.Room() > best.Room()) {
            best := pr;
          }
        }
      }
      ChoiceOfObjects(best);
    }

    lemma ChoiceOfObjects(best: Provider?)
      requires ProvidersTied() && S.Consistent(view) && (best == null <==> S.Best(view).None?)
      requires best != null ==> best in known && S.Best(view) == Some(best.id)
      ensures best == null <==>
              forall i :: 0 <= i < |providers| ==> providers[i].gone || providers[i].busy >= providers[i].slots
      ensures best != null ==> exists k :: 0 <= k < |providers| && providers[k] == best && ChosenOf(|providers|, k)
    {
      hide S.Counted, S.BestOf;
      var k := S.BestIsBest(view, |view.listed|);
      ObjectsAsViewed();
      hide ProvidersTied;
      if best != null {
        assert providers[k] == best && ChosenOf(|providers|, k);
      }
    }

    lemma ObjectsAsViewed()
      requires ProvidersTied()
      ensures |providers| == |view.listed|
      ensures forall i :: 0 <= i < |providers| ==>
                          && providers[i] in known && providers[i].id == view.listed[i] && view.listed[i] in view.provs
                          && providers[i].Value() == view.provs[view.listed[i]]
    {
    }

    /** Marks a slot busy and makes the lease that gives it back. */
    method Take(pr: Provider, ghost t: nat) returns (lease: Lease)
      requires Tied() && pr in known && view.provs[pr.id].Free()
      requires t !in view.leases && t !in view.queue && t !in view.full
      modifies this`view, this`given, pr`busy
      ensures Tied() && fresh(lease) && lease.provider == pr && lease.ticket == t && !lease.released
      ensures view == S.Take(old(view), t, pr.id) && given == old(given) + {lease}
    {
      hide ProvidersTied, LeasesTied, WaitersTied, S.Consistent, S.Conserved;
      KnownProvider(pr);
      S.TakeKeeps(view, t, pr.id);
      pr.busy := pr.busy + 1;
      lease := new Lease(this, pr, t);
      given := given + {lease};
      view := S.Take(view, t, pr.id);
      BusyChanged(pr);
      LeaseAdded(lease);
      WaitersUntouched();
    }

    /** Takes the head off the queue. */
    method Pop() returns (w: Waiter)
      requires Tied() && waiters != []
      modifies this`view, this`waiters
      ensures Tied() && view.queue == old(view.queue)[1..] && view == S.Popped(old(view))
      ensures w == old(waiters)[0] && w in rooms && w.ticket == old(view.queue)[0] && waiters == old(waiters)[1..]
    {
      hide ProvidersTied, LeasesTied, WaitersTied, S.Consistent, S.Conserved;
      HeadWaits();
      S.PoppedKeeps(view);
      w := waiters[0];
      waiters := waiters[1..];
      view := S.Popped(view);
      ProvidersUntouched();
      LeasesUntouched();
      HeadPopped();
    }

    /** Puts a lease into its waiter's channel, which is empty. */
    method Send(w: Waiter, lease: Lease)
      requires Tied() && w in rooms && w.lease == null
      requires lease in given && lease.ticket == w.ticket && !lease.released && w.ticket !in view.queue
      modifies this`view, w`lease
      ensures Tied() && view == S.Sent(old(view), w.ticket)
    {
      hide ProvidersTied, LeasesTied, WaitersTied, S.Consistent, S.Conserved;
      GivenLease(lease);
      S.SentKeeps(view, w.ticket);
      w.lease := lease;
      view := S.Sent(view, w.ticket);
      ProvidersUntouched();
      LeasesUntouched();
      ChannelFilled(w);
    }

    /** Hands the head of the queue a slot of pr. */
    method HandOver(pr: Provider) returns (lease: Lease)
      requires Tied() && pr in known && view.provs[pr.id].Free() && waiters != []
      modifies this`view, this`given, this`waiters, pr`busy, waiters[0]
      ensures Tied() && view == S.HandOver(old(view), pr.id) && waiters == old(waiters)[1..]
      ensures fresh(lease) && given == old(given) + {lease}
    {
      hide ProvidersTied, LeasesTied, WaitersTied, S.Consistent, S.Conserved;
      HeadWaits();
      KnownProvider(pr);
      S.PoppedKeeps(view);
      S.HandOverParts(view, pr.id);
      RoomedWaiter(waiters[0]);
      hide *;
      var w := Pop();
      lease := Take(pr, w.ticket);
      Send(w, lease);
    }

    /** One turn of the dispatch loop: the head of the queue is served if anybody has room. */
    method ServeHead() returns (served: bool)
      requires Tied() && |waiters| > 0
      modifies this`view, this`given, this`waiters, known, rooms
      ensures Tied() && old(given) <= given && fresh(given - old(given))
      ensures |old(view.queue)| == |old(waiters)| > 0 && served == S.Best(old(view)).Some?
      ensures view == (if served then S.HandOver(old(view), S.Best(old(view)).value) else old(view))
      ensures served ==> |waiters| < |old(waiters)|
      ensures known == old(known) && rooms == old(rooms)
    {
      hide ProvidersTied, LeasesTied, WaitersTied, S.HandOver;
      HeadWaits();
      var pr := Best();
      if pr == null {
        return false;
      }
      var _ := HandOver(pr);
      return true;
    }

    lemma NobodyWaits()
      requires WaitersTied() && waiters == []
      ensures view.queue == []
    {
    }

    /** Hands free slots to waiting jobs until one of the two runs out. */
    method Dispatch()
      requires Tied()
      modifies this`view, this`given, this`waiters, known, rooms
      ensures Valid() && view == S.Dispatch(old(view))
      ensures old(given) <= given && fresh(given - old(given))
    {
      hide ProvidersTied, LeasesTied, WaitersTied, S.Counted, S.Conserved, S.HandOver, S.Best, S.ServesPrefix;
      ghost var goal := S.Dispatch(view);
      S.DispatchKeeps(view);
      var going := true;
      while going && |waiters| > 0
        invariant Tied() && S.Dispatch(view) == goal
        invariant old(given) <= given && fresh(given - old(given))
        invariant !going ==> view == goal
        invariant known == old(known) && rooms == old(rooms)
        decreases going, |waiters|
      {
        going := ServeHead();
      }
      if going {
        NobodyWaits();
      }
    }

    /** Puts a provider in the pool and gives it to waiting jobs at once. */
    method Add(pr: Provider)
      requires Valid() && pr.id !in view.provs && pr !in known && pr.busy == 0 && !pr.gone
      modifies this, known, rooms, pr
      ensures Valid() && view == S.Add(old(view), pr.id, pr.slots, pr.priority)
      ensures known == old(known) + {pr} && rooms == old(rooms) && old(given) <= given && fresh(given - old(given))
    {
      hide ProvidersTied, LeasesTied, WaitersTied, S.Counted, S.Conserved, S.Dispatch;
      S.ListedKeeps(view, pr.id, pr.slots, pr.priority);
      providers := providers + [pr];
      known := known + {pr};
      view := S.Listed(view, pr.id, pr.slots, pr.priority);
      ProviderListed(pr);
      LeasesUntouched();
      WaitersUntouched();
      Dispatch();
    }

    method FindProvider(pr: Provider) returns (i: nat)
      requires ProvidersTied() && pr in known
      ensures i <= |providers| == |view.listed|
      ensures i < |providers| ==> S.Without(view.listed, pr.id) == view.listed[..i] + view.listed[i + 1..]
      ensures i == |providers| ==> S.Without(view.listed, pr.id) == view.listed
    {
      i := 0;
      while i < |providers| && providers[i] != pr
        invariant 0 <= i <= |providers| && forall k :: 0 <= k < i ==> view.listed[k] != pr.id
      {
        i := i + 1;
      }
      WithoutAt(view.listed, pr.id, i);
    }

    /** Takes a provider out of the pool; the jobs it runs keep their leases. */
    method Remove(pr: Provider)
      requires Valid() && pr in known
      modifies this`view, this`providers, pr`gone
      ensures Valid() && view == S.Remove(old(view), pr.id)
    {
      hide ProvidersTied, LeasesTied, WaitersTied, S.Consistent, S.Conserved;
      KnownProvider(pr);
      S.RemoveKeeps(view, pr.id);
      var i := FindProvider(pr);
      pr.gone := true;
      providers := if i < |providers| then providers[..i] + providers[i + 1..] else providers;
      view := S.Remove(view, pr.id);
      ProviderOut(pr, i);
      LeasesUntouched();
      WaitersUntouched();
    }

    /** Puts a new waiter at one end of the queue. */
    method Enqueue(front: bool, ghost t: nat) returns (w: Waiter)
      requires Tied() && t !in view.leases && t !in view.full && forall v :: v in rooms ==> v.ticket != t
      requires S.Consistent(view.(queue := if front then [t] + view.queue else view.queue + [t]))
      modifies this`view, this`waiters, this`rooms
      ensures Tied() && fresh(w) && w.ticket == t && rooms == old(rooms) + {w}
      ensures view == old(view).(queue := if front then [t] + old(view.queue) else old(view.queue) + [t])
    {
      hide ProvidersTied, LeasesTied, WaitersTied, S.Consistent;
      w := new Waiter(t);
      waiters := if front then [w] + waiters else waiters + [w];
      rooms := rooms + {w};
      view := view.(queue := if front then [t] + view.queue else view.queue + [t]);
      ProvidersUntouched();
      LeasesUntouched();
      WaiterQueued(w, front);
    }

    /** The lock section of Acquire: a lease at once, or a place in the queue. */
    method Acquire(front: bool, ghost t: nat) returns (lease: Lease?, w: Waiter?)
      requires Valid() && t !in view.leases && t !in view.queue && t !in view.full
      requires forall v :: v in rooms ==> v.ticket != t
      modifies this`view, this`given, this`waiters, this`rooms, known
      ensures Valid() && view == S.Acquire(old(view), t, front)
      ensures lease != null ==> w == null && t in view.leases && lease.ticket == t && fresh(lease)
      ensures lease != null ==> given == old(given) + {lease} && rooms == old(rooms)
      ensures lease == null ==> w != null && t !in view.leases && w.ticket == t && fresh(w)
      ensures lease == null ==> given == old(given) && rooms == old(rooms) + {w}
    {
      hide ProvidersTied, LeasesTied, WaitersTied, S.Counted, S.Conserved, S.Best;
      HeadWaits();
      S.AcquireKeeps(view, t, front);
      lease, w := null, null;
      if |waiters| == 0 {
        var pr := Best();
        if pr != null {
          lease := Take(pr, t);
          return;
        }
      }
      w := Enqueue(front, t);
    }

    method FindWaiter(w: Waiter) returns (i: nat)
      requires WaitersTied() && w in rooms
      ensures i <= |waiters| == |view.queue| && (i < |waiters| <==> w.ticket in view.queue)
      ensures i < |waiters| ==> S.Without(view.queue, w.ticket) == view.queue[..i] + view.queue[i + 1..]
      ensures i == |waiters| ==> S.Without(view.queue, w.ticket) == view.queue
    {
      i := 0;
      while i < |waiters| && waiters[i] != w
        invariant 0 <= i <= |waiters| && forall k :: 0 <= k < i ==> view.queue[k] != w.ticket
      {
        i := i + 1;
      }
      WithoutAt(view.queue, w.ticket, i);
    }

    /** The lock section of abandon: whether the waiter was still in the queue, which it then leaves. */
    method Withdraw(w: Waiter) returns (found: bool)
      requires Valid() && w in rooms
      modifies this`view, this`waiters
      ensures Valid() && found == (w.ticket in old(view.queue)) && view == S.Withdraw(old(view), w.ticket)
    {
      hide ProvidersTied, LeasesTied, WaitersTied, S.Consistent, S.Conserved;
      S.WithdrawKeeps(view, w.ticket);
      var i := FindWaiter(w);
      found := i < |waiters|;
      if found {
        waiters := waiters[..i] + waiters[i + 1..];
      }
      view := S.Withdraw(view, w.ticket);
      ProvidersUntouched();
      LeasesUntouched();
      if found {
        WaiterOut(i);
      } else {
        WaitersUntouched();
      }
    }

    /** A receive from the waiter's channel that does not wait; it needs no lock. */
    method Receive(w: Waiter) returns (lease: Lease?)
      requires Valid() && w in rooms
      modifies this`view, w
      ensures Valid() && view == S.Receive(old(view), w.ticket)
      ensures lease != null <==> w.ticket in old(view.full)
      ensures lease != null ==> lease in given && lease.ticket == w.ticket
    {
      hide ProvidersTied, LeasesTied, WaitersTied, S.Consistent, S.Conserved;
      RoomedWaiter(w);
      S.ReceiveKeeps(view, w.ticket);
      lease := w.lease;
      w.lease := null;
      view := S.Receive(view, w.ticket);
      ProvidersUntouched();
      LeasesUntouched();
      ChannelEmptied(w);
    }

    method GiveBack(lease: Lease)
      requires Tied() && lease in given && lease.ticket !in view.full && !lease.released
      modifies this`view, lease, lease.provider
      ensures Tied() && view == S.GivenBack(old(view), lease.ticket)
    {
      hide ProvidersTied, LeasesTied, WaitersTied, S.Consistent, S.Conserved;
      GivenLease(lease);
      KnownProvider(lease.provider);
      S.GivenBackKeeps(view, lease.ticket);
      lease.released := true;
      lease.provider.busy := lease.provider.busy - 1;
      view := S.GivenBack(view, lease.ticket);
      BusyChanged(lease.provider);
      LeaseReleased(lease);
      WaitersUntouched();
    }

    /** Gives the slot back and hands it to the next waiting job. Releasing twice does nothing the second time. */
    method Release(lease: Lease)
      requires Valid() && lease in given && lease.ticket !in view.full
      modifies this`view, this`given, this`waiters, known, rooms, lease
      ensures Valid() && view == S.Release(old(view), lease.ticket)
      ensures old(given) <= given && fresh(given - old(given))
    {
      hide ProvidersTied, LeasesTied, WaitersTied, S.Counted, S.Conserved, S.Dispatch;
      GivenLease(lease);
      KnownProvider(lease.provider);
      if lease.released {
        return;
      }
      GiveBack(lease);
      Dispatch();
    }

    /** The whole of abandon when nobody comes between its sections: the waiter is gone from the queue, or the lease
        it had been handed is back. */
    method Abandon(w: Waiter)
      requires Valid() && w in rooms && (w.ticket in view.queue || w.ticket in view.full)
      modifies this`view, this`given, this`waiters, known, rooms, given
      ensures Valid() && w.ticket !in view.queue && w.ticket !in view.full
      ensures view == if w.ticket in old(view.queue) then S.Withdraw(old(view), w.ticket)
                      else S.Release(S.Receive(old(view), w.ticket), w.ticket)
    {
      hide ProvidersTied, LeasesTied, WaitersTied, S.Counted, S.Conserved, S.Release;
      S.WithoutOne(view.queue, w.ticket);
      var found := Withdraw(w);
      if found {
        return;
      }
      ghost var before := view;
      var lease := Receive(w);
      ReceivedStaysOut(before, w.ticket);
      Release(lease);
    }
  }

  /** A ticket whose lease was received and released is neither queued nor waiting in a channel afterwards. */
  lemma ReceivedStaysOut(s: S.Svc, t: nat)
    requires S.Consistent(s) && S.Conserved(s) && t in s.full
    ensures var s1 := S.Receive(s, t);
            S.Consistent(s1) && t in s1.leases && t !in S.Release(s1, t).queue && t !in S.Release(s1, t).full
  {
    var s1 := S.Receive(s, t);
    S.ReceiveKeeps(s, t);
    S.ReleaseKeeps(s1, t);
    var s2 := s1.(leases := s1.leases[t := S.Lease(s1.leases[t].provider, true)]);
    var k :| 0 <= k <= |s2.queue| && S.ServedExactly(s2, S.Release(s1, t), k);
    assert forall u :: u in s2.queue[..k] || u in s2.queue[k..] ==> u in s2.queue;
  }

  lemma {:induction false} WithoutAt(q: seq<nat>, x: nat, i: nat)
    requires i <= |q| && (forall k :: 0 <= k < i ==> q[k] != x) && (i < |q| ==> q[i] == x)
    ensures S.Without(q, x) == if i < |q| then q[..i] + q[i + 1..] else q
  {
    if 0 < i {
      var head, rest := q[0], q[1..];
      assert forall k :: 0 <= k < |rest| ==> rest[k] == q[k + 1];
      WithoutAt(rest, x, i - 1);
      WithoutStep(q, x);
      hide S.Without;
      if i < |q| {
        assert q[..i] == [head] + rest[..i - 1] && q[i + 1..] == rest[i..];
      } else {
        assert q == [head] + rest;
      }
    }
  }

  lemma WithoutStep(q: seq<nat>, x: nat)
    requires q != [] && q[0] != x
    ensures S.Without(q, x) == [q[0]] + S.Without(q[1..], x)
  {
  }
}
