/**
 * The observer registry: GrainInterfaces/ObserverManager.cs. Subscriptions are a map from an
 * address to its observer and the time it was last seen. Time is an integer clock passed in by
 * the caller (the source reads `GetDateTime()`); the outcome of delivering a notification is a
 * given predicate on the address (the source calls the notification delegate and catches what it
 * throws). Dictionary iteration order is unspecified, so the scanning loops pick any pending key.
 */
module Observers {
  import opened Sequences

  datatype ObserverEntry<O> = ObserverEntry(observer: O, lastSeen: int)

  /** The lazy-expiry test of Notify and ClearExpired: strict, so an entry exactly at the limit is kept. */
  predicate Expired<O>(e: ObserverEntry<O>, expiration: int, now: int) {
    e.lastSeen + expiration < now
  }

  /** The subscriptions that are not expired at `now`. */
  function Unexpired<A, O>(m: map<A, ObserverEntry<O>>, expiration: int, now: int): map<A, ObserverEntry<O>> {
    map a | a in m && !Expired(m[a], expiration, now) :: m[a]
  }

  /**
   * Whether Notify keeps the entry of `a`: it is not expired, and either the predicate skips it
   * or its delivery succeeds. `selects` stands for the optional predicate (`_ => true` when absent).
   */
  predicate Survives<A, O>(m: map<A, ObserverEntry<O>>, expiration: int, now: int,
                           selects: O -> bool, delivers: A -> bool, a: A)
    requires a in m
  {
    !Expired(m[a], expiration, now) && (selects(m[a].observer) ==> delivers(a))
  }

  /** The subscriptions after a Notify at `now`; the kept entries are not refreshed. */
  function Notified<A, O>(m: map<A, ObserverEntry<O>>, expiration: int, now: int,
                          selects: O -> bool, delivers: A -> bool): map<A, ObserverEntry<O>> {
    map a | a in m && Survives(m, expiration, now, selects, delivers, a) :: m[a]
  }

  /** The addresses whose notification Notify invokes: unexpired and selected. */
  function Invoked<A, O>(m: map<A, ObserverEntry<O>>, expiration: int, now: int, selects: O -> bool): set<A> {
    set a | a in m && !Expired(m[a], expiration, now) && selects(m[a].observer)
  }

  /** The addresses ClearExpired lists as defunct. */
  function ExpiredAddresses<A, O>(m: map<A, ObserverEntry<O>>, expiration: int, now: int): set<A> {
    set a | a in m && Expired(m[a], expiration, now)
  }

  /** The addresses Notify lists as defunct: expired, or selected with a failed delivery. */
  function DefunctAddresses<A, O>(m: map<A, ObserverEntry<O>>, expiration: int, now: int,
                                  selects: O -> bool, delivers: A -> bool): set<A> {
    set a | a in m && !Survives(m, expiration, now, selects, delivers, a)
  }

  /** Removing the expired addresses leaves exactly the unexpired entries. */
  lemma RemoveExpired<A, O>(m: map<A, ObserverEntry<O>>, expiration: int, now: int)
    ensures m - ExpiredAddresses(m, expiration, now) == Unexpired(m, expiration, now)
  {
    assert (m - ExpiredAddresses(m, expiration, now)).Keys == Unexpired(m, expiration, now).Keys;
  }

  /** Removing the defunct addresses leaves exactly the entries Notify keeps. */
  lemma RemoveDefunct<A, O>(m: map<A, ObserverEntry<O>>, expiration: int, now: int,
                            selects: O -> bool, delivers: A -> bool)
    ensures m - DefunctAddresses(m, expiration, now, selects, delivers) == Notified(m, expiration, now, selects, delivers)
  {
    var r := m - DefunctAddresses(m, expiration, now, selects, delivers);
    assert r.Keys == Notified(m, expiration, now, selects, delivers).Keys;
  }

  /** An entry last seen exactly `expiration` ago is not expired. */
  lemma BoundaryEntrySurvives<A, O>(m: map<A, ObserverEntry<O>>, expiration: int, now: int,
                                    selects: O -> bool, delivers: A -> bool, a: A)
    requires a in m && m[a].lastSeen + expiration == now
    ensures a in Unexpired(m, expiration, now)
    ensures a in Notified(m, expiration, now, selects, delivers) <==> (selects(m[a].observer) ==> delivers(a))
    ensures a in Invoked(m, expiration, now, selects) <==> selects(m[a].observer)
  {
  }

  /** ClearExpired twice at the same time is ClearExpired once. */
  lemma ClearExpiredIdempotent<A, O>(m: map<A, ObserverEntry<O>>, expiration: int, now: int)
    ensures Unexpired(Unexpired(m, expiration, now), expiration, now) == Unexpired(m, expiration, now)
  {
    var u := Unexpired(m, expiration, now);
    assert Unexpired(u, expiration, now).Keys == u.Keys;
  }

  /**
   * Notify is ClearExpired followed by the removal of failed deliveries: it keeps a sub-map of
   * the unexpired entries, nothing expired is left, and the kept entries are unchanged.
   */
  lemma NotifyWithinUnexpired<A, O>(m: map<A, ObserverEntry<O>>, expiration: int, now: int,
                                    selects: O -> bool, delivers: A -> bool)
    ensures Notified(m, expiration, now, selects, delivers).Keys <= Unexpired(m, expiration, now).Keys
    ensures forall a :: a in Notified(m, expiration, now, selects, delivers) ==>
      Notified(m, expiration, now, selects, delivers)[a] == m[a]
    ensures Unexpired(Notified(m, expiration, now, selects, delivers), expiration, now)
      == Notified(m, expiration, now, selects, delivers)
  {
    var n := Notified(m, expiration, now, selects, delivers);
    assert Unexpired(n, expiration, now).Keys == n.Keys;
  }

  /** When every delivery succeeds, or nothing is selected, Notify removes only the expired entries. */
  lemma NotifyWithoutFailures<A, O>(m: map<A, ObserverEntry<O>>, expiration: int, now: int,
                                    selects: O -> bool, delivers: A -> bool)
    requires forall a :: a in m && selects(m[a].observer) ==> delivers(a)
    ensures Notified(m, expiration, now, selects, delivers) == Unexpired(m, expiration, now)
  {
    var n := Notified(m, expiration, now, selects, delivers);
    assert n.Keys == Unexpired(m, expiration, now).Keys;
  }

  /** Unsubscribing an address that was just subscribed for the first time restores the registry. */
  lemma SubscribeUnsubscribe<A, O>(m: map<A, ObserverEntry<O>>, address: A, e: ObserverEntry<O>)
    requires address !in m
    ensures m[address := e] - {address} == m
  {
    assert (m[address := e] - {address}).Keys == m.Keys;
  }

  /** A subscription made at `now` is not expired at `now` unless the expiration is negative. */
  lemma FreshSubscriptionSurvives<A, O>(m: map<A, ObserverEntry<O>>, expiration: int, now: int, address: A, observer: O)
    requires 0 <= expiration
    ensures address in Unexpired(m[address := ObserverEntry(observer, now)], expiration, now)
  {
  }

  class ObserverManager<A(==), O> {
    var observers: map<A, ObserverEntry<O>>
    var expirationDuration: int

    constructor (expiration: int)
      ensures observers == map[] && expirationDuration == expiration
    {
      observers := map[];
      expirationDuration := expiration;
    }

    /** `Count`: the number of subscriptions. */
    function Count(): nat
      reads this
    {
      |observers|
    }

    /** `Observers`: a copy mapping each subscribed address to its observer. */
    function Observers(): (r: map<A, O>)
      reads this
      ensures r.Keys == observers.Keys
      ensures forall a :: a in r ==> r[a] == observers[a].observer
    {
      map a | a in observers :: observers[a].observer
    }

    /** `Clear`: removes every subscription. */
    method Clear()
      modifies this`observers
      ensures observers == map[] && Count() == 0
    {
      observers := map[];
    }

    /** `Subscribe`: adds or renews the entry for `address`, stamped with `now`. */
    method Subscribe(address: A, observer: O, now: int)
      modifies this`observers
      ensures observers == old(observers)[address := ObserverEntry(observer, now)]
      ensures Count() == old(Count()) + (if address in old(observers) then 0 else 1)
    {
      // Both branches of the source store the same entry; they differ only in what they log.
      observers := observers[address := ObserverEntry(observer, now)];
    }

    /** `Unsubscribe`: removes the entry for `address`, if there is one. */
    method Unsubscribe(address: A)
      modifies this`observers
      ensures observers == old(observers) - {address}
      ensures Count() == old(Count()) - (if address in old(observers) then 1 else 0)
    {
      observers := observers - {address};
    }

    /** The removal loop shared by Notify and ClearExpired: one `TryRemove` per listed address. */
    method RemoveAddresses(defunct: seq<A>)
      modifies this`observers
      ensures observers == old(observers) - Members(defunct)
    {
      for j := 0 to |defunct|
        invariant observers == old(observers) - Members(defunct[..j])
      {
        MembersStep(defunct, j);
        observers := observers - {defunct[j]};
      }
      assert defunct[..|defunct|] == defunct;
    }

    /**
     * The scanning loop of Notify: expired entries are listed as defunct without being notified;
     * selected ones are notified, and listed as defunct when their delivery fails.
     */
    method ScanForNotify(now: int, selects: O -> bool, delivers: A -> bool) returns (defunct: seq<A>, notified: set<A>)
      ensures Members(defunct) == DefunctAddresses(observers, expirationDuration, now, selects, delivers)
      ensures notified == Invoked(observers, expirationDuration, now, selects)
    {
      defunct, notified := [], {};
      var pending := observers.Keys;
      while pending != {}
        invariant pending <= observers.Keys
        invariant forall a :: a in Members(defunct) <==>
          a in observers && a !in pending && !Survives(observers, expirationDuration, now, selects, delivers, a)
        invariant notified == set a | a in observers && a !in pending && !Expired(observers[a], expirationDuration, now) && selects(observers[a].observer)
        decreases pending
      {
        var a :| a in pending;
        var e := observers[a];
        MembersAppend(defunct, a);
        if Expired(e, expirationDuration, now) {
          defunct := defunct + [a];
        } else if selects(e.observer) {
          notified := notified + {a};
          if !delivers(a) {
            defunct := defunct + [a];
          }
        }
        pending := pending - {a};
      }
    }

    /**
     * `Notify` (the overload taking an `Action`): expired entries and entries whose delivery
     * fails are removed after the scan; the others are kept as they were.
     */
    method Notify(now: int, selects: O -> bool, delivers: A -> bool) returns (notified: set<A>)
      modifies this`observers
      ensures observers == Notified(old(observers), expirationDuration, now, selects, delivers)
      ensures notified == Invoked(old(observers), expirationDuration, now, selects)
    {
      RemoveDefunct(observers, expirationDuration, now, selects, delivers);
      var defunct;
      defunct, notified := ScanForNotify(now, selects, delivers);
      RemoveAddresses(defunct);
    }

    /**
     * `Notify` (the overload taking a `Func<TObserver, Task>`): the same scan and removal, each
     * notification awaited in turn.
     */
    method NotifyAsync(now: int, selects: O -> bool, delivers: A -> bool) returns (notified: set<A>)
      modifies this`observers
      ensures observers == Notified(old(observers), expirationDuration, now, selects, delivers)
      ensures notified == Invoked(old(observers), expirationDuration, now, selects)
    {
      notified := Notify(now, selects, delivers);
    }

    /** The scanning loop of ClearExpired: lists exactly the expired addresses, notifying nobody. */
    method ScanExpired(now: int) returns (defunct: seq<A>)
      ensures Members(defunct) == ExpiredAddresses(observers, expirationDuration, now)
    {
      defunct := [];
      var pending := observers.Keys;
      while pending != {}
        invariant pending <= observers.Keys
        invariant forall a :: a in Members(defunct) <==>
          a in observers && a !in pending && Expired(observers[a], expirationDuration, now)
        decreases pending
      {
        var a :| a in pending;
        MembersAppend(defunct, a);
        if Expired(observers[a], expirationDuration, now) {
          defunct := defunct + [a];
        }
        pending := pending - {a};
      }
    }

    /** `ClearExpired`: removes exactly the expired entries. */
    method ClearExpired(now: int)
      modifies this`observers
      ensures observers == Unexpired(old(observers), expirationDuration, now)
    {
      RemoveExpired(observers, expirationDuration, now);
      var defunct := ScanExpired(now);
      if |defunct| > 0 {
        RemoveAddresses(defunct);
      } else {
        assert Members(defunct) == {};
      }
    }
  }
}
