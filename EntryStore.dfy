/**
 * The local entry repository of a node (Entries.java): a map from provider
 * identity to stored service, with single and batch updates, the (from, to]
 * interval scan and the constraint-filtered query.
 */
module EntryStore {
  import opened Failures
  import opened Identifier
  import opened Descriptors
  import opened Messages

  type Store = map<ProviderId, Service>

  /** Every service is filed under its own provider identity. */
  ghost predicate KeyedByProvider(m: Store)
  {
    forall k :: k in m ==> m[k].providerId == k
  }

  /** The provider identities of a set of services. */
  function ProvidersOf(s: set<Service>): set<ProviderId>
  {
    set x | x in s :: x.providerId
  }

  lemma ProvidersOfAdd(s: set<Service>, x: Service)
    ensures ProvidersOf(s + {x}) == ProvidersOf(s) + {x.providerId}
  {
  }

  /** The services of a set that satisfy the constraints. */
  function Satisfying(s: set<Service>, constraints: QoSConstraints): set<Service>
  {
    set x | x in s && constraints(x)
  }

  // ---------------------------------------------------------------------
  // The interval scan
  // ---------------------------------------------------------------------

  /** The test of getEntriesInInterval: in the open interval, or equal to its upper bound. */
  function InScan(id: Id, from: Id, to: Id): bool
  {
    IsInInterval(id, from, to) || Equals(id, to)
  }

  /**
   * The scan is the half-open ring interval (from, to]: the whole ring when
   * the bounds coincide, and wrapping through the maximum when from > to.
   */
  lemma InScanValues(x: Id, from: Id, to: Id)
    ensures InScan(x, from, to) <==>
            if from == to then true
            else if Value(from) < Value(to) then Value(from) < Value(x) <= Value(to)
            else Value(from) < Value(x) || Value(x) <= Value(to)
  {
    IsInIntervalValues(x, from, to);
    if Value(x) == Value(to) { ValueInjective(x, to); }
    if Value(from) == Value(to) { ValueInjective(from, to); }
  }

  /** The stored services whose identifier passes the scan test. */
  function Scan(m: Store, idOf: ProviderId -> Id, from: Id, to: Id): set<Service>
  {
    set k | k in m && InScan(idOf(k), from, to) :: m[k]
  }

  /** The stored keys whose identifier passes the scan test. */
  function ScanKeys(m: Store, idOf: ProviderId -> Id, from: Id, to: Id): set<ProviderId>
  {
    set k | k in m && InScan(idOf(k), from, to)
  }

  /**
   * In a store keyed by provider, a stored service is scanned exactly when its
   * own identifier passes the test: the upper bound is always included and the
   * lower bound is excluded unless the bounds coincide.
   */
  lemma ScanMembership(m: Store, idOf: ProviderId -> Id, from: Id, to: Id, k: ProviderId)
    requires KeyedByProvider(m) && k in m
    ensures m[k] in Scan(m, idOf, from, to) <==> InScan(idOf(k), from, to)
    ensures idOf(k) == to ==> m[k] in Scan(m, idOf, from, to)
    ensures idOf(k) == from && from != to ==> m[k] !in Scan(m, idOf, from, to)
  {
    if m[k] in Scan(m, idOf, from, to) {
      var k' :| k' in m && InScan(idOf(k'), from, to) && m[k'] == m[k];
      assert k' == k;
    }
    BoundsExcluded(from, to);
  }

  /** In a store keyed by provider, the providers of the scanned services are the scanned keys. */
  lemma ScanProviders(m: Store, idOf: ProviderId -> Id, from: Id, to: Id)
    requires KeyedByProvider(m)
    ensures ProvidersOf(Scan(m, idOf, from, to)) == ScanKeys(m, idOf, from, to)
  {
    forall k | k in ScanKeys(m, idOf, from, to)
      ensures k in ProvidersOf(Scan(m, idOf, from, to))
    {
      assert m[k] in Scan(m, idOf, from, to);
    }
  }

  /** The services a query may return: scanned over its span and satisfying its constraints. */
  function Matches(m: Store, idOf: ProviderId -> Id, msg: MsgRetrieve): set<Service>
  {
    Satisfying(Scan(m, idOf, msg.span.bgn, msg.span.endIncl), msg.constraints)
  }

  function Min(a: int, b: int): int
  {
    if a <= b then a else b
  }

  /**
   * The accumulation loop of getEntries as the source writes it: the stop test
   * `amount >= size` holds as soon as one service is taken whenever amount is
   * positive, so at most one service is ever returned.
   */
  method CollectAsWritten(candidates: set<Service>, constraints: QoSConstraints, amount: int)
    returns (svcs: set<Service>)
    ensures svcs <= Satisfying(candidates, constraints)
    ensures amount > 0 ==> |svcs| <= 1
    ensures amount > 0 ==> (svcs == {} <==> Satisfying(candidates, constraints) == {})
    ensures amount <= 0 ==> svcs == Satisfying(candidates, constraints)
  {
    svcs := {};
    var rest := candidates;
    while rest != {}
      invariant rest <= candidates
      invariant svcs == Satisfying(candidates - rest, constraints)
      invariant amount > 0 ==> svcs == {}
      decreases |rest|
    {
      var s :| s in rest;
      rest := rest - {s};
      if !constraints(s) {
        continue;
      }
      svcs := svcs + {s};
      if amount >= |svcs| {
        break;
      }
    }
  }

  /**
   * The evidently intended accumulation loop: take satisfying services until
   * `amount` of them are held.
   */
  method CollectUpTo(candidates: set<Service>, constraints: QoSConstraints, amount: int)
    returns (svcs: set<Service>)
    requires amount > 0
    ensures svcs <= Satisfying(candidates, constraints)
    ensures |svcs| == Min(amount, |Satisfying(candidates, constraints)|)
  {
    svcs := {};
    var rest := candidates;
    while rest != {}
      invariant rest <= candidates
      invariant svcs == Satisfying(candidates - rest, constraints)
      invariant |svcs| < amount
      decreases |rest|
    {
      var s :| s in rest;
      rest := rest - {s};
      if !constraints(s) {
        continue;
      }
      svcs := svcs + {s};
      if |svcs| >= amount {
        SubsetSize(svcs, Satisfying(candidates, constraints));
        return;
      }
    }
    assert candidates - rest == candidates;
  }

  // ---------------------------------------------------------------------
  // The repository
  // ---------------------------------------------------------------------

  class Entries {
    var entries: Store
    /** new ID(ProviderId) is not part of this model: the identifier of each key. */
    const idOf: ProviderId -> Id

    ghost predicate Valid()
      reads this
    {
      KeyedByProvider(entries)
    }

    /** An empty repository. */
    constructor (idOf: ProviderId -> Id)
      ensures entries == map[] && this.idOf == idOf
      ensures Valid()
    {
      entries := map[];
      this.idOf := idOf;
    }

    /** add: files the service under its provider identity, replacing any earlier one; null throws. */
    method Add(svc: Option<Service>) returns (o: Outcome)
      requires Valid()
      modifies this
      ensures Valid()
      ensures svc.None? ==> o == Thrown(NullPointer) && entries == old(entries)
      ensures svc.Some? ==> o == Done && entries == old(entries)[svc.value.providerId := svc.value]
    {
      if svc.None? {
        return Thrown(NullPointer);
      }
      entries := entries[svc.value.providerId := svc.value];
      return Done;
    }

    /**
     * addAll: adds every service of the set, one at a time; a null set
     * throws. The stored keys grow by exactly the set's providers; each of
     * those keys then holds a service of the set, every other key is as before.
     */
    method AddAll(toAdd: Option<set<Service>>) returns (o: Outcome)
      requires Valid()
      modifies this
      ensures Valid()
      ensures toAdd.None? ==> o == Thrown(NullPointer) && entries == old(entries)
      ensures toAdd.Some? ==> o == Done && AddedAll(old(entries), entries, toAdd.value)
    {
      if toAdd.None? {
        return Thrown(NullPointer);
      }
      var rest := toAdd.value;
      while rest != {}
        invariant rest <= toAdd.value
        invariant Valid()
        invariant AddedAll(old(entries), entries, toAdd.value - rest)
        decreases |rest|
      {
        var s :| s in rest;
        ghost var done := toAdd.value - rest;
        ProvidersOfAdd(done, s);
        assert toAdd.value - (rest - {s}) == done + {s};
        var ignored := Add(Some(s));
        rest := rest - {s};
      }
      return Done;
    }

    /** remove: drops the key if present; null throws. */
    method Remove(key: Option<ProviderId>) returns (o: Outcome)
      requires Valid()
      modifies this
      ensures Valid()
      ensures key.None? ==> o == Thrown(NullPointer) && entries == old(entries)
      ensures key.Some? ==> o == Done && entries == old(entries) - {key.value}
    {
      if key.None? {
        return Thrown(NullPointer);
      }
      entries := entries - {key.value};
      return Done;
    }

    /** removeAll: removes every key of the set, one at a time; a null set throws. */
    method RemoveAll(toRemove: Option<set<ProviderId>>) returns (o: Outcome)
      requires Valid()
      modifies this
      ensures Valid()
      ensures toRemove.None? ==> o == Thrown(NullPointer) && entries == old(entries)
      ensures toRemove.Some? ==> o == Done && entries == old(entries) - toRemove.value
    {
      if toRemove.None? {
        return Thrown(NullPointer);
      }
      var rest := toRemove.value;
      while rest != {}
        invariant rest <= toRemove.value
        invariant Valid()
        invariant entries == old(entries) - (toRemove.value - rest)
        decreases |rest|
      {
        var k :| k in rest;
        var ignored := Remove(Some(k));
        rest := rest - {k};
      }
      return Done;
    }

    /**
     * getEntriesInInterval: visits every key and keeps the services whose
     * identifier is in (from, to) or equal to `to`; the store is not changed.
     */
    method GetEntriesInInterval(from: Id, to: Id) returns (result: set<Service>)
      ensures result == Scan(entries, idOf, from, to)
    {
      result := {};
      var keys := entries.Keys;
      while keys != {}
        invariant keys <= entries.Keys
        invariant result == set k | k in entries && k !in keys && InScan(idOf(k), from, to) :: entries[k]
        decreases |keys|
      {
        var k :| k in keys;
        var id := idOf(k);
        if IsInInterval(id, from, to) || Equals(id, to) {
          result := result + {entries[k]};
        }
        keys := keys - {k};
      }
    }

    /**
     * getEntries(msg) as the source writes it: nothing when amount is not
     * positive; otherwise scanned services satisfying the constraints, but at
     * most one of them, whatever the amount.
     */
    method GetEntriesAsWritten(msg: MsgRetrieve) returns (svcs: set<Service>)
      ensures svcs <= Matches(entries, idOf, msg)
      ensures msg.amount <= 0 ==> svcs == {}
      ensures |svcs| <= 1
      ensures msg.amount > 0 ==> (svcs == {} <==> Matches(entries, idOf, msg) == {})
    {
      svcs := {};
      if msg.amount > 0 {
        var candidates := GetEntriesInInterval(msg.span.bgn, msg.span.endIncl);
        svcs := CollectAsWritten(candidates, msg.constraints, msg.amount);
      }
    }

    /**
     * getEntries(msg) as evidently intended: nothing when amount is not
     * positive; otherwise `amount` matching services, or all of them when
     * fewer match.
     */
    method GetEntries(msg: MsgRetrieve) returns (svcs: set<Service>)
      ensures svcs <= Matches(entries, idOf, msg)
      ensures msg.amount <= 0 ==> svcs == {}
      ensures msg.amount > 0 ==> |svcs| == Min(msg.amount, |Matches(entries, idOf, msg)|)
    {
      svcs := {};
      if msg.amount > 0 {
        var candidates := GetEntriesInInterval(msg.span.bgn, msg.span.endIncl);
        svcs := CollectUpTo(candidates, msg.constraints, msg.amount);
      }
    }

    /** getNumberOfStoredEntries: the number of distinct keys. */
    method GetNumberOfStoredEntries() returns (n: nat)
      ensures n == |entries.Keys|
    {
      n := |entries|;
    }
  }

  /**
   * The state addAll leaves: the keys grow by exactly the providers of `s`;
   * a key among them holds some service of `s`, any other key is unchanged.
   */
  ghost predicate AddedAll(before: Store, after: Store, s: set<Service>)
  {
    after.Keys == before.Keys + ProvidersOf(s) &&
    forall k :: k in after ==>
      if k in ProvidersOf(s) then after[k] in s else k in before && after[k] == before[k]
  }

  /**
   * When no two services of `s` share a provider, addAll is order-independent:
   * the result is the old store overridden by `s` filed under its providers.
   */
  lemma AddedAllDistinct(before: Store, after: Store, s: set<Service>)
    requires forall a, b :: a in s && b in s && a.providerId == b.providerId ==> a == b
    requires AddedAll(before, after, s) && KeyedByProvider(after)
    ensures forall x :: x in s ==> x.providerId in after && after[x.providerId] == x
    ensures forall k :: k in before && k !in ProvidersOf(s) ==> k in after && after[k] == before[k]
  {
    forall x | x in s
      ensures x.providerId in after && after[x.providerId] == x
    {
      assert x.providerId in ProvidersOf(s);
    }
  }
}
