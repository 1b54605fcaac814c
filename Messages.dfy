/**
 * The retrieval query (C4SMsgRetrieve.java), an immutable value, and the
 * response accumulator (C4SRetrieveResponse.java), an object whose service
 * set and hop count are updated in place.
 */
module Messages {
  import opened Identifier
  import opened Descriptors

  /** QoSConstraints.satisfies is not part of this model: any predicate on services. */
  type QoSConstraints = Service -> bool

  /** A request for `amount` services named by `svcId`, satisfying `constraints`, inside `span`. */
  datatype MsgRetrieve = MsgRetrieve(amount: int, constraints: QoSConstraints, svcId: ServiceId, span: IdSpan)

  /**
   * The public constructor: keeps the name, constraints and amount, and takes
   * the span from ID.ServiceId, which is not part of this model and is the
   * parameter `spanOf`.
   */
  function NewMsgRetrieve(svcId: ServiceId, constraints: QoSConstraints, amt: int,
                          spanOf: ServiceId -> IdSpan): (m: MsgRetrieve)
    ensures m.svcId == svcId && m.constraints == constraints && m.amount == amt
    ensures m.span == spanOf(svcId)
  {
    MsgRetrieve(amt, constraints, svcId, spanOf(svcId))
  }

  /** Subset: the same query for a new amount over the span narrowed to start at newMin. */
  function Subset(msg: MsgRetrieve, newMin: Id, amt: int): (m: MsgRetrieve)
    ensures m.svcId == msg.svcId && m.constraints == msg.constraints && m.amount == amt
    ensures m.span == SubsetMin(msg.span, newMin)
  {
    MsgRetrieve(amt, msg.constraints, msg.svcId, SubsetMin(msg.span, newMin))
  }

  /**
   * A sub-query never asks outside the original span, keeps the span's end,
   * and starts at newMin whenever newMin lies in the original span.
   */
  lemma SubsetStaysInSpan(msg: MsgRetrieve, newMin: Id, amt: int, x: Id)
    ensures Contains(Subset(msg, newMin, amt).span, x) ==> Contains(msg.span, x)
    ensures Subset(msg, newMin, amt).span.endIncl == msg.span.endIncl
    ensures Contains(msg.span, newMin) ==>
              Subset(msg, newMin, amt).span.bgn == newMin && Contains(Subset(msg, newMin, amt).span, newMin)
    ensures !Contains(msg.span, newMin) ==> Subset(msg, newMin, amt).span.isEmpty
  {
    SubsetMinNarrows(msg.span, newMin, x);
  }

  /** The services found so far and the number of hops taken to find them. */
  class RetrieveResponse {
    var services: set<Service>
    var hops: int

    /** A new response over the given set counts one hop. */
    constructor (s: set<Service>)
      ensures services == s && hops == 1
    {
      services := s;
      hops := 1;
    }

    /** size: the number of services held, zero exactly when there is none. */
    function Size(): (n: nat)
      reads this
      ensures n == 0 <==> services == {}
    {
      |services|
    }

    /** incrementHop(): one more hop; the services are untouched. */
    method IncrementHop()
      modifies this
      ensures hops == old(hops) + 1
      ensures services == old(services)
    {
      hops := hops + 1;
    }

    /** incrementHop(x): x more hops; the services are untouched. */
    method IncrementHopBy(x: int)
      modifies this
      ensures hops == old(hops) + x
      ensures services == old(services)
    {
      hops := hops + x;
    }

    /** add(response): takes in the other response's services and adds its hops. */
    method AddResponse(other: RetrieveResponse)
      modifies this
      ensures services == old(services) + old(other.services)
      ensures hops == old(hops) + old(other.hops)
      ensures Size() >= old(Size())
    {
      var theirs := other.services;
      var theirHops := other.hops;
      UnionNeverShrinks(services, theirs);
      services := services + theirs;
      hops := hops + theirHops;
    }

    /** add(set): takes in the services; the hop count is unchanged. */
    method AddServices(s: set<Service>)
      modifies this
      ensures services == old(services) + s
      ensures hops == old(hops)
      ensures Size() >= old(Size())
    {
      UnionNeverShrinks(services, s);
      services := services + s;
    }
  }

  /** Taking in more services never makes a response smaller. */
  lemma {:induction false} UnionNeverShrinks(a: set<Service>, b: set<Service>)
    ensures |a + b| >= |a| && |a + b| >= |b|
  {
    SubsetSize(a, a + b);
    SubsetSize(b, a + b);
  }

  /** A subset is no larger than its superset. */
  lemma {:induction false} SubsetSize<T>(a: set<T>, b: set<T>)
    requires a <= b
    ensures |a| <= |b|
    decreases |b|
  {
    if b != {} {
      var x :| x in b;
      SubsetSize(a - {x}, b - {x});
    }
  }
}
