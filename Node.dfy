/**
 * The part of a node that answers other nodes (NodeImpl.java): each handler
 * checks responsibility against the predecessor, updates the local entry
 * store, and schedules calls on other nodes. Outgoing calls are recorded in
 * an outbox in the order they are issued; the answers of remote retrievals
 * are parameters.
 */
module Node {
  import opened Failures
  import opened Identifier
  import opened Descriptors
  import opened Messages
  import opened EntryStore

  /** A reference to another node. */
  datatype NodeRef = NodeRef(nodeId: Id, url: string)

  /**
   * The routing-table state the handlers read: the predecessor (possibly
   * unknown), the successor list and the immediate successor (possibly unknown).
   */
  datatype References = References(predecessor: Option<NodeRef>, successors: seq<NodeRef>, successor: Option<NodeRef>)

  /** A call this node makes on another node. */
  datatype RemoteCall =
    | InsertEntryCall(target: NodeRef, entry: Service)
    | InsertReplicasCall(target: NodeRef, replicas: set<Service>)
    | RemoveEntryCall(target: NodeRef, key: ProviderId)
    | RemoveReplicasCall(target: NodeRef, sender: Id, keys: set<ProviderId>)
    | RetrieveEntriesCall(target: NodeRef, msg: MsgRetrieve)

  /** One insertReplicas call per successor, in list order. */
  function InsertReplicaCalls(succs: seq<NodeRef>, replicas: set<Service>): seq<RemoteCall>
  {
    if |succs| == 0 then []
    else InsertReplicaCalls(succs[..|succs| - 1], replicas) + [InsertReplicasCall(succs[|succs| - 1], replicas)]
  }

  /** One removeReplicas call per successor, in list order. */
  function RemoveReplicaCalls(succs: seq<NodeRef>, sender: Id, keys: set<ProviderId>): seq<RemoteCall>
  {
    if |succs| == 0 then []
    else RemoveReplicaCalls(succs[..|succs| - 1], sender, keys) + [RemoveReplicasCall(succs[|succs| - 1], sender, keys)]
  }

  /** Every successor receives exactly one insertReplicas call, the i-th successor the i-th call. */
  lemma {:induction false} InsertReplicaCallsShape(succs: seq<NodeRef>, replicas: set<Service>)
    ensures |InsertReplicaCalls(succs, replicas)| == |succs|
    ensures forall i :: 0 <= i < |succs| ==>
              InsertReplicaCalls(succs, replicas)[i] == InsertReplicasCall(succs[i], replicas)
  {
    if |succs| > 0 {
      InsertReplicaCallsShape(succs[..|succs| - 1], replicas);
    }
  }

  /** Every successor receives exactly one removeReplicas call, the i-th successor the i-th call. */
  lemma {:induction false} RemoveReplicaCallsShape(succs: seq<NodeRef>, sender: Id, keys: set<ProviderId>)
    ensures |RemoveReplicaCalls(succs, sender, keys)| == |succs|
    ensures forall i :: 0 <= i < |succs| ==>
              RemoveReplicaCalls(succs, sender, keys)[i] == RemoveReplicasCall(succs[i], sender, keys)
  {
    if |succs| > 0 {
      RemoveReplicaCallsShape(succs[..|succs| - 1], sender, keys);
    }
  }

  /** The list notify returns: the predecessor, or the candidate when there is none, then the successors. */
  function NotifyList(refs: References, candidate: NodeRef): seq<NodeRef>
  {
    [if refs.predecessor.Some? then refs.predecessor.value else candidate] + refs.successors
  }

  class NodeImpl {
    const nodeId: Id
    const nodeUrl: string
    var references: References
    const store: Entries
    /** Calls issued on other nodes, oldest first. */
    var outbox: seq<RemoteCall>

    ghost predicate Valid()
      reads this, store
    {
      store.Valid()
    }

    constructor (nodeId: Id, nodeUrl: string, references: References, store: Entries)
      requires store.Valid()
      ensures this.nodeId == nodeId && this.nodeUrl == nodeUrl
      ensures this.references == references && this.store == store
      ensures outbox == []
      ensures Valid()
    {
      this.nodeId := nodeId;
      this.nodeUrl := nodeUrl;
      this.references := references;
      this.store := store;
      outbox := [];
    }

    /**
     * The constructor's argument check: any null argument (the owning
     * ChordImpl, the ID, the URL, the routing table or the repository) throws
     * IllegalArgumentException.
     */
    static method Create(hasImpl: bool, nodeId: Option<Id>, nodeUrl: Option<string>,
                         references: Option<References>, store: Option<Entries>)
      returns (r: Result<NodeImpl>)
      requires store.Some? ==> store.value.Valid()
      ensures r.Err? <==> !hasImpl || nodeId.None? || nodeUrl.None? || references.None? || store.None?
      ensures r.Err? ==> r.error == IllegalArgument("Parameters of the constructor may not have a null value!")
      ensures r.Ok? ==> fresh(r.value) && r.value.Valid() && r.value.outbox == [] &&
                        r.value.nodeId == nodeId.value && r.value.nodeUrl == nodeUrl.value &&
                        r.value.references == references.value && r.value.store == store.value
    {
      if !hasImpl || nodeId.None? || nodeUrl.None? || references.None? || store.None? {
        return Err(IllegalArgument("Parameters of the constructor may not have a null value!"));
      }
      var node := new NodeImpl(nodeId.value, nodeUrl.value, references.value, store.value);
      return Ok(node);
    }

    /**
     * notify: returns the predecessor (or the candidate when there is none)
     * followed by the successor list, then offers the candidate to the routing
     * table; whether it is taken as predecessor is the routing table's policy,
     * given here as `adopt`.
     */
    method Notify(candidate: NodeRef, adopt: bool) returns (result: seq<NodeRef>)
      modifies this
      ensures result == NotifyList(old(references), candidate)
      ensures references == if adopt then old(references).(predecessor := Some(candidate)) else old(references)
      ensures outbox == old(outbox)
    {
      result := [];
      if references.predecessor.Some? {
        result := result + [references.predecessor.value];
      } else {
        result := result + [candidate];
      }
      result := result + references.successors;
      if adopt {
        references := references.(predecessor := Some(candidate));
      }
    }

    /**
     * notifyAndCopyEntries: the stored services in (this node, candidate],
     * taken before the candidate is offered, together with notify's list.
     */
    method NotifyAndCopyEntries(candidate: NodeRef, adopt: bool)
      returns (refs: seq<NodeRef>, copied: set<Service>)
      modifies this
      ensures copied == Scan(store.entries, store.idOf, nodeId, candidate.nodeId)
      ensures refs == NotifyList(old(references), candidate)
      ensures references == if adopt then old(references).(predecessor := Some(candidate)) else old(references)
      ensures outbox == old(outbox)
    {
      copied := store.GetEntriesInInterval(nodeId, candidate.nodeId);
      refs := Notify(candidate, adopt);
    }

    /**
     * insertEntry: without a predecessor the forward dereferences null and
     * throws; when the entry's identifier is not in (predecessor, this node)
     * the entry is forwarded to the predecessor; otherwise it is stored and
     * one insertReplicas({entry}) call goes to every successor.
     */
    method InsertEntry(toInsert: Service) returns (o: Outcome)
      requires Valid()
      modifies this, store
      ensures Valid()
      ensures references == old(references)
      ensures old(references.predecessor).None? ==>
                o == Thrown(NullPointer) && store.entries == old(store.entries) && outbox == old(outbox)
      ensures old(references.predecessor).Some? &&
              !IsInInterval(store.idOf(toInsert.providerId), old(references.predecessor).value.nodeId, nodeId) ==>
                o == Done && store.entries == old(store.entries) &&
                outbox == old(outbox) + [InsertEntryCall(old(references.predecessor).value, toInsert)]
      ensures old(references.predecessor).Some? &&
              IsInInterval(store.idOf(toInsert.providerId), old(references.predecessor).value.nodeId, nodeId) ==>
                o == Done && store.entries == old(store.entries)[toInsert.providerId := toInsert] &&
                outbox == old(outbox) + InsertReplicaCalls(references.successors, {toInsert})
    {
      var pid := store.idOf(toInsert.providerId);
      if references.predecessor.None? {
        return Thrown(NullPointer);
      }
      var pred := references.predecessor.value;
      if !IsInInterval(pid, pred.nodeId, nodeId) {
        outbox := outbox + [InsertEntryCall(pred, toInsert)];
        return Done;
      }
      StoreAndReplicate(toInsert);
      return Done;
    }

    /**
     * insertEntry as evidently intended, guarded like removeEntry: the entry
     * is forwarded only when a predecessor is known and the entry's identifier
     * is not in (predecessor, this node); otherwise, also when no predecessor
     * is known, it is stored here and replicated to every successor.
     */
    method InsertEntryCorrected(toInsert: Service)
      requires Valid()
      modifies this, store
      ensures Valid()
      ensures references == old(references)
      ensures old(references.predecessor).Some? &&
              !IsInInterval(store.idOf(toInsert.providerId), old(references.predecessor).value.nodeId, nodeId) ==>
                store.entries == old(store.entries) &&
                outbox == old(outbox) + [InsertEntryCall(old(references.predecessor).value, toInsert)]
      ensures old(references.predecessor).None? ||
              IsInInterval(store.idOf(toInsert.providerId), old(references.predecessor).value.nodeId, nodeId) ==>
                store.entries == old(store.entries)[toInsert.providerId := toInsert] &&
                outbox == old(outbox) + InsertReplicaCalls(references.successors, {toInsert})
    {
      var pid := store.idOf(toInsert.providerId);
      if references.predecessor.Some? && !IsInInterval(pid, references.predecessor.value.nodeId, nodeId) {
        outbox := outbox + [InsertEntryCall(references.predecessor.value, toInsert)];
        return;
      }
      StoreAndReplicate(toInsert);
    }

    /** The local part of insertEntry: put the entry, then one insertReplicas({entry}) per successor. */
    method StoreAndReplicate(toInsert: Service)
      requires Valid()
      modifies this, store
      ensures Valid()
      ensures references == old(references)
      ensures store.entries == old(store.entries)[toInsert.providerId := toInsert]
      ensures outbox == old(outbox) + InsertReplicaCalls(references.successors, {toInsert})
    {
      var ignored := store.Add(Some(toInsert));
      ghost var stored := store.entries;
      var newEntries := {toInsert};
      var succs := references.successors;
      for i := 0 to |succs|
        invariant Valid() && store.entries == stored && references == old(references)
        invariant outbox == old(outbox) + InsertReplicaCalls(succs[..i], newEntries)
      {
        assert succs[..i + 1][..i] == succs[..i];
        outbox := outbox + [InsertReplicasCall(succs[i], newEntries)];
      }
      assert succs[..|succs|] == succs;
    }

    /** insertReplicas: adds all given services unconditionally; a null set throws. */
    method InsertReplicas(replicasToInsert: Option<set<Service>>) returns (o: Outcome)
      requires Valid()
      modifies store
      ensures Valid()
      ensures replicasToInsert.None? ==> o == Thrown(NullPointer) && store.entries == old(store.entries)
      ensures replicasToInsert.Some? ==>
                o == Done && AddedAll(old(store.entries), store.entries, replicasToInsert.value)
    {
      o := store.AddAll(replicasToInsert);
    }

    /**
     * removeEntry: when a predecessor is known and the key's identifier is not
     * in (predecessor, this node) the removal is forwarded to the predecessor;
     * otherwise (also when no predecessor is known) the key is removed here and
     * one removeReplicas(this node, {key}) call goes to every successor.
     */
    method RemoveEntry(providerId: ProviderId)
      requires Valid()
      modifies this, store
      ensures Valid()
      ensures references == old(references)
      ensures old(references.predecessor).Some? &&
              !IsInInterval(store.idOf(providerId), old(references.predecessor).value.nodeId, nodeId) ==>
                store.entries == old(store.entries) &&
                outbox == old(outbox) + [RemoveEntryCall(old(references.predecessor).value, providerId)]
      ensures old(references.predecessor).None? ||
              IsInInterval(store.idOf(providerId), old(references.predecessor).value.nodeId, nodeId) ==>
                store.entries == old(store.entries) - {providerId} &&
                outbox == old(outbox) + RemoveReplicaCalls(references.successors, nodeId, {providerId})
    {
      var id := store.idOf(providerId);
      if references.predecessor.Some? && !IsInInterval(id, references.predecessor.value.nodeId, nodeId) {
        outbox := outbox + [RemoveEntryCall(references.predecessor.value, providerId)];
        return;
      }
      var ignored := store.Remove(Some(providerId));
      ghost var removed := store.entries;
      var entriesToRemove := {providerId};
      var succs := references.successors;
      for i := 0 to |succs|
        invariant Valid() && store.entries == removed && references == old(references)
        invariant outbox == old(outbox) + RemoveReplicaCalls(succs[..i], nodeId, entriesToRemove)
      {
        assert succs[..i + 1][..i] == succs[..i];
        outbox := outbox + [RemoveReplicasCall(succs[i], nodeId, entriesToRemove)];
      }
      assert succs[..|succs|] == succs;
    }

    /**
     * removeReplicas: a null set throws; an empty set removes every stored
     * service in (this node, sender]; otherwise exactly the given keys go.
     */
    method RemoveReplicas(sendingNodeId: Id, replicasToRemove: Option<set<ProviderId>>) returns (o: Outcome)
      requires Valid()
      modifies store
      ensures Valid()
      ensures replicasToRemove.None? ==> o == Thrown(NullPointer) && store.entries == old(store.entries)
      ensures replicasToRemove == Some({}) ==>
                o == Done &&
                store.entries == old(store.entries) - ScanKeys(old(store.entries), store.idOf, nodeId, sendingNodeId)
      ensures replicasToRemove.Some? && replicasToRemove.value != {} ==>
                o == Done && store.entries == old(store.entries) - replicasToRemove.value
    {
      if replicasToRemove.None? {
        return Thrown(NullPointer);
      }
      if |replicasToRemove.value| == 0 {
        var allReplicasToRemove := store.GetEntriesInInterval(nodeId, sendingNodeId);
        ScanProviders(store.entries, store.idOf, nodeId, sendingNodeId);
        RemoveProvidersOf(allReplicasToRemove);
        return Done;
      }
      o := store.RemoveAll(replicasToRemove);
    }

    /** The removal loop of removeReplicas: removes the provider key of every given service. */
    method RemoveProvidersOf(services: set<Service>)
      requires Valid()
      modifies store
      ensures Valid()
      ensures store.entries == old(store.entries) - ProvidersOf(services)
    {
      var rest := services;
      while rest != {}
        invariant rest <= services
        invariant Valid()
        invariant store.entries == old(store.entries) - ProvidersOf(services - rest)
        decreases |rest|
      {
        var s :| s in rest;
        ProvidersOfAdd(services - rest, s);
        assert services - (rest - {s}) == (services - rest) + {s};
        var ignored := store.Remove(Some(s.providerId));
        rest := rest - {s};
      }
      assert services - rest == services;
    }

    /**
     * retrieveEntries: an empty response (one hop) when the amount is not
     * positive or the span is empty; the predecessor's answer when a
     * predecessor is known and the span's start is not in (predecessor, this
     * node); otherwise what getEntries as written yields locally (at most one
     * match, two hops), extended by the successor's answer to the narrowed
     * query for the shortfall (its hops plus one more) when results are still
     * missing, a successor is known and the span contains it. `local` names
     * the services the local query chose.
     */
    method RetrieveEntries(msg: MsgRetrieve, predReply: RetrieveResponse, succReply: RetrieveResponse)
      returns (resp: RetrieveResponse, ghost local: set<Service>)
      requires Valid()
      modifies this
      ensures Valid() && references == old(references)
      ensures msg.amount <= 0 || msg.span.isEmpty ==>
                fresh(resp) && resp.services == {} && resp.hops == 1 && outbox == old(outbox)
      ensures msg.amount > 0 && !msg.span.isEmpty && references.predecessor.Some? &&
              !IsInInterval(msg.span.bgn, references.predecessor.value.nodeId, nodeId) ==>
                resp == predReply && outbox == old(outbox) + [RetrieveEntriesCall(references.predecessor.value, msg)]
      ensures msg.amount > 0 && !msg.span.isEmpty &&
              (references.predecessor.None? || IsInInterval(msg.span.bgn, references.predecessor.value.nodeId, nodeId)) ==>
                fresh(resp) &&
                local <= Matches(store.entries, store.idOf, msg) &&
                |local| <= 1 && (local == {} <==> Matches(store.entries, store.idOf, msg) == {}) &&
                AnsweredFrom(msg, local, succReply, resp, old(outbox))
    {
      local := {};
      if msg.amount <= 0 {
        resp := new RetrieveResponse({});
        return;
      }
      if msg.span.isEmpty {
        resp := new RetrieveResponse({});
        return;
      }
      if references.predecessor.Some? && !IsInInterval(msg.span.bgn, references.predecessor.value.nodeId, nodeId) {
        outbox := outbox + [RetrieveEntriesCall(references.predecessor.value, msg)];
        resp := predReply;
        return;
      }
      resp, local := RetrieveHere(msg, succReply);
    }

    /**
     * The part of retrieveEntries answered by this node, with the local query
     * as written: at most one local match, so the successor is asked whenever
     * more than one service was requested and it lies in the span.
     */
    method RetrieveHere(msg: MsgRetrieve, succReply: RetrieveResponse)
      returns (resp: RetrieveResponse, ghost local: set<Service>)
      requires Valid()
      modifies this
      ensures Valid() && references == old(references)
      ensures fresh(resp)
      ensures local <= Matches(store.entries, store.idOf, msg)
      ensures |local| <= 1
      ensures msg.amount > 0 ==> (local == {} <==> Matches(store.entries, store.idOf, msg) == {})
      ensures AnsweredFrom(msg, local, succReply, resp, old(outbox))
    {
      var found := store.GetEntriesAsWritten(msg);
      local := found;
      resp := AnswerWith(msg, found, succReply);
    }

    /**
     * The same part with the local query as evidently intended: as many local
     * matches as requested, capped by how many there are, so the successor is
     * asked only for the shortfall.
     */
    method RetrieveHereCorrected(msg: MsgRetrieve, succReply: RetrieveResponse)
      returns (resp: RetrieveResponse, ghost local: set<Service>)
      requires Valid()
      modifies this
      ensures Valid() && references == old(references)
      ensures fresh(resp)
      ensures local <= Matches(store.entries, store.idOf, msg)
      ensures msg.amount > 0 ==> |local| == Min(msg.amount, |Matches(store.entries, store.idOf, msg)|)
      ensures AnsweredFrom(msg, local, succReply, resp, old(outbox))
    {
      var found := store.GetEntries(msg);
      local := found;
      resp := AnswerWith(msg, found, succReply);
    }

    /**
     * The response built from the local matches `found`: two hops, then, when
     * results are still missing and the successor lies in the span, the
     * narrowed query for the shortfall goes to the successor and its answer,
     * with one more hop, is added.
     */
    method AnswerWith(msg: MsgRetrieve, found: set<Service>, succReply: RetrieveResponse)
      returns (resp: RetrieveResponse)
      requires Valid()
      modifies this
      ensures Valid() && references == old(references)
      ensures fresh(resp)
      ensures AnsweredFrom(msg, found, succReply, resp, old(outbox))
    {
      resp := new RetrieveResponse({});
      resp.AddServices(found);
      resp.IncrementHop();
      var moreResults := msg.amount - |resp.services|;
      if moreResults > 0 {
        if references.successor.Some? {
          var next := references.successor.value;
          if Contains(msg.span, next.nodeId) {
            var msg2 := Subset(msg, next.nodeId, moreResults);
            outbox := outbox + [RetrieveEntriesCall(next, msg2)];
            resp.AddResponse(succReply);
            resp.IncrementHop();
          }
        }
      }
    }

    /**
     * The response of a node that answers with the local matches `local`,
     * the outbox having been `before`: when the continuation condition holds,
     * the local matches plus the successor's services, the successor's hops
     * plus three, and the narrowed query for the shortfall sent to the
     * successor; otherwise the local matches alone with two hops and no call.
     */
    ghost predicate AnsweredFrom(msg: MsgRetrieve, local: set<Service>, succReply: RetrieveResponse,
                                 resp: RetrieveResponse, before: seq<RemoteCall>)
      reads this, succReply, resp
    {
      if Continues(msg, |local|) then
        resp.services == local + succReply.services && resp.hops == succReply.hops + 3 &&
        outbox == before +
                  [RetrieveEntriesCall(references.successor.value,
                                       Subset(msg, references.successor.value.nodeId, msg.amount - |local|))]
      else
        resp.services == local && resp.hops == 2 && outbox == before
    }

    /** The continuation condition of retrieveEntries after `localSize` local results. */
    predicate Continues(msg: MsgRetrieve, localSize: int)
      reads this
    {
      msg.amount - localSize > 0 && references.successor.Some? && Contains(msg.span, references.successor.value.nodeId)
    }
  }
}
