/**
 * Service descriptors (ServiceId.java, ProviderId.java, Service.java): up to
 * four semantic name parts plus a provider slot, the provider identity that
 * keys the entry store, and a stored service record.
 */
module Descriptors {
  import opened Failures

  /** Number of semantic parts, and of all parts (semantic plus provider). */
  const PartsSemantic: nat := 4
  const PartsAll: nat := PartsSemantic + 1

  /** A five-slot array of strings; a null slot is None. */
  type Parts = p: seq<Option<string>> | |p| == PartsAll witness seq(PartsAll, _ => None)

  /**
   * A (possibly partial) service name. `parts` holds the given semantic names
   * followed by absent slots; `hashedParts` is the array behind getHashedParts,
   * whose filling is not part of this model: only ProviderId writes it, in its
   * provider slot.
   */
  datatype ServiceId = ServiceId(parts: Parts, hashedParts: Parts)

  /** A fully named service instance: a ServiceId together with its provider string. */
  datatype ProviderId = ProviderId(svc: ServiceId, providerPart: string)

  /** A stored service: its provider identity and a QoS list that may be null. */
  datatype Service = Service(providerId: ProviderId, qos: Option<seq<string>>)

  /** `parts` lays out the given names in order in the first slots, the rest absent. */
  ghost predicate LaidOut(parts: Parts, names: seq<Option<string>>)
  {
    |names| <= PartsAll &&
    (forall i :: 0 <= i < |names| ==> parts[i] == names[i]) &&
    (forall i :: |names| <= i < PartsAll ==> parts[i] == None)
  }

  /**
   * new ServiceId(semanticName): more than four or zero parts throw
   * IllegalArgumentException; otherwise the names are copied in order into a
   * fresh five-slot array and the remaining slots stay null.
   */
  method NewServiceId(semanticName: seq<Option<string>>) returns (r: Result<ServiceId>)
    ensures |semanticName| > PartsSemantic ==>
              r == Err(IllegalArgument("Semantic name has too many parts"))
    ensures |semanticName| == 0 ==>
              r == Err(IllegalArgument("Semantic name has too few parts"))
    ensures 1 <= |semanticName| <= PartsSemantic ==>
              r.Ok? && LaidOut(r.value.parts, semanticName) &&
              ServiceIdProviderPart(r.value) == None &&
              forall i :: 0 <= i < PartsAll ==> r.value.hashedParts[i] == None
  {
    if |semanticName| > PartsSemantic {
      return Err(IllegalArgument("Semantic name has too many parts"));
    }
    if |semanticName| == 0 {
      return Err(IllegalArgument("Semantic name has too few parts"));
    }
    var parts := new Option<string>[PartsAll](_ => None);
    for i := 0 to |semanticName|
      invariant forall j :: 0 <= j < i ==> parts[j] == semanticName[j]
      invariant forall j :: |semanticName| <= j < PartsAll ==> parts[j] == None
    {
      parts[i] := semanticName[i];
    }
    var hashed := new Option<string>[PartsAll](_ => None);
    return Ok(ServiceId(parts[..], hashed[..]));
  }

  /** getProviderPart of ServiceId: the provider slot of `parts`, which the constructor never fills. */
  function ServiceIdProviderPart(s: ServiceId): (p: Option<string>)
    ensures forall names :: LaidOut(s.parts, names) && |names| <= PartsSemantic ==> p == None
  {
    s.parts[PartsSemantic]
  }

  /** The index of the first null slot at or after i, or the array length when there is none. */
  function FirstAbsentFrom(parts: seq<Option<string>>, i: nat): (n: nat)
    requires i <= |parts|
    ensures i <= n <= |parts|
    ensures forall j :: i <= j < n ==> parts[j].Some?
    ensures n < |parts| ==> parts[n].None?
    decreases |parts| - i
  {
    if i == |parts| then |parts|
    else if parts[i].None? then i
    else FirstAbsentFrom(parts, i + 1)
  }

  /** partsGivenCount: scans the slots and stops at the first null one. */
  method PartsGivenCount(s: ServiceId) returns (n: nat)
    ensures n == FirstAbsentFrom(s.parts, 0)
    ensures n <= PartsAll
    ensures forall j :: 0 <= j < n ==> s.parts[j].Some?
    ensures n < PartsAll ==> s.parts[n].None?
  {
    var i := 0;
    while i < |s.parts|
      invariant i <= |s.parts|
      invariant FirstAbsentFrom(s.parts, i) == FirstAbsentFrom(s.parts, 0)
    {
      if s.parts[i].None? {
        return i;
      }
      i := i + 1;
    }
    return |s.parts|;
  }

  /** For a name laid out from n non-null parts, the given-parts count is n. */
  lemma PartsGivenCountOfNames(s: ServiceId, names: seq<Option<string>>)
    requires LaidOut(s.parts, names) && |names| <= PartsSemantic
    requires forall i :: 0 <= i < |names| ==> names[i].Some?
    ensures FirstAbsentFrom(s.parts, 0) == |names|
  {
    assert forall j :: 0 <= j < |names| ==> s.parts[j].Some?;
    assert s.parts[|names|].None?;
  }

  /**
   * new ProviderId(semanticName, providerId): validates the semantic name as
   * ServiceId does, keeps the provider string, and writes hash(providerId)
   * into the provider slot of the hashed parts. The hash function is not part
   * of this model and is a parameter.
   */
  method NewProviderId(semanticName: seq<Option<string>>, providerId: string, hash: string -> string)
    returns (r: Result<ProviderId>)
    ensures |semanticName| > PartsSemantic ==>
              r == Err(IllegalArgument("Semantic name has too many parts"))
    ensures |semanticName| == 0 ==>
              r == Err(IllegalArgument("Semantic name has too few parts"))
    ensures 1 <= |semanticName| <= PartsSemantic ==>
              r.Ok? && LaidOut(r.value.svc.parts, semanticName) &&
              r.value.svc.hashedParts[PartsSemantic] == Some(hash(providerId)) &&
              ProviderIdProviderPart(r.value) == providerId &&
              ServiceIdProviderPart(r.value.svc) == None
  {
    var base := NewServiceId(semanticName);
    if base.Err? {
      return Err(base.error);
    }
    var s := base.value;
    var hashed := new Option<string>[PartsAll](i requires 0 <= i < PartsAll => s.hashedParts[i]);
    hashed[PartsSemantic] := Some(hash(providerId));
    return Ok(ProviderId(ServiceId(s.parts, hashed[..]), providerId));
  }

  /** getProviderPart as ProviderId overrides it: the provider string, not the slot. */
  function ProviderIdProviderPart(p: ProviderId): (r: string)
    ensures r == p.providerPart
    ensures forall names :: LaidOut(p.svc.parts, names) && |names| <= PartsSemantic ==>
              ServiceIdProviderPart(p.svc) != Some(r)
  {
    p.providerPart
  }

  /** new Service(providerId, qosList): keeps the list itself. */
  function ServiceWithQosList(providerId: ProviderId, qosList: Option<seq<string>>): (s: Service)
    ensures s.providerId == providerId && s.qos == qosList
  {
    Service(providerId, qosList)
  }

  /** new Service(providerId, qos): a one-element QoS list. */
  function ServiceWithQos(providerId: ProviderId, qos: string): (s: Service)
    ensures s.providerId == providerId && s.qos == Some([qos])
  {
    Service(providerId, Some([qos]))
  }

  /** new Service(providerId): no QoS list (null). */
  function ServiceWithoutQos(providerId: ProviderId): (s: Service)
    ensures s.providerId == providerId && s.qos.None?
  {
    Service(providerId, None)
  }
}
