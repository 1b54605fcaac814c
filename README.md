# Chord4JS semantic ring layer in Dafny

This project models the semantic-identifier ring layer of Chord4JS. Services are named by up to four semantic parts plus a provider. The name maps to a fixed-width ring identifier. Each node stores the services it is responsible for and replicates them to its successors. Retrieval walks forward along the ring, collecting services that satisfy the QoS constraints.

Modules, one file each:

- `Failures` (Failures.dfy): `Option` stands for a reference that may be null. `Result` and `Outcome` stand for a return value or a thrown exception.
- `Identifier` (Identifier.dfy): ring identifiers (ID.java).
  - An identifier is a big-endian `seq<bool>` of 42 bits: 6 bits × 4 semantic parts plus 18 provider bits.
  - Covered: lexicographic comparison and `equals`, `addPowerOfTwo` as ripple carry on an array copy, the open interval test `isInInterval` and its inclusive variant, and `toHexString` over `BitSet.toByteArray`.
  - Also covered: the identifier span `IdSpan` with `contains` and `subsetMin`.
  - Everything is stated through the value function `Value`.
- `Descriptors` (Descriptors.dfy): `ServiceId`, `ProviderId` and `Service`. This covers constructor validation, the five-slot `parts` layout, `partsGivenCount` and the two `getProviderPart`s.
- `ServiceIdentifiers` (ServiceIdentifier.dfy): the string-keyed descriptor, its setters and `getHashedIdentifier`.
- `Messages` (Messages.dfy): the immutable query `C4SMsgRetrieve` and its `Subset`. Also the accumulator class `C4SRetrieveResponse`, whose services and hop count are updated in place.
- `EntryStore` (EntryStore.dfy): class `Entries`, a `map` from provider identity to service.
  - The batch updates are loops over sets.
  - The interval scan is proved equal to a set comprehension.
  - The query is shown in two forms, as written and as intended (see Findings).
- `Node` (Node.dfy): class `NodeImpl`.
  - It holds the routing state it reads (predecessor, successor list, immediate successor), the entry store, and an outbox of the calls it issues to other nodes.
  - The answers that remote nodes give to retrievals are parameters.

Some functions of the source have no implementation in the repository: the reduction `new ID(ProviderId)`, the span `ID.ServiceId`, `hash` and SHA-1. These are function-valued parameters (`idOf`, `spanOf`, `hash`, `sha1Hex`). SHA-1 is constrained to return 40 characters.

The source's `IdSpan` (ID.java:108-114) shows only its two bounds; its `empty`, `contains` and `subsetMin` are not shown. The model chooses:
- membership is inclusive at both ends and wraps through the maximum when the start lies above the end;
- narrowing to a contained new minimum gives `[newMin, end]`;
- narrowing to a new minimum outside the span gives the empty span.

Two behaviours of the code are kept as written:
- A retrieval answered entirely by one node reports two hops. The response starts at one hop, which its class comment (C4SRetrieveResponse.java:21-30) relies on for counting hops, and `retrieveEntries` increments it once more.
- The stop test of `Entries.getEntries` returns at most one service, and `retrieveEntries` uses that query. See Findings.

## Model

| member | source | states |
|---|---|---|
| Identifier.CompareIsNumericOrder | src/main/java/de/uniba/wiai/lspi/chord/data/ID.java:258-263 | the bit-by-bit comparison from index 0 answers -1, 0 or +1; it is negative, positive or zero exactly when the first identifier's number is smaller, larger or the same identifier |
| Identifier.CompareTo | src/main/java/de/uniba/wiai/lspi/chord/data/ID.java:248-264 | different lengths throw ClassCastException; otherwise the loop's answer is in {-1,0,1} and orders the two numbers, 0 exactly for equal identifiers |
| Identifier.Equals | src/main/java/de/uniba/wiai/lspi/chord/data/ID.java:228-238 | equality through compareTo holds exactly for identical identifiers |
| Identifier.ExtremeValues | src/main/java/de/uniba/wiai/lspi/chord/data/ID.java:83-87 | idMin denotes 0 and the documented all-one idMax denotes 2^42-1, the value of no identifier exceeding it; the idMax the initialiser builds denotes 0 |
| Identifier.AddPowerOfTwo | src/main/java/de/uniba/wiai/lspi/chord/data/ID.java:201-220 | a power outside [0, length-1] throws IllegalArgumentException; otherwise the copy with carried bit flips denotes (value + 2^p) mod 2^length |
| Identifier.RippleCarry | src/main/java/de/uniba/wiai/lspi/chord/data/ID.java:211-217 | the flip loop over the copy, from bit weight 2^p upwards until a flip yields a one, leaves the copy denoting (old value + 2^p) mod 2^length |
| Identifier.CarryStep | src/main/java/de/uniba/wiai/lspi/chord/data/ID.java:212-216 | one flip at weight 2^i: a zero turns to one and adds 2^i, ending the loop; a one turns to zero and carries 2^(i+1) onward |
| Identifier.CarryOutcome | src/main/java/de/uniba/wiai/lspi/chord/data/ID.java:211-219 | whether the carry stops inside the identifier or runs off the top bit, the result is the sum modulo 2^length |
| Identifier.IsInInterval | src/main/java/de/uniba/wiai/lspi/chord/data/ID.java:284-309 | neither bound is ever a member of the open interval |
| Identifier.IsInIntervalInclusive | src/main/java/de/uniba/wiai/lspi/chord/data/ID.java:311-314 | the inclusive interval contains the open one and both bounds |
| Identifier.IntervalTestValues | src/main/java/de/uniba/wiai/lspi/chord/data/ID.java:284-309 | for any choice of greatest identifier, the three branches mean: all but the bound; strictly between; (from, max] or [0, to) |
| Identifier.IsInIntervalValues | src/main/java/de/uniba/wiai/lspi/chord/data/ID.java:284-309 | with the all-one maximum: from == to gives every identifier but from; from < to gives from < x < to; otherwise x > from or x < to |
| Identifier.BoundsExcluded | src/main/java/de/uniba/wiai/lspi/chord/data/ID.java:284-309 | neither bound is ever inside the open interval |
| Identifier.IsInIntervalInclusiveValues | src/main/java/de/uniba/wiai/lspi/chord/data/ID.java:311-314 | the inclusive test is the whole ring when the bounds coincide, otherwise [from, to], wrapping through the maximum when from > to |
| Identifier.WrapAsWrittenKeepsOnlyLowerPiece | src/main/java/de/uniba/wiai/lspi/chord/data/ID.java:298-308 | with the all-zero idMax the source builds, a wrapping interval contains exactly the identifiers below `to`: the piece (from, max] is lost |
| Identifier.UpperPieceLostAsWritten | src/main/java/de/uniba/wiai/lspi/chord/data/ID.java:298-308 | for every x above from in a wrapping interval (to < from < x), the documented test accepts x and the test with the source's idMax rejects it |
| Identifier.TrueMaxTestValues | src/main/java/de/uniba/wiai/lspi/chord/data/ID.java:284-309 | over any greatest identifier denoting 2^length - 1, the wrapping branch accepts exactly x > from or x < to |
| Identifier.MaxIdInWrappedIntervalAsWritten | src/main/java/de/uniba/wiai/lspi/chord/data/ID.java:83-87 | the greatest identifier is outside (1, 0) with the source's idMax and inside it with the documented one |
| Identifier.LogicalLength | src/main/java/de/uniba/wiai/lspi/chord/data/ID.java:187-189 | BitSet.length(): one past the highest set bit; every bit from there on is clear |
| Identifier.Chunks | src/main/java/de/uniba/wiai/lspi/chord/data/ID.java:152 | toByteArray's bytes are below 256, there is none exactly when there are no bits, and there are never more bytes than bits |
| Identifier.ChunksLayout | src/main/java/de/uniba/wiai/lspi/chord/data/ID.java:152 | grouping n bits gives ceil(n/8) bytes, byte k being the little-endian value of bits 8k up to min(8k+8, n) |
| Identifier.ByteArrayLayout | src/main/java/de/uniba/wiai/lspi/chord/data/ID.java:152 | toByteArray of an identifier has ceil(length()/8) bytes, byte k being the value of the identifier's bits 8k up to 8k+8, cut at length(), with bit 8k lowest |
| Identifier.HexByteRoundTrip | src/main/java/de/uniba/wiai/lspi/chord/data/ID.java:158-163 | a byte's two-digit upper-case block reads back as that byte |
| Identifier.HexBlocksLayout | src/main/java/de/uniba/wiai/lspi/chord/data/ID.java:155-167 | the rendering is three characters per byte, and characters 3i..3i+2 are byte i's two digits and a space |
| Identifier.ToHexString | src/main/java/de/uniba/wiai/lspi/chord/data/ID.java:149-168 | the loop renders the first max(1, min(n, bytes)) bytes of toByteArray, each zero-padded to two digits; for an identifier with no byte it throws IndexOutOfBounds |
| Identifier.ZeroIdHasNoBytes | src/main/java/de/uniba/wiai/lspi/chord/data/ID.java:152 | toByteArray is empty exactly for the identifier denoting 0 |
| Identifier.ToHexStringAll | src/main/java/de/uniba/wiai/lspi/chord/data/ID.java:176-178 | toHexString() throws IndexOutOfBounds exactly for the zero identifier; otherwise the text is every byte of toByteArray in order, each as two upper-case digits and a space, three characters per byte |
| Identifier.Contains | src/main/java/de/uniba/wiai/lspi/chord/data/ID.java:108-114 | membership of a non-empty span, in values: start ≤ x ≤ end, or, when the start lies above the end, x ≥ start or x ≤ end; nothing is in the empty span |
| Identifier.SubsetMin | src/main/java/de/uniba/wiai/lspi/chord/service/C4SMsgRetrieve.java:32-34 | the narrowed span keeps the end, contains newMin exactly when the original did, and is empty when newMin was outside |
| Identifier.SpanEndsContained | src/main/java/de/uniba/wiai/lspi/chord/data/ID.java:108-114 | both bounds of a non-empty span are inside it |
| Identifier.SubsetMinNarrows | src/main/java/de/uniba/wiai/lspi/chord/service/C4SMsgRetrieve.java:33 | the narrowed span lies inside the original, keeps its end, and contains the new minimum when the original did |
| Descriptors.NewServiceId | src/main/java/com/chord4js/ServiceId.java:34-45 | more than four or zero parts throw IllegalArgumentException with the source's messages; otherwise slots [0, n) hold the names in order and the other slots are null, so getProviderPart is null |
| Descriptors.ServiceIdProviderPart | src/main/java/com/chord4js/ServiceId.java:52-54 | null for every name the constructor lays out, which fills only semantic slots |
| Descriptors.FirstAbsentFrom | src/main/java/com/chord4js/ServiceId.java:56-62 | the scan's answer is the index of the first null slot (every earlier slot is set), or the length when none is null |
| Descriptors.PartsGivenCount | src/main/java/com/chord4js/ServiceId.java:56-62 | the loop returns the first null slot's index, or 5: at most 5, all earlier slots set, the slot at the answer null |
| Descriptors.PartsGivenCountOfNames | src/main/java/com/chord4js/ServiceId.java:56-62 | a name built from n non-null parts counts n given parts |
| Descriptors.NewProviderId | src/main/java/com/chord4js/ProviderId.java:11-17 | validates the name exactly as ServiceId; the hashed provider slot holds hash(providerId); the override returns the provider string while the inherited slot 4 stays null |
| Descriptors.ProviderIdProviderPart | src/main/java/com/chord4js/ProviderId.java:24-26 | the override answers the provider string stored at construction (NewProviderId proves it is the providerId argument), not the inherited slot, which is null for every laid-out name |
| Descriptors.ServiceWithQosList | src/main/java/com/chord4js/Service.java:25-29 | keeps the provider identity and the given list (possibly null) itself |
| Descriptors.ServiceWithQos | src/main/java/com/chord4js/Service.java:37-43 | keeps the provider identity; the QoS list has exactly the one given value |
| Descriptors.ServiceWithoutQos | src/main/java/com/chord4js/Service.java:50-53 | keeps the provider identity; the QoS list is null |
| ServiceIdentifiers.ConcatHashesLayout | src/main/java/com/chord4js/ServiceIdentifier.java:70-73 | the layer digests form 40-character blocks, block k being the digest of layer k |
| ServiceIdentifiers.HashedIdentifierLayout | src/main/java/com/chord4js/ServiceIdentifier.java:58-77 | fails exactly without layers (ServiceException) or provider (NullPointerException); otherwise 40·(layers+1) characters, starting with the first layer's digest, block k the digest of layer k, ending with the provider's digest |
| ServiceIdentifiers.ServiceIdentifier.GetHashedIdentifier | src/main/java/com/chord4js/ServiceIdentifier.java:58-77 | a null layer list throws NullPointerException; otherwise the builder loop yields the hashed identifier of the current layers and provider, independent of the QoS list |
| ServiceIdentifiers.ServiceIdentifier.constructor | src/main/java/com/chord4js/ServiceIdentifier.java:25-27 | an empty layer list, no QoS, a null provider |
| ServiceIdentifiers.ServiceIdentifier.AddQos | src/main/java/com/chord4js/ServiceIdentifier.java:29-31 | appends to the QoS list and leaves layers and provider, hence the hashed identifier, unchanged |
| ServiceIdentifiers.ServiceIdentifier.SetLayers | src/main/java/com/chord4js/ServiceIdentifier.java:33-35 | stores the list as given, null included, with no size check; nothing else changes |
| ServiceIdentifiers.ServiceIdentifier.SetProvider | src/main/java/com/chord4js/ServiceIdentifier.java:37-39 | stores the provider as given, null included; nothing else changes |
| Messages.NewMsgRetrieve | src/main/java/de/uniba/wiai/lspi/chord/service/C4SMsgRetrieve.java:18-23 | name, constraints and amount as given; the span is the name's span |
| Messages.Subset | src/main/java/de/uniba/wiai/lspi/chord/service/C4SMsgRetrieve.java:32-34 | a new message with the same name and constraints, the new amount and the span narrowed at newMin |
| Messages.SubsetStaysInSpan | src/main/java/de/uniba/wiai/lspi/chord/service/C4SMsgRetrieve.java:32-34 | a sub-query never covers an identifier outside the original span, keeps the end, starts at newMin when newMin was inside, and is empty otherwise |
| Messages.RetrieveResponse.constructor | src/main/java/de/uniba/wiai/lspi/chord/service/C4SRetrieveResponse.java:30-34 | a new response holds the given services and one hop |
| Messages.RetrieveResponse.Size | src/main/java/de/uniba/wiai/lspi/chord/service/C4SRetrieveResponse.java:61-63 | zero exactly when the response holds no service |
| Messages.RetrieveResponse.IncrementHop | src/main/java/de/uniba/wiai/lspi/chord/service/C4SRetrieveResponse.java:36 | exactly one more hop; services untouched |
| Messages.RetrieveResponse.IncrementHopBy | src/main/java/de/uniba/wiai/lspi/chord/service/C4SRetrieveResponse.java:37 | exactly x more hops; services untouched |
| Messages.RetrieveResponse.AddResponse | src/main/java/de/uniba/wiai/lspi/chord/service/C4SRetrieveResponse.java:49-52 | services become the union with the other response's, hops the sum; the size does not shrink |
| Messages.RetrieveResponse.AddServices | src/main/java/de/uniba/wiai/lspi/chord/service/C4SRetrieveResponse.java:54 | services become the union with the set; hops unchanged; the size does not shrink |
| Messages.UnionNeverShrinks | src/main/java/de/uniba/wiai/lspi/chord/service/C4SRetrieveResponse.java:61-63 | size() of a union is at least the size of either part, so no add lowers it |
| EntryStore.InScanValues | src/main/java/de/uniba/wiai/lspi/chord/service/impl/Entries.java:229-236 | the scan test (in the open interval or equal to `to`) is the ring interval (from, to], the whole ring when from == to |
| EntryStore.ScanMembership | src/main/java/de/uniba/wiai/lspi/chord/service/impl/Entries.java:217-240 | in a store keyed by provider, a service is scanned exactly when its identifier passes the test; `to` is always included, `from` excluded unless from == to |
| EntryStore.ScanProviders | src/main/java/de/uniba/wiai/lspi/chord/service/impl/Entries.java:229-236 | the providers of the scanned services are exactly the scanned keys |
| EntryStore.CollectAsWritten | src/main/java/de/uniba/wiai/lspi/chord/service/impl/Entries.java:191-196 | the accumulation loop keeps only satisfying services; for a positive amount it keeps at most one, and none only when none satisfies |
| EntryStore.CollectUpTo | src/main/java/de/uniba/wiai/lspi/chord/service/impl/Entries.java:191-196 | the intended loop keeps satisfying services, min(amount, number satisfying) of them |
| EntryStore.AddedAllDistinct | src/main/java/de/uniba/wiai/lspi/chord/service/impl/Entries.java:98-110 | when no two added services share a provider, addAll files each under its provider and leaves every other key as it was, whatever the iteration order |
| EntryStore.Entries.constructor | src/main/java/de/uniba/wiai/lspi/chord/service/impl/Entries.java:85-88 | an empty repository |
| EntryStore.Entries.Add | src/main/java/de/uniba/wiai/lspi/chord/service/impl/Entries.java:126-142 | null throws NullPointerException and changes nothing; otherwise the service replaces whatever its provider key held, other keys unchanged |
| EntryStore.Entries.AddAll | src/main/java/de/uniba/wiai/lspi/chord/service/impl/Entries.java:98-116 | a null set throws; otherwise the keys grow by exactly the set's providers, each of those keys holds a service of the set and every other key is unchanged |
| EntryStore.Entries.Remove | src/main/java/de/uniba/wiai/lspi/chord/service/impl/Entries.java:152-167 | null throws; otherwise the key is absent afterwards and nothing else changes (an absent key is a no-op) |
| EntryStore.Entries.RemoveAll | src/main/java/de/uniba/wiai/lspi/chord/service/impl/Entries.java:250-267 | a null set throws; otherwise exactly the given keys are removed |
| EntryStore.Entries.GetEntriesInInterval | src/main/java/de/uniba/wiai/lspi/chord/service/impl/Entries.java:217-240 | the loop over the keys returns exactly the stored services whose identifier is in (from, to) or equals to; the store is unchanged |
| EntryStore.Entries.GetEntriesAsWritten | src/main/java/de/uniba/wiai/lspi/chord/service/impl/Entries.java:180-200 | nothing for a non-positive amount; otherwise scanned services that satisfy the constraints, at most one whatever the amount, none only when none matches |
| EntryStore.Entries.GetEntries | src/main/java/de/uniba/wiai/lspi/chord/service/impl/Entries.java:180-200 | nothing for a non-positive amount; otherwise min(amount, matches) scanned services that satisfy the constraints |
| EntryStore.Entries.GetNumberOfStoredEntries | src/main/java/de/uniba/wiai/lspi/chord/service/impl/Entries.java:283-285 | the number of distinct keys |
| Node.InsertReplicaCallsShape | src/main/java/de/uniba/wiai/lspi/chord/service/impl/NodeImpl.java:264-274 | one insertReplicas call per successor, the i-th to the i-th successor |
| Node.RemoveReplicaCallsShape | src/main/java/de/uniba/wiai/lspi/chord/service/impl/NodeImpl.java:319-330 | one removeReplicas call per successor, the i-th to the i-th successor |
| Node.NodeImpl.constructor | src/main/java/de/uniba/wiai/lspi/chord/service/impl/NodeImpl.java:130-135 | keeps the ID, URL, routing state and repository; nothing issued yet |
| Node.NodeImpl.Create | src/main/java/de/uniba/wiai/lspi/chord/service/impl/NodeImpl.java:119-126 | any null argument throws IllegalArgumentException with the source's message; otherwise a new node over the given parts |
| Node.NodeImpl.Notify | src/main/java/de/uniba/wiai/lspi/chord/service/impl/NodeImpl.java:171-197 | returns the predecessor, or the candidate without one, followed by the successors in order; then the candidate is offered as predecessor |
| Node.NodeImpl.NotifyAndCopyEntries | src/main/java/de/uniba/wiai/lspi/chord/service/impl/NodeImpl.java:203-222 | the stored services in (this node, candidate], with notify's list and effect |
| Node.NodeImpl.InsertEntry | src/main/java/de/uniba/wiai/lspi/chord/service/impl/NodeImpl.java:237-275 | no predecessor: NullPointerException, nothing stored; identifier outside (pred, self): forwarded to pred, store unchanged; inside: stored, and one insertReplicas({entry}) per successor |
| Node.NodeImpl.InsertEntryCorrected | src/main/java/de/uniba/wiai/lspi/chord/service/impl/NodeImpl.java:237-275 | guarded as removeEntry is: forwarded only when a predecessor is known and the identifier is outside (pred, self); otherwise, also without a predecessor, stored with one insertReplicas({entry}) per successor |
| Node.NodeImpl.StoreAndReplicate | src/main/java/de/uniba/wiai/lspi/chord/service/impl/NodeImpl.java:254-274 | the entry is put under its provider key and one insertReplicas({entry}) call goes to each successor in order |
| Node.NodeImpl.InsertReplicas | src/main/java/de/uniba/wiai/lspi/chord/service/impl/NodeImpl.java:281-283 | adds every given service unconditionally, as addAll; a null set throws |
| Node.NodeImpl.RemoveEntry | src/main/java/de/uniba/wiai/lspi/chord/service/impl/NodeImpl.java:289-331 | predecessor known and identifier outside (pred, self): forwarded, store unchanged; otherwise removed here and one removeReplicas(self, {key}) per successor |
| Node.NodeImpl.RemoveProvidersOf | src/main/java/de/uniba/wiai/lspi/chord/service/impl/NodeImpl.java:360-361 | removing each service's provider key removes exactly the providers of the set |
| Node.NodeImpl.RemoveReplicas | src/main/java/de/uniba/wiai/lspi/chord/service/impl/NodeImpl.java:337-372 | null throws; an empty set removes exactly the stored keys in (self, sender]; a non-empty set removes exactly its keys |
| Node.NodeImpl.RetrieveEntries | src/main/java/de/uniba/wiai/lspi/chord/service/impl/NodeImpl.java:378-430 | see the paragraph below the table |
| Node.NodeImpl.RetrieveHere | src/main/java/de/uniba/wiai/lspi/chord/service/impl/NodeImpl.java:410-429 | the locally answered part with getEntries as written: at most one local match, none only when nothing matches; then as AnswerWith, so with two or more requested and the successor in the span the successor is always asked |
| Node.NodeImpl.RetrieveHereCorrected | src/main/java/de/uniba/wiai/lspi/chord/service/impl/NodeImpl.java:410-429 | the same part with the corrected query: min(amount, matches) local matches; then as AnswerWith, so the successor is asked only for a real shortfall |
| Node.NodeImpl.AnswerWith | src/main/java/de/uniba/wiai/lspi/chord/service/impl/NodeImpl.java:410-429 | from the local matches: two hops; when fewer than requested were found, a successor is known and the span contains it, the narrowed query for the shortfall goes to the successor and its services and hops plus one more hop are added; otherwise nothing is sent |

`Node.NodeImpl.RetrieveEntries` covers these cases:
- A non-positive amount or an empty span gives a new empty response with one hop.
- A stale predecessor gives the predecessor's answer itself.
- Otherwise the local query is getEntries as written: at most one local match, and none only when nothing matches. The response holds it with two hops.
- When results are still missing, a successor is known and the span contains it, the response also takes in the successor's answer to `Subset(msg, succ, amount - local)`. Its hops are then the successor's hops plus three.

## Left out

- Concurrency is not modelled: the executor that runs replica calls in the background, `notifyLock`, and the `synchronized` blocks. The outbox records the intended calls in issue order. A failing replica call is swallowed in the source; the model has no failures of remote calls.
- Remote calls are not executed. Forwards to the predecessor and replica calls are outbox records. The answers of remote retrievals are parameters, so no call recurses across nodes.
- `ping`, `disconnect`, `acceptEntries`, `findSuccessor`, `leavesNetwork`, `crash` and `getAsyncExecutor` only delegate to the endpoint, `ChordImpl` or the routing table, none of which is part of this model.
- Node.NodeImpl.Notify: the routing table's `addReferenceAsPredecessor` also updates the successor list and finger table. Here only its effect on the predecessor is modelled, as the parameter `adopt`.
- Identifier.CompareTo: the compared length is the width of the bit string. The source compares `BitSet.length()`, the index after the highest set bit, so in the source identifiers with different highest set bits also throw ClassCastException. The model keeps identifiers at their fixed 42-bit width.
- Identifier.AddPowerOfTwo: the range check and the carry use the fixed width. The source checks against `BitSet.length()`, one past the index of the highest set bit, so there only powers above that index are rejected.
- Identifier.Equals: `equals` on null or on a non-ID object returns false in the source. The model compares identifiers only.
- The provider width is computed with floating-point `log2` in the source. It is fixed at 18.
- `new ID(ProviderId)`, `ID.ServiceId`, `ID.NodeId`, `hash` and SHA-1 are not implemented in the repository (or are foreign). They are parameters.
- `ServiceId.getHashedParts` is not part of the shown `ServiceId`. Descriptors.NewServiceId gives the hashed slots as null.
- IdSpan `empty`, `contains` and `subsetMin` are not part of the shown `IdSpan`. The model's choice for them is stated at the top of this file.
- Descriptors.NewServiceId: the loop's `assert(semanticName[i] == null)` is not modelled. Java assertions are off by default; with them on, every non-null name part would fail.
- Null arguments are modelled only where the source checks or dereferences them in the modelled code: the sets and services of `Entries`, the constructor arguments, the predecessor in `insertEntry`, and the layer list and provider in `getHashedIdentifier`. A null message, candidate, service or identifier passed to the other handlers is not modelled.
- EntryStore.Entries: the store is keyed by value equality of the whole provider identity. In the source `ProviderId` and `ServiceId` are neither `Comparable` nor given a comparator, so the `TreeMap` at Entries.java:86-87 would throw ClassCastException on its first `put` or `remove`. The model does not capture that failure.
- Messages.RetrieveResponse: services are a `set<Service>` deduplicated by value. `Service` has no `equals` or `hashCode`, so the source's `HashSet`s (Entries.java:189 and 226, and the response's set) deduplicate by reference. `size()` can therefore be smaller in the model when two nodes return equal but distinct services.
- ServiceIdentifiers.ServiceIdentifier.GetHashedIdentifier: a null element inside the layer list is not modelled; the elements are strings.
- Aliasing is not modelled. `Service` keeps the caller's QoS list, and a response keeps the caller's set; later changes made through the caller's reference are not reflected.
- `Entries.getEntries()` (the unmodifiable map view), `ServiceIdentifier.getBytes` and `getProvider`, `hashCode`, the `toString`s and logging are not modelled.
- Java `int` arithmetic is unbounded here: the hop count and `amount - size` cannot overflow.

## Findings

| source | as written | input that shows it | evidently intended | confidence | as-written member | corrected member |
|---|---|---|---|---|---|---|
| src/main/java/de/uniba/wiai/lspi/chord/data/ID.java:83-87 | `idMax.id.set(0, idMax.id.length())` on a fresh BitSet, whose logical length is 0, sets no bit, so idMax is all zero. In the Java, the wrapping branch then calls `fromID.equals(idMax)`, whose compareTo finds different `length()`s (ID.java:250-255: from has a set bit, idMax none) and throws ClassCastException. In the fixed-width reading of this model the branch instead loses the piece (from, max] | the greatest identifier in the interval (1, 0): as written (fixed width) not inside | idMax is the all-one identifier (its declaration says so), so (from, max] belongs to a wrapping interval | not executed | Identifier.MaxIdInWrappedIntervalAsWritten | Identifier.IsInIntervalValues |
| src/main/java/de/uniba/wiai/lspi/chord/service/impl/Entries.java:195 | the loop stops when `amount >= svcs.size()`, which holds after the first accepted service whenever amount is positive | amount 2 with two stored services in the span satisfying the constraints: one is returned | stop once `svcs.size() >= amount`, returning min(amount, matches) services | not executed | EntryStore.Entries.GetEntriesAsWritten | EntryStore.Entries.GetEntries |
| src/main/java/de/uniba/wiai/lspi/chord/service/impl/NodeImpl.java:246-250 | the guard `predecessor == null || !inInterval` forwards when the predecessor is null or the identifier is outside (pred, self); with no predecessor the forward dereferences null | a node with no predecessor inserting any entry: NullPointerException, nothing stored | guarded as removeEntry (NodeImpl.java:299-302): forward only when a predecessor is known, otherwise store locally | not executed | Node.NodeImpl.InsertEntry | Node.NodeImpl.InsertEntryCorrected |

`IsInInterval` uses the all-one maximum throughout. `Node.NodeImpl.RetrieveEntries` and `Node.NodeImpl.InsertEntry` follow the code as written. `Node.NodeImpl.RetrieveHereCorrected` and `Node.NodeImpl.InsertEntryCorrected` give their evidently intended forms.
