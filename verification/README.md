# Verified model of the DPDK traffic filter

A Dafny model of a traffic filter and of what is proved about it. A worker forwards packets between network ports and
decides for each whether it may pass; decisions are cached and the caches are kept in a database. A controller holds a
versioned configuration, merges it per worker, ships the resulting policies and classifies targets through outside
providers.

The model has one module per file:

- `Bytes`, `Options`: octets, C strings, integer ranges, optional values.
- `DnsName`: the two-pass DNS name decoder, and which names it cannot tell apart.
- `PolicyMerge`, `PolicyBuilder`, `PolicyArrays`, `Filter`: from configuration rules to a merged policy, with the slices
  and maps it is built from, to fixed-size zero-terminated arrays, to scans.
- `ListScan`, `PolicyMeaning`, `Strictness`: when a scan is membership, that the scans decide what the rules say, and when
  a filter section makes a worker stricter.
- `Expiry`, `NodeCache`, `CacheKeys`, `CachePersistence`: the decision caches, their heap, expiry modulo 2^64, and saving
  and loading.
- `Restarts`: the domain cache from one start of the worker to the next.
- `Forwarding`, `Pipeline`: buffers, ports and counters; the packet loop.
- `PacketMeaning`, `LoopMeaning`: what the packet loop does with one packet, and over whole runs, said by the rules of the
  configuration.
- `WorkerSystem`: packet loop and policy threads interleaved at their atomic regions.
- `PolicyProtocol`, `Controller`: policy distribution among any number of workers, and the controller's manager with the
  filtering switches.
- `ProviderIndex`: the classifier's inverted provider index.
- `Metrics`: the packet counters and their flush.

State that the program changes in place is a class (`CacheObject`, `PacketLoop`, `PolicyStore`, `PolicyManager`, `Manager`,
`Counters`), an array or a slice of one; its methods are proved against functions on values, and the theorems are about those functions.
Threads and network messages are transition systems whose theorems range over all finite runs.

Outside influences are parameters: timer readings, outcomes of allocation, table insertion and deletion, transmission,
TOML and address parsing, iteration orders of maps and tables, the classifier's answers, provider answers, and what the
DPDK driver hands over.

Where code and documentation disagree the model follows the code. `admin/README.md` line 28 says that allow lists have
priority; the code tests block lists first, and so does the model.

Properties that look natural but fail, each with a concrete witness and the condition under which it holds:

- A decoded DNS name need not fit its field (`DnsName.OversizedNameIsAccepted`); it fits exactly when its labels span at
  most 260 octets (`DnsName.FitsExactly`), which names within RFC 1035 do (`DnsName.RfcNameFits`).
- Different names can be decoded to the same string (`DnsName.DotInLabelCollides`, `DnsName.ZeroInLabelCollides`);
  `DnsName.SameStringExactly` says which.
- A list scan is not membership (`ListScan.EmptyItemHides`, `ListScan.ZeroAddressHides`, `ListScan.LoopbackHides`); for
  each kind of list the exact condition on the configured items is `ListScan.DomainScanExactly`,
  `ListScan.Ip4ScanExactly` and `ListScan.Ip6ScanExactly`.
- A section that only blocks more can make the policy laxer by filling an array (`Strictness.FullArrayIsLaxer`); exactly
  when is `Strictness.OnlyBlocksStricterExactly`.
- A remembered decision need not be found again (`CacheKeys.ZeroOctetIsLost`); `PacketMeaning.MissIsRemembered` and
  `CacheKeys.DecodedKeyExactly` say when it is.
- Loading a policy need not stay inside the arrays; it does exactly when the lists fit (`PolicyArrays.PolicyStore.Load`).
- After a timer restart an entry stamped close to 2^64 may hit (`Expiry.LateTimestampMayHit`); the exact condition is
  `Expiry.ExpiryExact`.
- With overlapping requests a worker's version can go back (`PolicyProtocol.OverlapGoesBack`); without overlap it cannot
  (`PolicyProtocol.VersionsNeverGoBack`).

## Model

| member | source | states |
|---|---|---|
| `WorkerSystem.StaleEntriesAreOfOneIteration` | worker/src/worker.cpp:434-446 | In every interleaving of the packet loop with policy threads, a table entry decided under a policy other than the current one was added by the one iteration in progress when the current policy was written; an entry from the database means no policy was applied yet |
| `WorkerSystem.HeapIsSafeInEveryRun` | worker/src/dpdk_filter/proc_packets.c:156-160 | In every interleaving both heaps satisfy `Ok` (entries live and distinct, nothing freed twice, allocated = freed + in table + abandoned), and the node the loop uses after unlocking is live even if a clear came in between |
| `WorkerSystem.StalenessIsBounded` | worker/src/dpdk_filter/proc_packets.c:231-235 | In every interleaving the verdict of a hit is the filter's verdict under the policy its node was decided with, which is the current one unless the node's iteration or the present iteration was interrupted by an update |
| `WorkerSystem.CachedLoopEqualsUncached` | worker/src/dpdk_filter/proc_packets.c:123-275 | With updates between iterations, caches filled only by the loop and a classifier that is a function, the loop with caches gives every packet the verdict, in the order, that a loop without caches gives, for every clock, policy history and failure of allocation, insertion or deletion |
| `WorkerSystem.EmptyStartIsQuiet` | worker/src/worker.cpp:422-436 | Empty caches at the start meet what that equality asks for |
| `WorkerSystem.PacketIsDecide` | worker/src/dpdk_filter/proc_packets.c:144-217 | The atomic steps of one packet with nothing in between are exactly the packet loop's lookup, decision and store |
| `WorkerSystem.NextInv` | worker/src/worker.cpp:185-279 | Every atomic step (snapshot, lookup, use of a hit, decision, store, policy write, the two clears, shutdown) keeps heap order and provenance |
| `WorkerSystem.NextSound` | worker/src/dpdk_filter/domain_cache.c:405-499 | Every atomic step keeps both heaps in order and the held node live |
| `WorkerSystem.NextRight` | worker/src/dpdk_filter/proc_packets.c:179-210 | With a functional classifier every step keeps each cached decision equal to the filter's verdict under the policy it was made with |
| `WorkerSystem.StoredKeyDecides` | worker/src/dpdk_filter/domain_cache.c:443-444 | The copied key spells the same name, so a stored decision answers the same target |
| `WorkerSystem.DefaultsDecideAlike` | worker/src/worker.cpp:437-442 | Replacing the time-to-live values by defaults changes no verdict |
| `LoopMeaning.LoopFollowsConfigurations` | worker/src/dpdk_filter/proc_packets.c:103-276 | End to end: with updates between iterations, empty caches at the start and a classifier that is a function, the packet loop emits exactly the verdicts that the rules of the configurations its policies came from give, packet by packet, with no cache, array or scan in the statement |
| `LoopMeaning.UncachedIsRuled` | worker/src/dpdk_filter/filtr_packets.c:161-193 | The loop without caches decides by the configurations' rules, through every policy update |
| `WorkerSystem.StepRecords` | worker/src/worker.cpp:434-446 | What each step records: policies in the order written, iterations as they begin, the iteration in progress at the last write, and for each stored node the policy of the snapshot and the iteration it was decided in |
| `WorkerSystem.LastWriteInterrupts` | worker/src/worker.cpp:185-279 | In every run the interrupted iteration is the one in progress, if any, at the last policy write |
| `PacketMeaning.FilteredPacket` | worker/src/dpdk_filter/proc_packets.c:123-275 | Filtering on, port other than 22: a failing table drops the packet; an entry of its own key younger than its time to live decides; otherwise the configuration's rules decide. What is sent leaves on the out port, the rest is dropped and freed; only the packet's own cache can change, only on a miss |
| `PacketMeaning.UnfilteredPacket` | worker/src/dpdk_filter/proc_packets.c:115-121 | Filtering off: every packet leaves on the out port, under every policy, and the caches are not touched |
| `PacketMeaning.ExceptionPacket` | worker/src/dpdk_filter/proc_packets.c:137-142 | Filtering on: a packet for port 22 leaves on the exception port and the caches are not touched |
| `PacketMeaning.DecideMeaning` | worker/src/dpdk_filter/proc_packets.c:144-210 | The decision alone: the remembered one, or the rules', or an error |
| `PacketMeaning.VerdictMeaning` | worker/src/dpdk_filter/proc_packets.c:179-186 | For a loaded, well-formed configuration within capacity the filter's verdict on a domain or an address of either kind is the rules' verdict, block first; what cannot be classified is sent |
| `PacketMeaning.MissIsRemembered` | worker/src/dpdk_filter/proc_packets.c:191-210 | A decision made on a miss is found again exactly while the cycles since it was stored, modulo 2^64, are fewer than the configured time to live (ttl_domain for names, ttl_ip for addresses, the section's before the global one, seven days if not positive) times the timer frequency, provided the key is stored under itself |
| `Pipeline.PacketLoop.ProcessBurst` | worker/src/dpdk_filter/proc_packets.c:103-276 | A burst is its packets one after the other; every buffer of the burst is gone and was disposed of exactly once, the received count grew by the burst's size, and all invariants hold |
| `Pipeline.PacketLoop.ProcessPacket` | worker/src/dpdk_filter/proc_packets.c:125-274 | One packet changes caches and ports exactly as `Step` says: unfiltered, to the exception port, by the cache, by the filter, or dropped on a lookup error |
| `Pipeline.PacketLoop.LookupOrDecide` | worker/src/dpdk_filter/proc_packets.c:144-217 | A hit uses the cached decision, a miss decides, disposes of the packet and then stores the decision, a lookup error drops |
| `Pipeline.PacketLoop.ApplyFilter` | worker/src/dpdk_filter/proc_packets.c:179-186 | The verdict of the scans over the policy arrays; a target that cannot be classified is sent |
| `Pipeline.PacketLoop.SendingDecision` | worker/src/dpdk_filter/proc_packets.c:81-91 | Forwards, or records a drop and frees |
| `Pipeline.PacketLoop.ForwardPacket` | worker/src/dpdk_filter/proc_packets.c:35-79 | Learns, rewrites addresses, counts the time to live down or frees, transmits; a failed transmission is recorded as dropped and as passed |
| `Pipeline.PacketLoop.LearnNeighborMac` | worker/src/dpdk_filter/proc_packets.c:17-33 | Learns the first source address that is neither the port's nor the counterpart's |
| `Pipeline.PacketLoop.ForwardToOut` | worker/src/worker.cpp:141-151 | Relaying a burst is the run of its forwards; exactly those buffers are gone, everything is sent on the outgoing port and nothing is counted as received |
| `Pipeline.StepOk` | worker/src/dpdk_filter/proc_packets.c:123-275 | One packet keeps heap and port invariants and disposes of its buffer exactly once, for every policy, cache state and transmit outcome |
| `Pipeline.DecideOk` | worker/src/dpdk_filter/proc_packets.c:144-210 | Looking up and storing keeps both caches in order whatever fails |
| `Forwarding.LogsBalance` | worker/src/dpdk_filter/proc_packets.c:53-91 | In every run from the start, the event log summed up against the operations: receptions = disposals + buffers still owned, passed = forwards - expired frames, dropped = filter drops + lookup errors + failed transmissions, each of these counted on its own, received = the packets counted in |
| `Forwarding.DisposeRecords` | worker/src/dpdk_filter/proc_packets.c:53-91 | What a disposal records: a sent frame leaves on the port it was sent to, or expires, or fails to be transmitted; a filtered or failed packet is dropped and freed as such |
| `Forwarding.ForwardCounts` | worker/src/dpdk_filter/proc_packets.c:35-79 | A forward takes its buffer away, transmits at most once, and is recorded as passed unless the frame expired |
| `Forwarding.TtlBoundsTransmissions` | worker/src/dpdk_filter/proc_packets.c:53-64 | In the run where one IPv4 frame comes back again and again, addressed anew each time, it is transmitted at most TTL - 1 times, and exactly that often when nothing fails (section 3.1 of RFC 791) |
| `Forwarding.LogsAreWellAddressed` | worker/src/dpdk_filter/proc_packets.c:43-51 | In every run every transmitted frame carries the out port's address as source and its neighbour's or the broadcast address as destination, and no neighbour equals its port or the port it was learned against |
| `Forwarding.ExecOk` | worker/src/dpdk_filter/proc_packets.c:17-79 | Every run keeps the port invariants and never changes a port's address or a neighbour once learned |
| `Forwarding.DisposeOk` | worker/src/dpdk_filter/proc_packets.c:81-91 | A disposal removes exactly its buffer, accounts for it once and keeps every invariant |
| `Forwarding.LearnOk` | worker/src/dpdk_filter/proc_packets.c:17-33 | Learning never replaces a neighbour and keeps earlier transmissions well addressed |
| `Forwarding.ForwardAddresses` | worker/src/dpdk_filter/proc_packets.c:39-64 | A transmitted frame goes to the out port's neighbour if it has one, to everybody otherwise, with the time to live counted down; the in port has learned the source unless it is one of the two ports' |
| `Forwarding.ForwardSends` | worker/src/dpdk_filter/proc_packets.c:53-78 | What one forward transmits is the addressed, aged frame; an expired or failed one is not transmitted |
| `NodeCache.StoreOk` | worker/src/dpdk_filter/domain_cache.c:435-458 | Adding keeps the heap in order for every failure of node allocation, key allocation and insertion, with or without an older entry under the key |
| `NodeCache.LookupOk` | worker/src/dpdk_filter/domain_cache.c:405-433 | A lookup keeps the heap in order; a hit is a live node stored for the key |
| `NodeCache.LookupExact` | worker/src/dpdk_filter/domain_cache.c:405-433 | A lookup answers the key's entry iff its age modulo 2^64 is below ttl * hz, evicts nothing but the key's own expired entry, and fails iff the table fails |
| `NodeCache.StoreThenLookup` | worker/src/dpdk_filter/ip_cache.c:448-502 | A stored decision is found again exactly until it expires, and no other key is affected |
| `NodeCache.FailedStoreChangesNothing` | worker/src/dpdk_filter/ip_cache.c:478-502 | An add that fails at any step changes no answer |
| `NodeCache.EvictOk` | worker/src/dpdk_filter/domain_cache.c:417-425 | Evicting frees the node and its key block, each for the first time |
| `NodeCache.ClearOk` | worker/src/dpdk_filter/domain_cache.c:491-499 | A reset empties the table and only abandons nodes |
| `NodeCache.FreeAllOk` | worker/src/dpdk_filter/domain_cache.c:460-479 | Freeing every entry in any order leaves exactly the nodes abandoned before |
| `NodeCache.CacheObject.Add` | worker/src/dpdk_filter/domain_cache.c:435-458 | The imperative add equals `Store` |
| `NodeCache.CacheObject.AddNode` | worker/src/dpdk_filter/ip_cache.c:478-502 | What is allocated, entered or freed for each outcome of the key allocation and the insertion |
| `NodeCache.CacheObject.Find` | worker/src/dpdk_filter/ip_cache.c:448-476 | The imperative lookup equals `Lookup` |
| `NodeCache.CacheObject.Release` | worker/src/dpdk_filter/ip_cache.c:460-468 | Taking an entry out frees its key block and its node |
| `NodeCache.CacheObject.Destroy` | worker/src/dpdk_filter/ip_cache.c:504-523 | Every node that was not abandoned, and its key block, has been freed exactly once, in whatever order the table is walked |
| `CacheKeys.PaddedSpells` | worker/src/dpdk_filter/domain_cache.c:443-444 | The stored copy of a key spells the string it was copied from, clipped to the field |
| `CacheKeys.StoredKeyTwice` | worker/src/dpdk_filter/domain_cache.c:28-29 | Copying a stored key again changes nothing |
| `CachePersistence.SaveThenLoad` | worker/src/dpdk_filter/domain_cache.c:297-342 | Saving over an older database and loading later, in any iteration orders, restores for every key what the cache held, or else what the database had, with decision, trust, timestamp and time to live intact, unless expired |
| `CachePersistence.SaveAll` | worker/src/dpdk_filter/domain_cache.c:297-342 | Writes one row per table entry, each once, replacing rows of the same domain |
| `CachePersistence.Snapshot` | worker/src/dpdk_filter/domain_cache.c:274-295 | Lists every key of the table once |
| `CachePersistence.InsertRecords` | worker/src/dpdk_filter/domain_cache.c:181-208 | One insert or replace changes what is recorded for its key and nothing else |
| `CachePersistence.LoadAll` | worker/src/dpdk_filter/domain_cache.c:113-153 | Loads the rows in order, counts outcomes, and loaded + expired + errors is the number of rows |
| `CachePersistence.LoadOne` | worker/src/dpdk_filter/domain_cache.c:73-111 | One row is skipped when expired, otherwise stored or reported as an error |
| `CachePersistence.LoadOkAlways` | worker/src/dpdk_filter/domain_cache.c:88-111 | Loading keeps the heap in order for every pattern of failures |
| `CachePersistence.ReloadedHolds` | worker/src/dpdk_filter/domain_cache.c:83-98 | A fresh cache answers a key exactly with the unexpired row for it |
| `CachePersistence.RowRoundTrip` | worker/src/dpdk_filter/domain_cache.c:195-198 | A row shows the decision as 1 or 0, the trust level, and timestamp and time to live modulo 2^64 and 2^32, and is read back as the decision it was made from |
| `CachePersistence.RowRead` | worker/src/dpdk_filter/domain_cache.c:78-81 | Any row is read as sending unless its decision is 0, with the signed columns taken as unsigned |
| `CachePersistence.OutcomeTells` | worker/src/dpdk_filter/domain_cache.c:73-111 | A row counted as loaded answers for its key from then on; one counted as expired is too old by the exact condition; otherwise the table is as it was |
| `Restarts.RestartRestores` | worker/src/worker.cpp:402-408 | A whole life of the domain cache: started from a valid database, run under any interleaving, saved and loaded again, every key answers what the cache held at the save, or else what the older database had, unless expired; and the database is valid again |
| `Restarts.ExecDomains` | worker/src/dpdk_filter/domain_cache.c:435-458 | In every run of the worker the domain table holds only stored domain keys |
| `Restarts.LoadedDomains` | worker/src/dpdk_filter/domain_cache.c:113-153 | So does every cache loaded from a valid database, whatever fails |
| `Expiry.ExpiryExact` | worker/src/dpdk_filter/domain_cache.c:411-415 | Expiry modulo 2^64: with now >= timestamp an entry expires iff now - timestamp >= ttl * hz, otherwise iff 2^64 - (timestamp - now) >= ttl * hz |
| `Expiry.RestartedTimerExpires` | worker/src/dpdk_filter/ip_cache.c:454-458 | After a timer restart an entry is expired for every time to live, given timestamp < 2^63 and 0 < hz < 2^32 |
| `Expiry.LateTimestampMayHit` | worker/src/dpdk_filter/domain_cache.c:83-86 | The bound on the timestamp is needed: an entry stamped close to 2^64 hits after a restart |
| `DnsName.DecodeName` | worker/src/dpdk_filter/pars_packets.c:83-104 | Accepts exactly when the measuring pass ends at a zero octet after at least one label; writes the dotted name and its terminator in exactly the counted length and nothing else; a rejected name leaves the field alone |
| `DnsName.CopyLabels` | worker/src/dpdk_filter/pars_packets.c:95-104 | The unbounded copying pass terminates at the octet where the measuring pass stopped |
| `DnsName.RoundTrip` | worker/src/dpdk_filter/pars_packets.c:87-104 | Decoding the wire form (sections 3.1 and 4.1.2 of RFC 1035) of every acceptable name gives that name, whatever follows it |
| `DnsName.AcceptedIsWire` | worker/src/dpdk_filter/pars_packets.c:87-92 | Conversely, everything accepted is the wire form of an acceptable name |
| `DnsName.RfcNameFits` | worker/src/dpdk_filter/pars_packets.c:87-104 | Every name within section 2.3.4 of RFC 1035 is decoded and fits the 260-octet field |
| `DnsName.FitsExactly` | worker/src/dpdk_filter/pars_packets.c:87-104 | An accepted name fits the field if and only if its labels span at most 260 octets |
| `DnsName.OversizedNameIsAccepted` | worker/src/dpdk_filter/pars_packets.c:87-92 | The decoder does not enforce that: two labels of 200 octets are accepted and take 402 octets |
| `DnsName.SameDottedExactly` | worker/src/dpdk_filter/pars_packets.c:97-104 | Two names have the same dotted form if and only if they are equal once every label is cut at its dots |
| `DnsName.SameStringExactly` | worker/src/dpdk_filter/pars_packets.c:97-104 | Two decoded names are the same string to filter and cache if and only if, up to their first zero octets, they are equal once every label is cut at its dots |
| `DnsName.DottedInjective` | worker/src/dpdk_filter/pars_packets.c:97-104 | So names whose labels hold no dot and no zero octet spell the same string only if they are equal |
| `DnsName.DotInLabelCollides` | worker/src/dpdk_filter/pars_packets.c:97-104 | With a dot inside a label two different names have the same dotted form |
| `DnsName.ZeroInLabelCollides` | worker/src/dpdk_filter/pars_packets.c:97-104 | With a zero octet inside a label two different names spell the same string |
| `CacheKeys.DecodedField` | worker/src/dpdk_filter/proc_packets.c:127-130 | Decoding into the zeroed description gives a proper domain field that spells the name whenever the name fits, and, for names without zero octets, only then |
| `CacheKeys.StoredUnderItselfExactly` | worker/src/dpdk_filter/domain_cache.c:443-444 | A domain field is stored under itself if and only if only zero octets follow its first zero octet |
| `CacheKeys.DecodedKeyExactly` | worker/src/dpdk_filter/domain_cache.c:405-408 | So a decoded name that fits can be found again if and only if a zero octet in it is followed by nothing else |
| `CacheKeys.ZeroOctetIsLost` | worker/src/dpdk_filter/domain_cache.c:443-444 | A name with a zero octet inside a label is stored under another key |
| `CacheKeys.ReadDomain` | worker/src/dpdk_filter/proc_packets.c:127-130 | Zeroing and decoding leaves an empty field for a rejected name and a proper field spelling an accepted one that fits |
| `DnsName.DottedSize` | worker/src/dpdk_filter/pars_packets.c:97-104 | The dotted form with its terminator is as long as the labels with their length octets |
| `PolicyMerge.PolicySettings` | controller/internal/manager/policy_manager.go:149-171 | For each setting the worker's own section wins if it gives a value, else the global rules, else zero; unknown settings come from the section or else the global rules, only if all are convertible, and only to a worker with a section |
| `PolicyMerge.PolicyLists` | controller/internal/manager/policy_manager.go:84-147 | Every list and the levels hold exactly what the global rules or the worker's own section hold, global items first; a level of the section wins; a worker without a section gets the global rules |
| `PolicyBuilder.PolicyManager.GetWorkerPolicy` | controller/internal/manager/policy_manager.go:45-174 | The policy is the merge of the global rules with the worker's section under the current version; every slice and map in it is new, so it shares none with the stored configuration, which is unchanged |
| `PolicyBuilder.PolicyManager.UpdateConfig` | controller/internal/manager/policy_manager.go:176-189 | A parsed configuration is stored and the version grows by one; a failed parse changes nothing |
| `PolicyBuilder.CopyOf` | controller/internal/manager/policy_manager.go:54-62 | A copied slice has the same items in an array of its own |
| `PolicyBuilder.Append` | controller/internal/manager/policy_manager.go:90-94 | Appending gives the items and one more, in the same array where there is spare capacity and in a new one otherwise |
| `PolicyBuilder.AppendAbsent` | controller/internal/manager/policy_manager.go:85-95 | The merged slice is the global items followed by the section's items absent from them |
| `PolicyBuilder.MergedCopy` | controller/internal/manager/policy_manager.go:101-111 | Copying and then appending merges into a new array and leaves both lists alone |
| `PolicyBuilder.Override` | controller/internal/manager/policy_manager.go:97-99 | The merged levels are the section's over the global ones, whatever the iteration order |
| `PolicyBuilder.MergedPolicy` | controller/internal/manager/policy_manager.go:84-159 | Merging a section gives a policy on new slices and a new map, whose contents are the merged rules |
| `PolicyMerge.MergeListContents` | controller/internal/manager/policy_manager.go:101-111 | The global list is a prefix, the merged items are those of both, and each added item is added as often as the section lists it |
| `PolicyMerge.AbsentConcat` | controller/internal/manager/policy_manager.go:90-94 | Added items keep the section's order |
| `PolicyMerge.RemergeAddsNothing` | controller/internal/manager/policy_manager.go:84-159 | Merging the same section again changes nothing |
| `PolicyArrays.LoadedSizes` | worker/include/dpdk_filter/constants.h:9-18 | The sizes of the loaded arrays, and which lists fit them |
| `PolicyArrays.FieldSizes` | worker/include/dpdk_filter/constants.h:9-18 | A string survives a category field up to 63 octets and a domain field up to 259 |
| `PolicyArrays.PolicyStore.Load` | worker/src/worker.cpp:186-274 | Loading stays inside the arrays if and only if the category and domain lists fit; then the arrays are the clipped lists, levels and addresses of the policy, zero beyond them, whatever they held before |
| `PolicyArrays.FillStrings` | worker/src/worker.cpp:188-193 | Stays inside iff the list fits; then clipped strings from slot 0 on, empty beyond |
| `PolicyArrays.FillLevels` | worker/src/worker.cpp:195-209 | The first 64 levels in iteration order, zero beyond |
| `PolicyArrays.FillIps` | worker/src/worker.cpp:225-247 | The parsed addresses of each family in order, cut off at capacity, zero beyond; unparsable items are skipped |
| `Filter.Scan` | worker/src/dpdk_filter/filtr_packets.c:4-18 | A list scan finds an item iff it stands before the first sentinel |
| `ListScan.ScanExactly` | worker/src/dpdk_filter/filtr_packets.c:45-69 | A list loaded into its slots is scanned exactly as configured if and only if every item that is not a sentinel also stands before the first sentinel and within the capacity |
| `ListScan.DomainScanExactly` | worker/src/dpdk_filter/filtr_packets.c:4-18 | A domain list that fits is scanned exactly as configured if and only if its items survive the field and none stands only behind an empty one |
| `ListScan.Ip4ScanExactly` | worker/src/dpdk_filter/filtr_packets.c:48-56 | An IPv4 list of any length is scanned exactly as configured if and only if no address stands only behind 0.0.0.0 or only beyond slot 1024 |
| `ListScan.Ip6ScanExactly` | worker/src/dpdk_filter/filtr_packets.c:58-66 | The same for IPv6 lists, where every address with a zero first octet ends the scan |
| `ListScan.EmptyItemHides` | worker/src/dpdk_filter/filtr_packets.c:8-10 | An empty item hides the domain behind it |
| `ListScan.ZeroAddressHides` | worker/src/dpdk_filter/filtr_packets.c:49-51 | 0.0.0.0 hides the IPv4 address behind it |
| `ListScan.LoopbackHides` | worker/src/dpdk_filter/filtr_packets.c:59-61 | ::1 hides the IPv6 address behind it |
| `Filter.CheckCategories` | worker/src/dpdk_filter/filtr_packets.c:97-110 | True iff no slot of the classification equals a slot of the locked categories, empty slots included |
| `Filter.CheckLevels` | worker/src/dpdk_filter/filtr_packets.c:112-128 | True iff no received category has a level above the received trust |
| `Filter.CheckClass` | worker/src/dpdk_filter/filtr_packets.c:130-159 | The unclassified target is sent; otherwise categories, trust level and levels decide |
| `Filter.FilterByDomain` | worker/src/dpdk_filter/filtr_packets.c:161-176 | Blocked names are dropped, then allowed ones sent, then the classification decides |
| `Filter.FilterByIp` | worker/src/dpdk_filter/filtr_packets.c:178-193 | The same for destinations of both families |
| `PolicyMeaning.DomainMeaning` | worker/src/dpdk_filter/filtr_packets.c:161-176 | Merging, loading and scanning a well-formed configuration within capacity sends a domain iff the union of global and section rules, block first, sends it |
| `PolicyMeaning.IpMeaning` | worker/src/dpdk_filter/filtr_packets.c:178-193 | The same for IPv4 and IPv6 destinations |
| `PolicyMeaning.ClassMeaning` | worker/src/dpdk_filter/filtr_packets.c:130-159 | The same for categories, trust level and per-category levels |
| `Strictness.OnlyBlocksStricterExactly` | controller/internal/manager/policy_manager.go:84-151 | A section that only blocks more, of a policy that fits, never makes its worker send what the global rules alone drop if and only if it does not use up the last unused category or level slot while nothing else keeps the empty name out |
| `Strictness.SectionStricterExactly` | controller/internal/manager/policy_manager.go:84-151 | For any section without allow entries, any number of levels and all iteration orders: stricter for every full slot array, name and address if and only if the merged arrays cover the global ones |
| `Strictness.ClassStricterExactly` | worker/src/dpdk_filter/filtr_packets.c:130-159 | Of any two loaded policies one drops every classification the other drops if and only if its minimum is no lower, it locks every category the other locks, and it covers every level |
| `Strictness.SectionIsStricter` | controller/internal/manager/policy_manager.go:84-151 | With an unused slot in each array a section that only blocks more is stricter, for classifications with any number of slots |
| `Strictness.FullArrayIsLaxer` | worker/src/dpdk_filter/filtr_packets.c:101-107 | Without one it can be laxer: filling the category array makes the worker send a target with an empty slot array that the global rules alone drop |
| `Strictness.LoadedUnderAnyVersion` | worker/src/worker.cpp:186-274 | What is compared is what a worker without and with its section loads, under every version |
| `PolicyProtocol.WorkersHoldPublishedPolicies` | worker/src/worker.cpp:153-276 | In every run, with any number of workers and updates between the two lock regions, a worker's policy is the merge for its id of the configuration that the run's updates published under the version it reports; a worker reports version 0 iff it has no policy |
| `PolicyProtocol.ControllerHoldsLatest` | controller/internal/manager/policy_manager.go:180-186 | Over every run the controller's history is the empty configuration followed by those of the successful updates in order, and it holds the last of them under its version |
| `PolicyProtocol.StartedWithId` | worker/src/worker.cpp:376-378 | A worker process keeps the id it was started with |
| `PolicyProtocol.UnchangedWasCurrent` | controller/internal/manager/manager.go:33-40 | An UNCHANGED reply means the requested version was current at some moment after the request was sent |
| `PolicyProtocol.VersionsNeverGoBack` | worker/src/worker.cpp:157-276 | A worker that waits for each reply before asking again never goes back in version, over every run |
| `PolicyProtocol.AnsweredWorkersAreFresh` | worker/src/worker.cpp:157-276 | Once such a request is answered, either way, the worker's policy is no older than the configuration in force when the request was sent |
| `PolicyProtocol.OnlyOvertakenRepliesGoBack` | worker/src/worker.cpp:182-276 | Without overlap every delivered policy is strictly newer; a step takes a version back only by delivering a reply that another reply overtook |
| `PolicyProtocol.OverlapGoesBack` | worker/src/worker.cpp:457-457 | With overlapping requests some run from the start takes a worker from version 2 back to version 1 |
| `PolicyProtocol.WorkersEnforceTheirVersion` | worker/src/worker.cpp:185-274 | End to end: in every run the arrays a worker loads decide every domain and address as the rules of the configuration of its version read |
| `PolicyProtocol.NextInv` | controller/internal/manager/manager.go:25-51 | Every step of controller, workers and network keeps policies published, replies newer than what was asked for, and versions within the history |
| `PolicyProtocol.RequestsPersist` | controller/internal/grpcserver/data_server.go:35-69 | A request keeps who asked, for what and when until it is answered or lost |
| `Controller.Manager.HandleGetPolicy` | controller/internal/manager/manager.go:25-51 | Registers the worker as enabled if unknown; answers UNCHANGED iff the version is current, else the merged policy |
| `Controller.Manager.GetPolicy` | controller/internal/grpcserver/data_server.go:35-69 | The response carries the answer, and the worker's switch as it stands after whatever others did to the switches between registration and the separate read |
| `Controller.Manager.UpdateConfig` | controller/internal/manager/manager.go:57-62 | An update leaves configuration and version as the protocol's update step does |
| `Controller.UpdateIsAStep` | controller/internal/manager/policy_manager.go:176-189 | That step stores a parsed configuration under the next version and changes nothing on a failed parse |
| `Controller.ResponseSwitch` | controller/internal/grpcserver/data_server.go:49-68 | The switch in a response is what the last toggle affecting the worker says, toggles during the request included; a toggle of id 0 during it affects the worker |
| `Controller.Manager.SetFilteringEnabled` | controller/internal/manager/manager.go:64-77 | Id 0 sets exactly the known workers, in whatever order the map is walked; another id is set by name |
| `Controller.Manager.IsFilteringEnabled` | controller/internal/manager/manager.go:79-87 | Unknown workers count as enabled |
| `Controller.SwitchReplay` | controller/internal/manager/manager.go:64-87 | After every sequence of requests and toggles a worker's switch is what the last toggle affecting it says, where a toggle of id 0 affects exactly the workers known then; enabled if there is none |
| `Controller.LastToggleDecides` | controller/internal/manager/manager.go:79-87 | That reading of the log has one answer only, which is the switch |
| `Controller.ReplayKnows` | controller/internal/manager/manager.go:27-30 | The known workers are those that asked or were toggled by name |
| `Controller.AnswerIsAnUninterruptedRequest` | controller/internal/manager/manager.go:33-50 | Answering in one go is the protocol's two reads with nothing in between |
| `ProviderIndex.Check` | controller/internal/service/service/service.go:47-115 | An id is returned iff some category with that id maps a known, answering provider to a list meeting its answer, and at most once, whatever the iteration orders |
| `ProviderIndex.BuildIndex` | controller/internal/service/service/service.go:53-63 | The index lists under every provider exactly what the categories say about it |
| `ProviderIndex.AddCategory` | controller/internal/service/service/service.go:57-62 | Filing one category adds exactly its entries |
| `ProviderIndex.AskAll` | controller/internal/service/service/service.go:65-107 | Asking every indexed provider once finds exactly the confirmed ids |
| `ProviderIndex.Match` | controller/internal/service/service/service.go:100-106 | Adds exactly the ids one answer confirms |
| `ProviderIndex.HasIntersection` | controller/internal/service/service/service.go:117-128 | True iff the lists share an item |
| `ProviderIndex.IndexIsExact` | controller/internal/service/service/service.go:53-107 | Asking through the index confirms the same ids as asking for every category |
| `ProviderIndex.SameUpToOrder` | controller/internal/service/service/service.go:109-114 | Two results for the same input are permutations of each other |
| `ProviderIndex.ListOf` | controller/internal/service/service/service.go:109-112 | Lists a set without duplicates |
| `Metrics.CountersAccount` | worker/src/worker.cpp:48-95 | Under every interleaving of records with any number of flushes, pushed + in hand + local = records, for each counter |
| `Metrics.EverythingIsPushed` | worker/src/worker.cpp:81-95 | Once every flush is over, pushed + local = records |
| `Metrics.NextInv` | worker/src/worker.cpp:85-94 | Every exchange and push moves a count without losing or doubling it |
| `Metrics.Counters.Flush` | worker/src/worker.cpp:81-95 | Everything local is pushed and nothing is left; without a collector nothing is taken |

## Left out

- DnsName.DecodeName: reads past the end of the packet are modelled as 511 readable octets, the most the measuring pass
  can reach, and the memory behind the domain field as writable; what lies there in the program is not modelled.
- PolicyArrays.PolicyStore.Load: what a write outside an array does is not modelled; loading ends there. The unset arrays
  before the first policy are arbitrary.
- Filter.CheckLevels: covers the 64 declared slots; the source's outer loop runs to 100.
- Filter.CheckCategories: the classification is the whole slot array as the classifier leaves it, because the source does
  not clear it before the call.
- Expiry.RestartedTimerExpires: one direction, under bounds on timestamp and timer frequency; the exact condition is
  `Expiry.ExpiryExact`.
- PolicyMeaning.DomainMeaning: well-formedness of all lists at once is sufficient; what a single list needs is exactly
  `ListScan.DomainScanExactly`.
- Strictness.OnlyBlocksStricterExactly: over the 64 declared level slots, as `Filter.CheckLevels`.
- WorkerSystem.CachedLoopEqualsUncached: a packet whose table lookup reports an error gets no verdict on either side; it
  is dropped, as `Pipeline.PacketLoop.LookupOrDecide` states.
- WorkerSystem.NextInv: packets that bypass the filter do not touch the caches and are not steps of this system; the
  policy is written in one step, because the mutex is held throughout; a policy thread that outlives the worker object is
  not modelled.
- CachePersistence.SaveThenLoad: for the domain cache, without SQL errors, allocation failures and concurrent additions.
  Category rows, and the address cache's rows, whose loaded IPv4 keys have unset octets, are not modelled.
- PolicyBuilder.PolicyManager.GetWorkerPolicy: sections are found by worker id rather than by the text `filter_<id>`; the
  branch for an absent configuration, which no caller reaches, is not modelled.
- PolicyProtocol.WorkersHoldPublishedPolicies: one life of the controller, which starts again at version 0 after a
  restart; versions do not wrap at 2^64.
- Controller.Manager.GetPolicy: marshalling errors are not modelled; configuration updates between its reads are the
  subject of `PolicyProtocol`, not of this method.
- Metrics.CountersAccount: counters do not wrap at 2^64.
- Forwarding.ForwardSends: the IPv4 header checksum is not modelled.
- DPDK itself (hash tables, memory pools, ports, timers, packet type parsing) and `net_port.c`; packet parsing other than
  the DNS name.
- SQLite statements, gRPC, protobuf, TOML, HTTP, JSON, Prometheus, logging, signals, environment variables.
- `DataServer.Classify`, `GetCategory`, `AdminServer`, and the loading and validation of category and provider files.
- The older copy of the classifier under `controller/service` and the standalone driver `main.c`.
- Traffic generators, scripts, container and build files.
