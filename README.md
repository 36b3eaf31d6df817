# Per-node CPU-set and mac-vlan network allocation, modelled in Dafny

This project models the scheduler plugin's per-node resource allocator
(`plugin/pkg/scheduler/allocate_resource.go`). The allocator holds two independent decisions,
each taken for one pod on one candidate node. Each decision reads the node and the pods already
bound to it, and returns a proposal without changing either.

- `NumaCpuSelect` sums the pod's per-container CPU requests. It then builds a used/free bitmap
  of the node's cores from the comma-separated `CpuSet` strings of the existing pods. It
  proposes two core sets:
  - the *normal* set: the lowest free cores of the whole node;
  - the *NUMA* set: the lowest free cores of the first NUMA node that has enough of them.

  A NUMA partition error is returned as an error. A lack of capacity is returned as an empty
  set, not an error.
- `AllocatePodNetwork` applies only to pods in mac-vlan mode. It scans the node's VM
  descriptors in order. It takes the first descriptor whose address no other mac-vlan pod holds
  and whose address fits the one the pod asks for. It copies that descriptor into the pod's
  network. When no descriptor fits, it fails with the error `Can't find valid vms on node(<name>)`.

Files and modules:

- `api.dfy` (`Api`): the API values the allocator reads and returns (`Pod`, `Node`,
  `VmDescriptor`, `Network`, `NetworkMode`), together with `Result`, `Option` and `Error`.
- `strings.dfy` (`Strings`): the Go library string functions the code depends on: `strings.Split`,
  `strings.HasPrefix`, `strconv.Atoi` with its error dropped, and `strconv.Itoa`. It also proves
  the split/join round trips and the `Atoi(Itoa(n)) == n` round trip.
- `bitmap.dfy` (`Bitmap`): the bitmap as a class `NumaBitmap` over an `array<bool>`. `SetBit`
  updates the array in place. `Get0BitOffs` is a loop that is proved to return the ascending
  free cores. The NUMA partition is an injected function `Partition`, with the assumption
  `WellFormed` it must satisfy. An example contiguous partition shows that the assumption can
  be met.
- `cpuselect.dfy` (`CpuSelect`, `CpuSelectProperties`): `NumaCpuSelect` is written as an
  imperative method whose loops mirror the source: it sums the requests, marks the bitmap,
  copies the normal set, and scans for the first-fit NUMA node. The method is proved equal to
  the specification function `CpuSelection`. The lemmas prove what that function promises.
- `network.dfy` (`NetworkAlloc`, `NetworkAllocProperties`): `AllocatePodNetwork` is written as a
  method with the source's nested loops, its `used` flag, and its `break`/`continue`. It is
  proved equal to `NetworkSelection`, and the lemmas prove what that function promises.

How a malformed `CpuSet` entry is handled: the entry is not skipped. `strconv.Atoi` fails on it,
and the discarded error leaves the value 0, so core 0 is marked used. An existing pod whose
`CpuSet` is empty splits into one empty entry, so that pod also blocks core 0. The model keeps
this behaviour (`CpuSelectProperties.MalformedEntryBlocksCoreZero`).

## Model

| member | source | states |
|---|---|---|
| `CpuSelect.NumaCpuSelect` | plugin/pkg/scheduler/allocate_resource.go:13-74 | The method's result equals `CpuSelection`. So on a zero request it returns no sets and no error, before it builds the bitmap or consults a partition. Otherwise it builds the bitmap, uses the declared NUMA node count when it is positive and 2 otherwise, and uses the topological partition exactly when `Topological == "1"`. |
| `CpuSelect.TotalRequestCpu` | plugin/pkg/scheduler/allocate_resource.go:18-22 | The accumulated request equals the sum of the per-container requests. |
| `CpuSelect.ParseEntries` | plugin/pkg/scheduler/allocate_resource.go:35-36 | Each `CpuSet` entry gives the core number `Atoi` reads from it, entry by entry, with nothing dropped. |
| `CpuSelect.MarkEntries` | plugin/pkg/scheduler/allocate_resource.go:35-38 | After the inner loop over one pod's `CpuSet` entries, a core is marked used exactly when it was already marked or one of the entries parses (by `Atoi`) to it. |
| `CpuSelect.MarkReserved` | plugin/pkg/scheduler/allocate_resource.go:33-39 | After the nested loop, a core is marked used exactly when it was already marked or some existing pod's `CpuSet` names it. |
| `CpuSelect.ReservedIsUnionOfPods` | plugin/pkg/scheduler/allocate_resource.go:33-39 | A core number is reserved exactly when the `CpuSet` of some existing pod names it. Both directions are proved. |
| `CpuSelect.CopyFirst` | plugin/pkg/scheduler/allocate_resource.go:43-46 | The counted `append` loop yields the first `count` entries, or none when `count` is not positive. |
| `CpuSelect.FirstFitFrom` | plugin/pkg/scheduler/allocate_resource.go:61-63 | The result is the lowest NUMA node index whose free list holds at least `total` cores, with every earlier node short of that. If there is no result, every node is short. |
| `CpuSelect.SelectNuma` | plugin/pkg/scheduler/allocate_resource.go:61-71 | The scan with `break` on the first fit returns the first `total` cores of the first-fit node, or nothing when no node fits. |
| `CpuSelectProperties.CpuSelectionOutcome` | plugin/pkg/scheduler/allocate_resource.go:24-60 | A zero total request (lines 24-26) gives `(nil, nil, nil)` whatever the node and the pods. For any other total the call fails exactly when the selected partition fails (lines 58-60), and with that partition's error. |
| `CpuSelectProperties.NormalSetIsFreePrefix` | plugin/pkg/scheduler/allocate_resource.go:41-47 | The normal set is exactly the first `total` entries of the ascending free-core list when the list holds that many, and empty when it does not. It is strictly ascending. |
| `CpuSelectProperties.NoReservedCoreChosen` | plugin/pkg/scheduler/allocate_resource.go:33-47 | No core in either set lies outside the node, and no core in either set is named by the `CpuSet` of any existing pod. |
| `CpuSelectProperties.NumaSetIsFirstFit` | plugin/pkg/scheduler/allocate_resource.go:53-71 | For a positive total request, when the partition succeeds, the NUMA set is non-empty exactly when some NUMA node has at least `total` free cores. It is then the first `total` free cores of the lowest such node, so all its cores come from that one node, in ascending order. |
| `CpuSelectProperties.MalformedEntryBlocksCoreZero` | plugin/pkg/scheduler/allocate_resource.go:34-37 | An existing pod's `CpuSet` entry that is not an optional sign followed by digits (an empty `CpuSet` included) reserves core 0, so neither set contains core 0. |
| `CpuSelectProperties.EmptyCpuSetNamesCoreZero` | plugin/pkg/scheduler/allocate_resource.go:34-36 | An empty `CpuSet` splits into one empty entry, and that entry names core 0. |
| `CpuSelectProperties.FormatCpuSetRoundTrip` | plugin/pkg/scheduler/allocate_resource.go:45 | Recording a non-empty proposal as comma-joined `Itoa` strings and parsing it back with `Split` and `Atoi` gives back the same cores. |
| `CpuSelectProperties.RecordedCoresAreAvoided` | plugin/pkg/scheduler/allocate_resource.go:33-47 | Once a non-empty list of cores is recorded as a pod's `CpuSet` on the node, no later proposal on that node contains any of those cores. |
| `CpuSelectProperties.EightCoreScenario` | plugin/pkg/scheduler/allocate_resource.go:41-71 | Take 8 cores split evenly over 2 NUMA nodes, with cores 0, 1 and 4 held, and a request for 3 cores. The normal set is then 2, 3, 5 and the NUMA set is 5, 6, 7. |
| `CpuSelectProperties.NumaFreeIsFreePartition` | plugin/pkg/scheduler/allocate_resource.go:53-62 | Whichever partition the topology flag selects, its lists hold at least one list per NUMA node, each ascending and holding only free cores. |
| `Bitmap.NumaBitmap.constructor` | plugin/pkg/scheduler/allocate_resource.go:32 | A fresh bitmap has one flag per core, and every core is free. |
| `Bitmap.NumaBitmap.SetBit` | plugin/pkg/scheduler/allocate_resource.go:37 | Marks exactly one in-range core used and changes nothing else. An out-of-range offset changes nothing. |
| `Bitmap.NumaBitmap.Get0BitOffs` | plugin/pkg/scheduler/allocate_resource.go:41 | Returns the free cores listed by `FreeOffsets`. |
| `Bitmap.FreeInIsFreeRange` | plugin/pkg/scheduler/allocate_resource.go:41 | The free list of a range holds exactly the free cores of that range, once each, in strictly ascending order. |
| `Bitmap.FreeOffsetsAreFreeCores` | plugin/pkg/scheduler/allocate_resource.go:41 | The flat free list holds exactly the free cores of the node, in strictly ascending order. |
| `Bitmap.ContiguousIsWellFormed` | plugin/pkg/scheduler/allocate_resource.go:56 | An even contiguous split meets the partition assumption. It is an example instance only, not the library's own layout. |
| `Strings.JoinSplit` | plugin/pkg/scheduler/allocate_resource.go:34 | Joining the pieces of `strings.Split` with the separator gives back the string. |
| `Strings.SplitJoin` | plugin/pkg/scheduler/allocate_resource.go:34 | Splitting a join of separator-free pieces gives back the pieces. |
| `Strings.SplitPiecesHaveNoSeparator` | plugin/pkg/scheduler/allocate_resource.go:34 | No piece of a split contains the separator. |
| `Strings.Split` | plugin/pkg/scheduler/allocate_resource.go:34 | Splitting always yields at least one piece (the empty string gives one empty piece); its round trips with `Join` are `JoinSplit` and `SplitJoin`. The same split on '/' at line 99 is characterised by `SplitFirstPiece`. |
| `Strings.HasPrefix` | plugin/pkg/scheduler/allocate_resource.go:100 | `s` has prefix `p` exactly when `s` is `p` followed by some string. |
| `Strings.Atoi` | plugin/pkg/scheduler/allocate_resource.go:36 | A string of one or more digits reads as its decimal value, and a negative value comes only from a leading '-' followed by more text. |
| `CpuSelect.NumaNodeCount` | plugin/pkg/scheduler/allocate_resource.go:28-31 | The NUMA node count is the node's declared count when that is positive, and 2 otherwise; it is always at least 1. |
| `CpuSelectProperties.TopologyFlagSelectsPartition` | plugin/pkg/scheduler/allocate_resource.go:53-57 | The NUMA free lists come from the vertical partition when the topology flag is exactly "1" and from the other partition for any other flag, applied to the reserved bitmap and the NUMA node count. |
| `NetworkAlloc.PrefixMatches` | plugin/pkg/scheduler/allocate_resource.go:99-100 | A descriptor address can match a requested address only if it contains a '/'. |
| `Strings.SplitFirstPiece` | plugin/pkg/scheduler/allocate_resource.go:99-100 | The first piece is the separator-free text before the first separator. There are two or more pieces exactly when the separator occurs. |
| `Strings.AtoiOfMalformedIsZero` | plugin/pkg/scheduler/allocate_resource.go:36 | A string that is not an optional sign followed by digits reads as 0 once the error is dropped. |
| `Strings.AtoiItoa` | plugin/pkg/scheduler/allocate_resource.go:45 | `Atoi` of the `Itoa` rendering of a core number gives back that number. |
| `Strings.ItoaHasOnlyDigits` | plugin/pkg/scheduler/allocate_resource.go:45 | A decimal rendering contains no non-digit character. In particular, it contains no `,`. |
| `NetworkAlloc.AllocatePodNetwork` | plugin/pkg/scheduler/allocate_resource.go:76-118 | The method's result, computed with the source's `used` flag and `break`/`continue`, equals `NetworkSelection`. |
| `NetworkAlloc.AddressInUse` | plugin/pkg/scheduler/allocate_resource.go:86-95 | The flag is set exactly when some existing pod in mac-vlan mode holds exactly this address. Pods in other modes are skipped. |
| `NetworkAlloc.FirstEligibleFrom` | plugin/pkg/scheduler/allocate_resource.go:85-111 | The result is the first descriptor, in node order, that is neither held nor ruled out by the prefix check. If there is no result, no descriptor qualifies. |
| `NetworkAllocProperties.NonMacVlanIsNoop` | plugin/pkg/scheduler/allocate_resource.go:77-80 | A pod that is not in mac-vlan mode gets the empty `Network` and no error. |
| `NetworkAllocProperties.AssignedIsFirstEligible` | plugin/pkg/scheduler/allocate_resource.go:85-117 | A success copies the first eligible descriptor's address, gateway, MAC address and VLAN id, with mac-vlan mode. The address is non-empty and no existing mac-vlan pod holds it. If the pod asks for an address, the descriptor's address reads `p/...`, where `p` contains no `/` and begins the requested address. |
| `NetworkAllocProperties.FailsIffNoUsableDescriptor` | plugin/pkg/scheduler/allocate_resource.go:104-117 | A mac-vlan pod fails exactly when no descriptor is eligible or the first eligible descriptor has an empty address. The scan stops at that descriptor, so later ones are not tried. The error is `Can't find valid vms on node(<name>)`. |
| `NetworkAllocProperties.AddressHeldIgnoresOtherModes` | plugin/pkg/scheduler/allocate_resource.go:87-90 | Adding pods that are not in mac-vlan mode never makes an address held. |
| `NetworkAllocProperties.OtherModePodsDoNotMatter` | plugin/pkg/scheduler/allocate_resource.go:87-95 | Adding pods that are not in mac-vlan mode to the node changes no assignment. |
| `NetworkAllocProperties.SingleFreeDescriptorIsAssigned` | plugin/pkg/scheduler/allocate_resource.go:104-111 | A pod that asks for no address, on a node with a single descriptor whose address is non-empty and held by no mac-vlan pod (pods in other modes may carry it), gets exactly that descriptor's fields. |
| `NetworkAllocProperties.HeldMatchAndFreeMismatchFail` | plugin/pkg/scheduler/allocate_resource.go:97-117 | A pod asks for an address. The node's first descriptor matches the prefix but is held, and its second is free but has a different prefix. Then the call fails, through the empty network. |
| `NetworkAllocProperties.FreeMismatchAndHeldMatchFail` | plugin/pkg/scheduler/allocate_resource.go:97-117 | The same two descriptors in the other order (the free mismatched one first, the held matching one second) also fail, this time because the last descriptor scanned is held. |

## Left out

- The bitmap library (`github.com/hustcat/go-lib/bitmap`) is not part of this model. `NumaBitmap` stands in for it: it has one flag per core, and `Get0BitOffs` returns the ascending free cores.
- `Get0BitOffsNumaVer` and `Get0BitOffsNuma` are injected `Partition` functions, because their layouts cannot be seen. The model requires (`WellFormed`) that a successful partition returns at least one list per NUMA node, and that each list is ascending and holds only free cores. With fewer lists the source would panic at line 62. `Bitmap.Contiguous` is an example partition only.
- `Bitmap.NumaBitmap.SetBit`: a core number outside `[0, cores)` is ignored. This covers negative `Atoi` results, which `uint(coreNo)` would wrap to huge offsets. What the library really does with such an offset is not visible.
- `Strings.Atoi`: the range clamping of numbers beyond 64 bits is not modelled. Under the ignore-out-of-range assumption above, such numbers mark nothing either way.
- `CpuSelect.TotalRequestCpu`: the per-container request is a plain integer. `Quantity.Cpu().Value()` rounding and 64-bit overflow of the sum are not modelled. The allocatable core count (`priorityutil.GetNonZeroCore`) is taken as a plain input `Node.cores`.
- The source returns each core as a decimal string (`strconv.Itoa`). The model returns core numbers, and `Strings.AtoiItoa` with `CpuSelectProperties.FormatCpuSetRoundTrip` ties the two together. Go's distinction between nil and empty slices is not modelled: both are `[]`.
- The value of `api.PodNetworkModeMacVlan` and the Go type of `VlanID` are defined in `pkg/api`, which is not part of this model. The mode is a datatype with a distinct `MacVlan` case, and the VLAN id is an `int` copied verbatim.
- The `glog` log line (line 72) is output only.
- `Godeps/_workspace/src/github.com/google/cadvisor/storage/syslogng/syslogng.go` and `client/client.go` are statistics shipping over TCP, with JSON encoding, reconnection and random endpoint choice. They are I/O and are not part of this model.
- `pkg/kubelet/cadvisor/storagedriver.go` is a wrapper over the storage driver registry. It is not part of this model.
