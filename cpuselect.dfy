/** `NumaCpuSelect`: the CPU cores proposed for a pod on a node, built fresh on every call from
    the CPU sets the node's other pods already hold. Two proposals come back: the "normal" set,
    the lowest free cores of the whole node, and the NUMA set, the lowest free cores of the
    first NUMA node that has enough of them. */
module CpuSelect {
  import opened Api
  import opened Strings
  import opened Bitmap

  /** The two proposals: `normal` ignores NUMA locality, `numa` keeps to one NUMA node. */
  datatype CpuSets = CpuSets(normal: seq<nat>, numa: seq<nat>)

  /** The sum of the per-container requests, first container first. */
  function Sum(xs: seq<int>): int
  {
    if |xs| == 0 then 0 else Sum(xs[..|xs| - 1]) + xs[|xs| - 1]
  }

  /** The pod's total CPU request, accumulated container by container. */
  method TotalRequestCpu(pod: Pod) returns (total: int)
    ensures total == Sum(pod.cpuRequests)
  {
    total := 0;
    for i := 0 to |pod.cpuRequests|
      invariant total == Sum(pod.cpuRequests[..i])
    {
      assert pod.cpuRequests[..i + 1][..i] == pod.cpuRequests[..i];
      total := total + pod.cpuRequests[i];
    }
    assert pod.cpuRequests[..|pod.cpuRequests|] == pod.cpuRequests;
  }

  /** The core numbers a list of `CpuSet` entries names, entry by entry. */
  function ParseEntries(entries: seq<string>): (cores: seq<int>)
    ensures |cores| == |entries|
    ensures forall i :: 0 <= i < |entries| ==> cores[i] == Atoi(entries[i])
  {
    if |entries| == 0 then []
    else ParseEntries(entries[..|entries| - 1]) + [Atoi(entries[|entries| - 1])]
  }

  /** The core numbers one pod's comma-separated `CpuSet` string names. An entry that is not a
      decimal number, the empty `CpuSet` included, names core 0. */
  function CpuSetCores(cpuSet: string): seq<int>
  {
    ParseEntries(Split(cpuSet, ','))
  }

  /** Every core number the existing pods' `CpuSet` strings name, pod by pod. */
  function Reserved(pods: seq<Pod>): seq<int>
  {
    if |pods| == 0 then [] else Reserved(pods[..|pods| - 1]) + CpuSetCores(pods[|pods| - 1].cpuSet)
  }

  /** A core number is reserved exactly when some existing pod's `CpuSet` names it. */
  lemma {:induction false} ReservedIsUnionOfPods(pods: seq<Pod>)
    ensures forall k, x :: 0 <= k < |pods| && x in CpuSetCores(pods[k].cpuSet) ==> x in Reserved(pods)
    ensures forall x :: x in Reserved(pods) ==> exists k :: 0 <= k < |pods| && x in CpuSetCores(pods[k].cpuSet)
  {
    if |pods| > 0 {
      var init := pods[..|pods| - 1];
      ReservedIsUnionOfPods(init);
      assert forall k :: 0 <= k < |init| ==> pods[k] == init[k];
    }
  }

  /** `base` with every in-range core of `xs` also marked used. */
  function Marked(base: seq<bool>, xs: seq<int>): (bits: seq<bool>)
  {
    seq(|base|, i requires 0 <= i < |base| => base[i] || i in xs)
  }

  lemma MarkedStep(base: seq<bool>, xs: seq<int>, c: int)
    ensures Marked(base, xs + [c]) ==
      if 0 <= c < |base| then Marked(base, xs)[c := true] else Marked(base, xs)
  {
  }

  /** The used/free bitmap of an `n`-core node: a core is used exactly when some existing pod
      names it. Numbers outside [0, n) mark nothing. */
  function ReservedBits(n: nat, pods: seq<Pod>): seq<bool>
  {
    seq(n, i => i in Reserved(pods))
  }

  lemma MarkedTwice(base: seq<bool>, xs: seq<int>, ys: seq<int>)
    ensures Marked(Marked(base, xs), ys) == Marked(base, xs + ys)
  {
  }

  /** Marks the core each entry of one `CpuSet` names as used (the inner loop). */
  method MarkEntries(cpuMap: NumaBitmap, entries: seq<string>)
    modifies cpuMap.bits
    ensures cpuMap.bits[..] == Marked(old(cpuMap.bits[..]), ParseEntries(entries))
  {
    ghost var base := cpuMap.bits[..];
    for j := 0 to |entries|
      invariant cpuMap.bits[..] == Marked(base, ParseEntries(entries[..j]))
    {
      var coreNo := Atoi(entries[j]);
      assert entries[..j + 1][..j] == entries[..j];
      MarkedStep(base, ParseEntries(entries[..j]), coreNo);
      cpuMap.SetBit(coreNo);
    }
    assert entries[..|entries|] == entries;
  }

  /** Marks every core named by every existing pod's `CpuSet` as used. */
  method MarkReserved(cpuMap: NumaBitmap, pods: seq<Pod>)
    modifies cpuMap.bits
    ensures cpuMap.bits[..] == Marked(old(cpuMap.bits[..]), Reserved(pods))
  {
    ghost var base := cpuMap.bits[..];
    for k := 0 to |pods|
      invariant cpuMap.bits[..] == Marked(base, Reserved(pods[..k]))
    {
      var entries := Split(pods[k].cpuSet, ',');
      MarkedTwice(base, Reserved(pods[..k]), ParseEntries(entries));
      MarkEntries(cpuMap, entries);
      assert pods[..k + 1][..k] == pods[..k];
    }
    assert pods[..|pods|] == pods;
  }

  /** The first `count` entries of `s`; none when `count` is not positive. */
  function Take(s: seq<nat>, count: int): seq<nat>
    requires count <= |s|
  {
    if count <= 0 then [] else s[..count]
  }

  /** Copies the first `count` entries of `s`, one at a time. */
  method CopyFirst(s: seq<nat>, count: int) returns (r: seq<nat>)
    requires count <= |s|
    ensures r == Take(s, count)
  {
    r := [];
    var j := 0;
    while j < count
      invariant 0 <= j <= if count < 0 then 0 else count
      invariant r == s[..j]
    {
      r := r + [s[j]];
      j := j + 1;
    }
  }

  /** The normal proposal: the first `total` free cores, or nothing if too few are free. */
  function NormalSet(free: seq<nat>, total: int): seq<nat>
  {
    if |free| >= total then Take(free, total) else []
  }

  /** The lowest NUMA node in [from, n) whose free list holds at least `total` cores. */
  function FirstFitFrom(lists: seq<seq<nat>>, from: nat, n: nat, total: int): (r: Option<nat>)
    requires n <= |lists|
    ensures r.Some? ==>
      from <= r.value < n && |lists[r.value]| >= total && forall j :: from <= j < r.value ==> |lists[j]| < total
    ensures r.None? ==> forall j :: from <= j < n ==> |lists[j]| < total
    decreases n - from
  {
    if from >= n then None
    else if |lists[from]| >= total then Some(from)
    else FirstFitFrom(lists, from + 1, n, total)
  }

  /** The NUMA proposal: the first `total` free cores of the first NUMA node that has that many,
      or nothing if no NUMA node does. */
  function NumaSet(lists: seq<seq<nat>>, n: nat, total: int): seq<nat>
    requires n <= |lists|
  {
    match FirstFitFrom(lists, 0, n, total)
    case None => []
    case Some(i) => Take(lists[i], total)
  }

  /** Scans the NUMA nodes in order and takes cores from the first one with enough free. */
  method SelectNuma(lists: seq<seq<nat>>, n: nat, total: int) returns (numa: seq<nat>)
    requires n <= |lists|
    ensures numa == NumaSet(lists, n, total)
  {
    numa := [];
    for i := 0 to n
      invariant FirstFitFrom(lists, i, n, total) == FirstFitFrom(lists, 0, n, total)
      invariant numa == []
    {
      var offs := lists[i];
      if |offs| >= total {
        numa := CopyFirst(offs, total);
        break;
      }
    }
  }

  /** The NUMA node count: the node's declared count when positive, else 2. */
  function NumaNodeCount(node: Node): (n: nat)
    ensures n >= 1
    ensures n == node.numaNodes || (node.numaNodes <= 0 && n == 2)
  {
    if node.numaNodes > 0 then node.numaNodes else 2
  }

  /** The partition the node's topology flag selects: `numaVer` when it is "1", else `numaCon`. */
  function ChosenPartition(node: Node, numaVer: Partition, numaCon: Partition): Partition
  {
    if node.topological == "1" then numaVer else numaCon
  }

  /** The NUMA free lists of the node's bitmap, or the partition's error. */
  function NumaFree(node: Node, pods: seq<Pod>, numaVer: Partition, numaCon: Partition): Result<seq<seq<nat>>>
  {
    ChosenPartition(node, numaVer, numaCon)(ReservedBits(node.cores, pods), NumaNodeCount(node))
  }

  /** What `NumaCpuSelect` returns. */
  function CpuSelection(pod: Pod, node: Node, pods: seq<Pod>, numaVer: Partition, numaCon: Partition): Result<CpuSets>
    requires WellFormed(numaVer) && WellFormed(numaCon)
  {
    var total := Sum(pod.cpuRequests);
    if total == 0 then Ok(CpuSets([], []))
    else
      var normal := NormalSet(FreeOffsets(ReservedBits(node.cores, pods)), total);
      match NumaFree(node, pods, numaVer, numaCon)
      case Err(e) => Err(e)
      case Ok(lists) => Ok(CpuSets(normal, NumaSet(lists, NumaNodeCount(node), total)))
  }

  /** The allocator. `numaVer` and `numaCon` stand for the library's topological and default
      NUMA partitions. */
  method NumaCpuSelect(pod: Pod, node: Node, pods: seq<Pod>, numaVer: Partition, numaCon: Partition)
    returns (r: Result<CpuSets>)
    requires WellFormed(numaVer) && WellFormed(numaCon)
    ensures r == CpuSelection(pod, node, pods, numaVer, numaCon)
  {
    var total := TotalRequestCpu(pod);
    if total == 0 {
      return Ok(CpuSets([], []));
    }
    var numaNode: nat := 2;
    if node.numaNodes > 0 {
      numaNode := node.numaNodes;
    }
    var cpuMap := new NumaBitmap(node.cores);
    MarkReserved(cpuMap, pods);
    var bits := cpuMap.bits[..];
    assert bits == ReservedBits(node.cores, pods);
    var free := cpuMap.Get0BitOffs();
    var normal := [];
    if |free| >= total {
      normal := CopyFirst(free, total);
    }
    var numaFree: Result<seq<seq<nat>>>;
    if node.topological == "1" {
      numaFree := numaVer(bits, numaNode);
    } else {
      numaFree := numaCon(bits, numaNode);
    }
    if numaFree.Err? {
      return Err(numaFree.error);
    }
    assert IsFreePartition(bits, numaNode, numaFree.value);
    var numa := SelectNuma(numaFree.value, numaNode, total);
    return Ok(CpuSets(normal, numa));
  }
}

/** What the CPU proposals promise, stated over `CpuSelect.CpuSelection`. */
module CpuSelectProperties {
  import opened Api
  import opened Strings
  import opened Bitmap
  import opened CpuSelect

  /** The three outcomes: a zero request proposes nothing and never fails; otherwise the call
      fails exactly when the selected NUMA partition fails, and with that partition's error. */
  lemma CpuSelectionOutcome(pod: Pod, node: Node, pods: seq<Pod>, numaVer: Partition, numaCon: Partition)
    requires WellFormed(numaVer) && WellFormed(numaCon)
    ensures var r := CpuSelection(pod, node, pods, numaVer, numaCon);
      (Sum(pod.cpuRequests) == 0 ==> r == Ok(CpuSets([], []))) &&
      (r.Err? <==> Sum(pod.cpuRequests) != 0 && NumaFree(node, pods, numaVer, numaCon).Err?) &&
      (r.Err? ==> r.error == NumaFree(node, pods, numaVer, numaCon).error)
  {
  }

  /** The normal set is the first `total` entries of the ascending free-core list when that
      list is long enough, and empty otherwise; so it is strictly ascending. */
  lemma NormalSetIsFreePrefix(pod: Pod, node: Node, pods: seq<Pod>, numaVer: Partition, numaCon: Partition)
    requires WellFormed(numaVer) && WellFormed(numaCon)
    requires CpuSelection(pod, node, pods, numaVer, numaCon).Ok?
    ensures var free := FreeOffsets(ReservedBits(node.cores, pods));
      var total := Sum(pod.cpuRequests);
      var normal := CpuSelection(pod, node, pods, numaVer, numaCon).value.normal;
      (0 < total <= |free| ==> |normal| == total && normal == free[..total]) &&
      (total <= 0 || |free| < total ==> normal == []) &&
      StrictlyAscending(normal)
  {
    FreeOffsetsAreFreeCores(ReservedBits(node.cores, pods));
  }

  /** The NUMA free lists come from `numaVer` when the topology flag is exactly "1" and from
      `numaCon` for any other flag, applied to the reserved bitmap and the NUMA node count. */
  lemma TopologyFlagSelectsPartition(node: Node, pods: seq<Pod>, numaVer: Partition, numaCon: Partition)
    ensures node.topological == "1" ==>
      NumaFree(node, pods, numaVer, numaCon) == numaVer(ReservedBits(node.cores, pods), NumaNodeCount(node))
    ensures node.topological != "1" ==>
      NumaFree(node, pods, numaVer, numaCon) == numaCon(ReservedBits(node.cores, pods), NumaNodeCount(node))
  {
  }

  /** The selected partition's lists satisfy what `WellFormed` promises. */
  lemma NumaFreeIsFreePartition(node: Node, pods: seq<Pod>, numaVer: Partition, numaCon: Partition)
    requires WellFormed(numaVer) && WellFormed(numaCon)
    requires NumaFree(node, pods, numaVer, numaCon).Ok?
    ensures IsFreePartition(ReservedBits(node.cores, pods), NumaNodeCount(node), NumaFree(node, pods, numaVer, numaCon).value)
  {
    var bits, n := ReservedBits(node.cores, pods), NumaNodeCount(node);
    if node.topological == "1" {
      assert NumaFree(node, pods, numaVer, numaCon) == numaVer(bits, n);
    } else {
      assert NumaFree(node, pods, numaVer, numaCon) == numaCon(bits, n);
    }
  }

  /** No proposed core lies outside the node or is named by any existing pod's `CpuSet`. */
  lemma NoReservedCoreChosen(pod: Pod, node: Node, pods: seq<Pod>, numaVer: Partition, numaCon: Partition)
    requires WellFormed(numaVer) && WellFormed(numaCon)
    requires CpuSelection(pod, node, pods, numaVer, numaCon).Ok?
    ensures var sets := CpuSelection(pod, node, pods, numaVer, numaCon).value;
      forall c :: c in sets.normal || c in sets.numa ==>
        c < node.cores && forall k :: 0 <= k < |pods| ==> c !in CpuSetCores(pods[k].cpuSet)
  {
    var sets := CpuSelection(pod, node, pods, numaVer, numaCon).value;
    var bits := ReservedBits(node.cores, pods);
    ReservedIsUnionOfPods(pods);
    if Sum(pod.cpuRequests) != 0 {
      FreeOffsetsAreFreeCores(bits);
      NumaFreeIsFreePartition(node, pods, numaVer, numaCon);
      var lists := NumaFree(node, pods, numaVer, numaCon).value;
      var free := FreeOffsets(bits);
      var fit := FirstFitFrom(lists, 0, NumaNodeCount(node), Sum(pod.cpuRequests));
      assert fit.Some? ==> forall c :: c in sets.numa ==> c in lists[fit.value];
      assert forall c :: c in sets.normal ==> c in free;
      forall c | c in sets.normal || c in sets.numa
        ensures c < node.cores && c !in Reserved(pods)
      {
        assert c < |bits| && !bits[c];
      }
    }
  }

  /** The NUMA set is first-fit over the NUMA nodes in ascending order: it is non-empty exactly
      when some NUMA node has at least `total` free cores, and then it is the first `total` free
      cores of the lowest such node, so all of them come from that one node, ascending. */
  lemma NumaSetIsFirstFit(pod: Pod, node: Node, pods: seq<Pod>, numaVer: Partition, numaCon: Partition)
    requires WellFormed(numaVer) && WellFormed(numaCon)
    requires CpuSelection(pod, node, pods, numaVer, numaCon).Ok?
    requires Sum(pod.cpuRequests) > 0
    ensures var lists := NumaFree(node, pods, numaVer, numaCon).value;
      var n := NumaNodeCount(node);
      var total := Sum(pod.cpuRequests);
      var numa := CpuSelection(pod, node, pods, numaVer, numaCon).value.numa;
      |lists| >= n &&
      ((exists i :: 0 <= i < n && |lists[i]| >= total) <==> numa != []) &&
      (forall i :: 0 <= i < n && |lists[i]| >= total && (forall j :: 0 <= j < i ==> |lists[j]| < total) ==>
        numa == lists[i][..total]) &&
      StrictlyAscending(numa)
  {
    NumaFreeIsFreePartition(node, pods, numaVer, numaCon);
  }

  /** An entry of an existing pod's `CpuSet` that is not a decimal number (the single empty
      entry of an empty `CpuSet`, for one) reserves core 0, so neither proposal holds core 0. */
  lemma MalformedEntryBlocksCoreZero(pod: Pod, node: Node, pods: seq<Pod>, numaVer: Partition, numaCon: Partition,
                                     k: nat, m: nat)
    requires WellFormed(numaVer) && WellFormed(numaCon)
    requires CpuSelection(pod, node, pods, numaVer, numaCon).Ok?
    requires k < |pods| && m < |Split(pods[k].cpuSet, ',')|
    requires !IsDecimal(Split(pods[k].cpuSet, ',')[m])
    ensures var sets := CpuSelection(pod, node, pods, numaVer, numaCon).value;
      0 !in sets.normal && 0 !in sets.numa
  {
    AtoiOfMalformedIsZero(Split(pods[k].cpuSet, ',')[m]);
    assert CpuSetCores(pods[k].cpuSet)[m] == 0;
    NoReservedCoreChosen(pod, node, pods, numaVer, numaCon);
  }

  /** The empty `CpuSet` splits into one empty entry, which names core 0. */
  lemma EmptyCpuSetNamesCoreZero()
    ensures Split("", ',') == [""] && !IsDecimal("") && CpuSetCores("") == [0]
  {
  }

  /** Decimal renderings of a list of cores, as `strconv.Itoa` produces them. */
  function Itoas(cores: seq<nat>): (parts: seq<string>)
    ensures |parts| == |cores| && forall i :: 0 <= i < |cores| ==> parts[i] == Itoa(cores[i])
  {
    if |cores| == 0 then [] else Itoas(cores[..|cores| - 1]) + [Itoa(cores[|cores| - 1])]
  }

  /** The `CpuSet` string a caller records for a proposal: the decimal core numbers joined by
      commas. */
  function FormatCpuSet(cores: seq<nat>): string
  {
    Join(Itoas(cores), ',')
  }

  /** Recording a non-empty proposal and parsing it back gives the same cores. */
  lemma FormatCpuSetRoundTrip(cores: seq<nat>)
    requires |cores| >= 1
    ensures CpuSetCores(FormatCpuSet(cores)) == cores
  {
    var parts := Itoas(cores);
    forall i | 0 <= i < |parts|
      ensures ',' !in parts[i] && Atoi(parts[i]) == cores[i]
    {
      ItoaHasOnlyDigits(cores[i], ',');
      AtoiItoa(cores[i]);
    }
    SplitJoin(parts, ',');
  }

  /** Once a non-empty list of cores is recorded as the `CpuSet` of a pod on the node, no later
      proposal on that node holds any of them. */
  lemma RecordedCoresAreAvoided(next: Pod, node: Node, pods: seq<Pod>, numaVer: Partition, numaCon: Partition,
                                recorded: Pod, cores: seq<nat>)
    requires WellFormed(numaVer) && WellFormed(numaCon)
    requires |cores| >= 1 && recorded.cpuSet == FormatCpuSet(cores)
    requires CpuSelection(next, node, pods + [recorded], numaVer, numaCon).Ok?
    ensures var later := CpuSelection(next, node, pods + [recorded], numaVer, numaCon).value;
      forall c :: c in cores ==> c !in later.normal && c !in later.numa
  {
    var all := pods + [recorded];
    FormatCpuSetRoundTrip(cores);
    NoReservedCoreChosen(next, node, all, numaVer, numaCon);
    assert all[|pods|] == recorded;
  }

  /** The worked example below: cores 0 and 1 held by one pod, core 4 by another. */
  const ScenarioPods: seq<Pod> := [Pod([], OtherMode(""), "0,1", ""), Pod([], OtherMode(""), "4", "")]

  lemma ScenarioSplits()
    ensures Split("0,1", ',') == ["0", "1"]
    ensures Split("4", ',') == ["4"]
  {
    assert "1"[1..] == "" && ['1'] + "" == "1";
    assert Split("1", ',') == [['1'] + Split("", ',')[0]] + Split("", ',')[1..];
    assert Split(",1", ',') == ["", "1"];
    assert "0,1"[1..] == ",1" && ['0'] + "" == "0";
    assert Split("0,1", ',') == [['0'] + Split(",1", ',')[0]] + Split(",1", ',')[1..];
    assert "4"[1..] == "" && ['4'] + "" == "4";
    assert Split("4", ',') == [['4'] + Split("", ',')[0]] + Split("", ',')[1..];
  }

  lemma ScenarioReserved()
    ensures Reserved(ScenarioPods) == [0, 1, 4]
  {
    ScenarioSplits();
    assert CpuSetCores("0,1") == [0, 1];
    assert CpuSetCores("4") == [4];
    assert ScenarioPods[..1] == [ScenarioPods[0]];
  }

  lemma ScenarioFreeLists(bits: seq<bool>)
    requires bits == [true, true, false, false, true, false, false, false]
    ensures FreeOffsets(bits) == [2, 3, 5, 6, 7]
    ensures Contiguous(bits, 2) == Ok([[2, 3], [5, 6, 7]])
  {
    assert FreeIn(bits, 0, 4) == [2, 3];
    assert FreeIn(bits, 4, 8) == [5, 6, 7];
    assert FreeIn(bits, 0, 8) == [2, 3, 5, 6, 7];
    assert ContiguousStart(0, 2, 8) == 0 && ContiguousStart(1, 2, 8) == 4 && ContiguousStart(2, 2, 8) == 8;
    var lists := Contiguous(bits, 2).value;
    assert |lists| == 2 && lists[0] == [2, 3] && lists[1] == [5, 6, 7];
    assert lists == [[2, 3], [5, 6, 7]];
  }

  /** The worked example: 8 cores split evenly over 2 NUMA nodes, cores 0, 1 and 4 already
      held, a request for 3 cores: the normal set is 2, 3, 5 and the NUMA set is 5, 6, 7 (NUMA
      node 0 has only 2 and 3 free). */
  lemma EightCoreScenario()
    requires WellFormed(Contiguous)
    ensures CpuSelection(Pod([3], OtherMode(""), "", ""), Node("node", 8, 2, "", []), ScenarioPods,
                         Contiguous, Contiguous)
         == Ok(CpuSets([2, 3, 5], [5, 6, 7]))
  {
    ScenarioBits();
    var bits := ReservedBits(8, ScenarioPods);
    ScenarioFreeLists(bits);
    ScenarioPicks();
    var node := Node("node", 8, 2, "", []);
    assert Sum([3]) == 3;
    assert NumaFree(node, ScenarioPods, Contiguous, Contiguous) == Contiguous(bits, 2);
  }

  lemma ScenarioBits()
    ensures ReservedBits(8, ScenarioPods) == [true, true, false, false, true, false, false, false]
  {
    ScenarioReserved();
  }

  lemma ScenarioPicks()
    ensures NormalSet([2, 3, 5, 6, 7], 3) == [2, 3, 5]
    ensures NumaSet([[2, 3], [5, 6, 7]], 2, 3) == [5, 6, 7]
  {
    assert FirstFitFrom([[2, 3], [5, 6, 7]], 0, 2, 3) == Some(1);
  }
}
