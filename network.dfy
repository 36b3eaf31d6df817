/** `AllocatePodNetwork`: the VM descriptor of the node assigned to a mac-vlan pod. The node's
    descriptors are scanned in order and the first one that no other mac-vlan pod holds, and
    that fits the address the pod asks for, is copied into the pod's network. */
module NetworkAlloc {
  import opened Api
  import opened Strings

  /** Some existing mac-vlan pod holds exactly `address`; pods in other modes hold nothing. */
  predicate AddressHeld(address: string, pods: seq<Pod>)
  {
    exists k :: 0 <= k < |pods| && pods[k].networkMode == MacVlan && pods[k].networkAddress == address
  }

  /** The descriptor address has a '/' and the text before its first '/' begins `requested`. */
  predicate PrefixMatches(requested: string, vmAddress: string)
    ensures PrefixMatches(requested, vmAddress) ==> '/' in vmAddress
  {
    SplitFirstPiece(vmAddress, '/');
    var parts := Split(vmAddress, '/');
    |parts| >= 2 && HasPrefix(requested, parts[0])
  }

  /** A descriptor the scan may take for `pod`: not held, and fitting the requested address
      when the pod asks for one. */
  predicate Eligible(vm: VmDescriptor, pod: Pod, pods: seq<Pod>)
  {
    !AddressHeld(vm.address, pods) &&
    (|pod.networkAddress| == 0 || PrefixMatches(pod.networkAddress, vm.address))
  }

  /** The first eligible descriptor at or after `from`. */
  function FirstEligibleFrom(vms: seq<VmDescriptor>, from: nat, pod: Pod, pods: seq<Pod>): (r: Option<nat>)
    ensures r.Some? ==>
      from <= r.value < |vms| && Eligible(vms[r.value], pod, pods) &&
      forall j :: from <= j < r.value ==> !Eligible(vms[j], pod, pods)
    ensures r.None? ==> forall j :: from <= j < |vms| ==> !Eligible(vms[j], pod, pods)
    decreases |vms| - from
  {
    if from >= |vms| then None
    else if Eligible(vms[from], pod, pods) then Some(from)
    else FirstEligibleFrom(vms, from + 1, pod, pods)
  }

  /** The pod's network built from a descriptor: the pod's mode, the descriptor's fields. */
  function AssignedNetwork(pod: Pod, vm: VmDescriptor): Network
  {
    Network(pod.networkMode, vm.address, vm.gateway, vm.macAddress, vm.vlanId)
  }

  /** The failure reported when no descriptor can be assigned. */
  function NoValidVms(node: Node): Error
  {
    Error("Can't find valid vms on node(" + node.name + ")")
  }

  /** What `AllocatePodNetwork` returns. */
  function NetworkSelection(pod: Pod, node: Node, pods: seq<Pod>): Result<Network>
  {
    if pod.networkMode != MacVlan then Ok(EmptyNetwork)
    else
      match FirstEligibleFrom(node.vms, 0, pod, pods)
      case None => Err(NoValidVms(node))
      case Some(i) =>
        if |node.vms[i].address| == 0 then Err(NoValidVms(node)) else Ok(AssignedNetwork(pod, node.vms[i]))
  }

  /** Scans the existing pods for a mac-vlan pod holding `address`. */
  method AddressInUse(address: string, pods: seq<Pod>) returns (used: bool)
    ensures used == AddressHeld(address, pods)
  {
    used := false;
    for k := 0 to |pods|
      invariant !used
      invariant forall m :: 0 <= m < k ==> !(pods[m].networkMode == MacVlan && pods[m].networkAddress == address)
    {
      if pods[k].networkMode != MacVlan {
        continue;
      }
      if address == pods[k].networkAddress {
        used := true;
        break;
      }
    }
  }

  /** The allocator. */
  method AllocatePodNetwork(pod: Pod, node: Node, pods: seq<Pod>) returns (r: Result<Network>)
    ensures r == NetworkSelection(pod, node, pods)
  {
    if pod.networkMode != MacVlan {
      return Ok(EmptyNetwork);
    }
    var used := false;
    var network := EmptyNetwork;
    for i := 0 to |node.vms|
      invariant network == EmptyNetwork
      invariant FirstEligibleFrom(node.vms, i, pod, pods) == FirstEligibleFrom(node.vms, 0, pod, pods)
    {
      var vm := node.vms[i];
      used := AddressInUse(vm.address, pods);
      if |pod.networkAddress| > 0 && !used {
        var parts := Split(vm.address, '/');
        if |parts| < 2 || !HasPrefix(pod.networkAddress, parts[0]) {
          continue;
        }
      }
      if !used {
        network := Network(pod.networkMode, vm.address, vm.gateway, vm.macAddress, vm.vlanId);
        break;
      }
    }
    if used || |network.address| == 0 {
      return Err(NoValidVms(node));
    }
    return Ok(network);
  }
}

/** What the network assignment promises, stated over `NetworkAlloc.NetworkSelection`. */
module NetworkAllocProperties {
  import opened Api
  import opened Strings
  import opened NetworkAlloc

  /** A pod not in mac-vlan mode gets the empty network and no error. */
  lemma NonMacVlanIsNoop(pod: Pod, node: Node, pods: seq<Pod>)
    requires pod.networkMode != MacVlan
    ensures NetworkSelection(pod, node, pods) == Ok(EmptyNetwork)
  {
  }

  /** A successful assignment copies the first eligible descriptor: its address is non-empty
      and held by no existing mac-vlan pod, and when the pod asks for an address the assigned
      one reads `p/...` where `p` has no '/' and begins the requested address. */
  lemma AssignedIsFirstEligible(pod: Pod, node: Node, pods: seq<Pod>)
    requires pod.networkMode == MacVlan
    requires NetworkSelection(pod, node, pods).Ok?
    ensures var net := NetworkSelection(pod, node, pods).value;
      (exists i :: 0 <= i < |node.vms| && Eligible(node.vms[i], pod, pods) &&
        (forall j :: 0 <= j < i ==> !Eligible(node.vms[j], pod, pods)) &&
        net == Network(MacVlan, node.vms[i].address, node.vms[i].gateway, node.vms[i].macAddress, node.vms[i].vlanId)) &&
      |net.address| > 0 &&
      (forall k :: 0 <= k < |pods| && pods[k].networkMode == MacVlan ==> pods[k].networkAddress != net.address) &&
      (|pod.networkAddress| > 0 ==>
        var p := Split(net.address, '/')[0];
        '/' !in p && HasPrefix(net.address, p + "/") && HasPrefix(pod.networkAddress, p))
  {
    var net := NetworkSelection(pod, node, pods).value;
    var i := FirstEligibleFrom(node.vms, 0, pod, pods).value;
    SplitFirstPiece(net.address, '/');
    var p := Split(net.address, '/')[0];
    if |pod.networkAddress| > 0 {
      assert net.address[..|p| + 1] == net.address[..|p|] + [net.address[|p|]];
    }
  }

  /** The call fails exactly when no descriptor is eligible or the first eligible one has an
      empty address (the scan stops there, so later descriptors are not tried); the failure
      names the node. */
  lemma FailsIffNoUsableDescriptor(pod: Pod, node: Node, pods: seq<Pod>)
    requires pod.networkMode == MacVlan
    ensures var r := NetworkSelection(pod, node, pods);
      (r.Err? <==>
        forall i :: (0 <= i < |node.vms| && Eligible(node.vms[i], pod, pods) &&
          (forall j :: 0 <= j < i ==> !Eligible(node.vms[j], pod, pods))) ==> |node.vms[i].address| == 0) &&
      (r.Err? ==> r.error == Error("Can't find valid vms on node(" + node.name + ")"))
  {
    var fit := FirstEligibleFrom(node.vms, 0, pod, pods);
    if fit.Some? {
      var i := fit.value;
      forall i' | 0 <= i' < |node.vms| && Eligible(node.vms[i'], pod, pods) &&
          (forall j :: 0 <= j < i' ==> !Eligible(node.vms[j], pod, pods))
        ensures i' == i
      {
      }
    }
  }

  /** Held addresses depend only on the mac-vlan pods. */
  lemma AddressHeldIgnoresOtherModes(address: string, pods: seq<Pod>, others: seq<Pod>)
    requires forall k :: 0 <= k < |others| ==> others[k].networkMode != MacVlan
    ensures AddressHeld(address, pods + others) == AddressHeld(address, pods)
  {
    if AddressHeld(address, pods + others) {
      var k :| 0 <= k < |pods + others| && (pods + others)[k].networkMode == MacVlan && (pods + others)[k].networkAddress == address;
      if k >= |pods| {
        assert false;
      }
    }
    if AddressHeld(address, pods) {
      var k :| 0 <= k < |pods| && pods[k].networkMode == MacVlan && pods[k].networkAddress == address;
      assert (pods + others)[k] == pods[k];
    }
  }

  /** Pods not in mac-vlan mode never make an address used: adding them to the node changes
      no assignment. */
  lemma OtherModePodsDoNotMatter(pod: Pod, node: Node, pods: seq<Pod>, others: seq<Pod>)
    requires forall k :: 0 <= k < |others| ==> others[k].networkMode != MacVlan
    ensures NetworkSelection(pod, node, pods + others) == NetworkSelection(pod, node, pods)
  {
    forall i | 0 <= i < |node.vms|
      ensures Eligible(node.vms[i], pod, pods + others) == Eligible(node.vms[i], pod, pods)
    {
      AddressHeldIgnoresOtherModes(node.vms[i].address, pods, others);
    }
  }

  /** A pod that asks for no address, on a node with one descriptor no mac-vlan pod holds, gets exactly that
      descriptor's fields. */
  lemma SingleFreeDescriptorIsAssigned(pod: Pod, node: Node, pods: seq<Pod>)
    requires pod.networkMode == MacVlan && pod.networkAddress == ""
    requires |node.vms| == 1 && node.vms[0].address != ""
    requires !AddressHeld(node.vms[0].address, pods)
    ensures NetworkSelection(pod, node, pods) ==
      Ok(Network(MacVlan, node.vms[0].address, node.vms[0].gateway, node.vms[0].macAddress, node.vms[0].vlanId))
  {
  }

  /** A pod asking for an address, on a node whose descriptor with that prefix is held and whose
      other descriptor is free but has another prefix, gets the failure. */
  lemma HeldMatchAndFreeMismatchFail(pod: Pod, node: Node, pods: seq<Pod>)
    requires pod.networkMode == MacVlan && |pod.networkAddress| > 0
    requires |node.vms| == 2
    requires AddressHeld(node.vms[0].address, pods) && PrefixMatches(pod.networkAddress, node.vms[0].address)
    requires !AddressHeld(node.vms[1].address, pods) && !PrefixMatches(pod.networkAddress, node.vms[1].address)
    ensures NetworkSelection(pod, node, pods) == Err(Error("Can't find valid vms on node(" + node.name + ")"))
  {
  }

  /** The same two descriptors in the other order also fail, this time because the last
      descriptor scanned is held. */
  lemma FreeMismatchAndHeldMatchFail(pod: Pod, node: Node, pods: seq<Pod>)
    requires pod.networkMode == MacVlan && |pod.networkAddress| > 0
    requires |node.vms| == 2
    requires !AddressHeld(node.vms[0].address, pods) && !PrefixMatches(pod.networkAddress, node.vms[0].address)
    requires AddressHeld(node.vms[1].address, pods) && PrefixMatches(pod.networkAddress, node.vms[1].address)
    ensures NetworkSelection(pod, node, pods) == Err(Error("Can't find valid vms on node(" + node.name + ")"))
  {
  }
}
