/** The slice of the cluster API objects that the per-node allocator reads and writes. */
module Api {

  /** A failure value, carrying the message Go's `error` would carry. */
  datatype Error = Error(message: string)

  datatype Result<T> = Ok(value: T) | Err(error: Error)

  datatype Option<T> = None | Some(value: T)

  /** A pod's network mode: the dedicated-address mac-vlan mode, or any other mode by name
      (`OtherMode("")` is the zero value of the mode field). */
  datatype NetworkMode = MacVlan | OtherMode(name: string)

  /** A pod-scoped network assignment (api.Network). */
  datatype Network = Network(mode: NetworkMode, address: string, gateway: string, macAddress: string, vlanId: int)

  /** The zero value `api.Network{}`. */
  const EmptyNetwork: Network := Network(OtherMode(""), "", "", "", 0)

  /** One allocatable virtual network endpoint of a node. */
  datatype VmDescriptor = VmDescriptor(address: string, gateway: string, macAddress: string, vlanId: int)

  /** What the allocator reads of a pod: the per-container CPU core requests, the network mode
      of its spec, and the CPU set and network address recorded in its status. For the pod being
      scheduled, `networkAddress` is the address it asks for (empty when it asks for none). */
  datatype Pod = Pod(cpuRequests: seq<int>, networkMode: NetworkMode, cpuSet: string, networkAddress: string)

  /** What the allocator reads of a node: its name, allocatable core count, declared NUMA node
      count, topology flag and VM descriptors, in the node's order. */
  datatype Node = Node(name: string, cores: nat, numaNodes: int, topological: string, vms: seq<VmDescriptor>)
}
