/** The vSphere objects an event exposes, and the best-effort lookup of the
    cluster a VM runs in (`get_cluster_name`). Each attribute the script probes
    is an `Attr`: absent, present but None, or present with a value. */
module VmEvents {
  import opened PyValues

  /** The host's parent container (a cluster or compute resource). */
  datatype Container = Container(name: Attr<string>)

  /** A host system. */
  datatype HostSystem = HostSystem(parent: Attr<Container>)

  /** A VM's runtime information. */
  datatype RuntimeInfo = RuntimeInfo(host: Attr<HostSystem>)

  /** A virtual machine reference. A reference that is not None is truthy. */
  datatype VirtualMachine = VirtualMachine(runtime: Attr<RuntimeInfo>)

  /** An event returned by the event query. `fullFormattedMessage` may be None;
      `createdTime` is carried as the text the CSV writer produces for it. */
  datatype Event = Event(
    fullFormattedMessage: Option<string>,
    createdTime: string,
    vm: Attr<VirtualMachine>,
    userName: Attr<string>)

  const UNKNOWN_CLUSTER: string := "Unknown Cluster"
  const NOT_AVAILABLE: string := "N/A"

  /** An attribute that is present and not None. */
  predicate Linked<T>(a: Attr<T>) {
    a.Present? && a.value.Some?
  }

  /** The object a linked attribute refers to. */
  function Target<T>(a: Attr<T>): T
    requires Linked(a)
  {
    a.value.value
  }

  /** The VM's runtime, host and host parent are all present and not None, and
      the parent has a `name` attribute (whose value may still be None). */
  predicate Resolves(vm: Option<VirtualMachine>) {
    && vm.Some?
    && Linked(vm.value.runtime)
    && Linked(Target(vm.value.runtime).host)
    && Linked(Target(Target(vm.value.runtime).host).parent)
    && Target(Target(Target(vm.value.runtime).host).parent).name.Present?
  }

  /** The value of `vm.runtime.host.parent.name` along a chain that resolves. */
  function ResolvedName(vm: Option<VirtualMachine>): Option<string>
    requires Resolves(vm)
  {
    Target(Target(Target(vm.value.runtime).host).parent).name.value
  }

  /** The body of the `try` block, evaluated as Python does: `Val(Some(n))` when it
      returns `n`, `Val(None)` when the `if` condition is false, and
      `AttributeError` when an attribute access raises. The condition
      short-circuits left to right: `vm` (None is falsy), `hasattr(vm, 'runtime')`,
      `vm.runtime.host` (None is falsy), `vm.runtime.host.parent`. */
  function TryClusterName(vm: Option<VirtualMachine>): Eval<Option<Option<string>>> {
    if vm.None? then Val(None)
    else if vm.value.runtime.Missing? then Val(None)
    else
      match ThenAttr(GetAttr(vm, (v: VirtualMachine) => v.runtime), (r: RuntimeInfo) => r.host)
      case AttributeError => AttributeError
      case Val(host) =>
        if host.None? then Val(None)
        else
          match GetAttr(host, (h: HostSystem) => h.parent)
          case AttributeError => AttributeError
          case Val(parent) =>
            if parent.None? then Val(None)
            else
              match GetAttr(parent, (c: Container) => c.name)
              case AttributeError => AttributeError
              case Val(name) => Val(Some(name))
  }

  /** `get_cluster_name(vm)`: the name of the VM's host's parent when the whole
      chain resolves, and "Unknown Cluster" otherwise; it never raises. */
  function GetClusterName(vm: Option<VirtualMachine>): (r: Option<string>)
    ensures Resolves(vm) ==> r == ResolvedName(vm)
    ensures !Resolves(vm) ==> r == Some(UNKNOWN_CLUSTER)
  {
    match TryClusterName(vm)
    case AttributeError => Some(UNKNOWN_CLUSTER)
    case Val(None) => Some(UNKNOWN_CLUSTER)
    case Val(Some(name)) => name
  }

  /** The cluster column for one event: "N/A" when the event has no `vm`
      attribute, `get_cluster_name(event.vm)` otherwise. */
  function ClusterCell(e: Event): (r: Option<string>)
    ensures e.vm.Missing? ==> r == Some(NOT_AVAILABLE)
    ensures e.vm == Present(None) ==> r == Some(UNKNOWN_CLUSTER)
    ensures e.vm.Present? && Resolves(e.vm.value) ==> r == ResolvedName(e.vm.value)
    ensures e.vm.Present? && !Resolves(e.vm.value) ==> r == Some(UNKNOWN_CLUSTER)
  {
    if e.vm.Present? then GetClusterName(e.vm.value) else Some(NOT_AVAILABLE)
  }

  /** The user column: `getattr(event, 'userName', 'N/A')`. */
  function UserCell(e: Event): (r: Option<string>)
    ensures e.userName.Missing? ==> r == Some(NOT_AVAILABLE)
    ensures e.userName.Present? ==> r == e.userName.value
  {
    match e.userName
    case Missing => Some(NOT_AVAILABLE)
    case Present(u) => u
  }

  /** An event with no `vm` attribute is told apart from one whose `vm` is None:
      the first gets "N/A", the second "Unknown Cluster". */
  lemma NoVmVersusNoneVm(e1: Event, e2: Event)
    requires e1.vm.Missing? && e2.vm == Present(None)
    ensures ClusterCell(e1) == Some(NOT_AVAILABLE)
    ensures ClusterCell(e2) == Some(UNKNOWN_CLUSTER)
    ensures ClusterCell(e1) != ClusterCell(e2)
  {
  }
}
