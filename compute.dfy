/** The part of the Azure Compute client the dashboard calls, as plain
    values. The subscription is a `Cloud` value that says what each call
    answers; every call a handler makes is recorded as an `Op`, so that "no
    cloud call was made" and "exactly this call was made" can be stated. */
module Compute {
  import opened Wrappers

  /** A VM is addressed by (resource group, VM name). */
  type VmKey = (string, string)

  /** An entry of `virtual_machines.list_all()`. */
  datatype Vm = Vm(id: string, name: string, location: Option<string>)

  datatype OsType = Linux | Windows

  /** `OperatingSystemTypes.value`. */
  function OsTypeName(t: OsType): string {
    match t
    case Linux => "Linux"
    case Windows => "Windows"
  }

  datatype HardwareProfile = HardwareProfile(vmSize: Option<string>)
  datatype OsDisk = OsDisk(osType: Option<OsType>)
  datatype StorageProfile = StorageProfile(osDisk: Option<OsDisk>)

  /** The answer of `virtual_machines.get(rg, name)`, reduced to the fields
      the details handler reads. */
  datatype VmRecord = VmRecord(name: string, location: string,
                               hardwareProfile: Option<HardwareProfile>,
                               storageProfile: Option<StorageProfile>)

  /** The four `begin_*` long-running operations. */
  datatype Lifecycle = BeginStart | BeginDeallocate | BeginRestart | BeginDelete

  /** One call into the compute client. */
  datatype Op =
    | ListAll
    | InstanceView(key: VmKey)
    | Get(key: VmKey)
    | Begin(call: Lifecycle, key: VmKey)

  /** What the subscription answers:
      - `vms`: the VMs `list_all()` yields, in order;
      - `views`: the status codes `instance_view(rg, name)` returns (a code
        may be missing); a key that is absent makes the call raise;
      - `records`: what `get(rg, name)` returns; an absent key makes it raise;
      - `refused`: the `begin_*` calls the provider rejects with an error. */
  datatype Cloud = Cloud(vms: seq<Vm>,
                         views: map<VmKey, seq<Option<string>>>,
                         records: map<VmKey, VmRecord>,
                         refused: set<Op>)
}
