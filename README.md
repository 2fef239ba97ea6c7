# Azure VM dashboard: verified model of the request core

The dashboard is a small Flask application. A single operator logs in and can
then list the virtual machines of one Azure subscription, see one VM's details,
see a tally of their power states, and start, stop (deallocate), restart or
delete a VM. Almost all of the application is glue over the Azure Compute SDK.
This project models the logic that sits between the HTTP requests and the SDK
calls:

- **Resource-group extraction** (`ResourceIds`). A VM's resource group is piece 4
  of its ARM resource ID split on `/`, or `""` when there is no such piece. The
  model proves that extraction inverts the assembly of an ID from `/`-free
  pieces, and that it returns the group of any ID of the form
  `/subscriptions/<s>/resourceGroups/<g>/...`.
- **Power-state resolution** (`PowerStates`). The first status code that is present
  and starts with `PowerState/` wins. Its lower-cased text after the last `/` is
  the state. Without such a code the state is `unknown`.
- **Inventory passes** (`Inventory`). The `/api/vms` listing and the
  `/api/vm/status-count` tally are loops over the VMs that `list_all` yields. A
  VM with an empty resource group is `unknown` and costs no instance-view call.
  The tally keeps `total == running + stopped + other` on every iteration.
- **Request gating and dispatch** (`Api`). Each of the five per-VM handlers checks
  the session first (401) and then the two required fields (400). Only a request
  that passes both reaches the compute client. A mutation makes exactly one
  `begin_*` call, and stop is `begin_deallocate`.
- **Session** (`App`). A `Dashboard` object holds the session map. `Login` with
  the hard-coded pair writes `user`, and `Logout` clears the map.
  `RequireLogin` holds exactly when `user` is present. The API handlers that
  read the session are methods of the same object.

The SDK is replaced by a `Cloud` value (module `Compute`). It holds:

- the VMs that `list_all` yields;
- the status codes that `instance_view` answers, keyed by (resource group, VM
  name), where an absent key means the call raises;
- the records that `get` answers, where an absent key again means the call
  raises;
- the set of `begin_*` calls the provider refuses.

Every handler also returns the list of calls (`Op`) it made, in order. That
list is how "no cloud call on rejection" and "exactly one operation" are
stated. Python's `lower()` is modelled on ASCII letters (`PyStr.Lower`).
`split("/")` is modelled as `PyStr.Split`, with its join round trip proved.

Two properties of `app.py` shape the model:

- `get_power_state` has no `try` (app.py:32-37). An instance-view call that
  raises therefore ends the whole listing or tally pass, and the handler
  answers 500. `ListVms` and `StatusCount` model that.
- The listing status is not an enumeration. It is whatever lower-cased text
  follows the last `/` of the first power-state code. Only the tally sorts
  it into three buckets.

## Model

| member | source | states |
|---|---|---|
| ResourceIds.ExtractRg | app.py:25-29 | the group never contains `/` and is `""` whenever the ID splits into fewer than five pieces |
| ResourceIds.ExtractRgOfJoin | app.py:27 | extraction inverts ID assembly: an ID joined from `/`-free pieces yields piece 4, or `""` when there are fewer than five pieces |
| ResourceIds.ExtractRgOfArmId | app.py:25-29 | any ID `<p0>/<p1>/<p2>/<p3>/<group>/<rest>` with `/`-free leading pieces yields `<group>`, whatever `<rest>` holds |
| ResourceIds.ExtractRgExample | app.py:25-29 | `/subscriptions/S/resourceGroups/my-rg/providers/Microsoft.Compute/virtualMachines/vm1` yields `my-rg` |
| ResourceIds.ExtractRgShortId | app.py:26-29 | an ID with only three `/` has no piece 4, so the extraction answers `""` |
| PowerStates.StateOfCode | app.py:36 | the state taken from a code is a `/`-free suffix of it, lower-cased, with no upper-case ASCII letter |
| PowerStates.StateOfCodeAfterLastSlash | app.py:36 | that suffix is the whole code or starts right after a `/`, so it is the text after the code's last `/` |
| PowerStates.StateAfterLastSlash | app.py:36 | a code `<head>/<x>` with `/`-free `<x>` yields `<x>` lower-cased, whatever `<head>` holds |
| PowerStates.StateOfNestedCode | app.py:36 | `PowerState/a/B` yields `b`: only the last piece counts |
| PowerStates.PowerStateOf | app.py:34-37 | the first present, non-empty code starting with `PowerState/` decides the state; with no such code the state is `unknown`; the state never contains `/` |
| PowerStates.StateOfPowerStateCode | app.py:35-36 | `PowerState/<x>` resolves to `<x>` lower-cased, and `PowerState/` alone resolves to `""` |
| PowerStates.FirstPowerStateWins | app.py:34-36 | entries after the first power-state code are ignored, as are the non-matching or missing codes before it |
| Inventory.ResolveUngroupedVm | app.py:89-90 | a VM whose ID splits into fewer than five pieces has the empty group, so it is `unknown` and costs no instance-view call |
| Inventory.ResolveGroupedVm | app.py:32-37 | for an ID `<p0>/<p1>/<p2>/<p3>/<g>/<rest>` with `/`-free pieces and `g` non-empty, the one call is `instance_view(g, name)`; resolution fails exactly when that call raises; otherwise the state comes from the first power-state code, or is `unknown` when there is none |
| Inventory.ResolveStep | app.py:89-90 | the step computes the VM's resolution and makes the instance-view call only when the group is non-empty |
| Inventory.CountState | app.py:247-252 | exactly the bucket of the state's classification grows by one; the other two counters are unchanged |
| Inventory.Classify | app.py:247-252 | `running` is the running bucket; `stopped` and `deallocated` are the stopped bucket; every other state is other |
| Inventory.ViewCalls | app.py:88-90 | a pass makes no more instance-view calls than there are VMs, each addressed to a non-empty resource group |
| Inventory.ViewCallsAppend | app.py:88-90 | the calls follow the order of the VMs: a pass over `a + b` makes those for `a`, then those for `b` |
| Inventory.ViewCallsCount | app.py:89-90 | a pass makes exactly as many instance-view calls as there are VMs whose ID carries a resource group |
| Inventory.CallOf | app.py:89-90 | every VM with a group gets its own call `instance_view(group, name)`, placed right after the calls for the VMs before it |
| Inventory.ViewCallsOnlyGrouped | app.py:89-90 | every call made is `instance_view(group, name)` of some VM whose ID carries that group |
| Inventory.ViewCallsEmpty | app.py:89-90 | a pass makes no instance-view call exactly when no VM's ID carries a resource group |
| Inventory.ViewCallsFull | app.py:89-90 | a pass makes one instance-view call per VM exactly when every VM's ID carries a resource group |
| Inventory.StatesResolve | app.py:244-245 | the resolved states are one per VM, in order, each the VM's own resolution |
| Inventory.ListingLists | app.py:88-97 | the listing has one entry per VM, in order, with the VM's name and location, the extracted group and the resolved state |
| Inventory.BucketsPartition | app.py:243-252 | each state falls into exactly one bucket, so the buckets sum to the number of VMs |
| Inventory.ListVms | app.py:86-99 | succeeds iff no instance-view call raises; on success, one entry per VM in order, with the VM's name and location, the extracted group, and the resolved state (`unknown` without a call when the group is empty); on failure, the pass stopped at the first raising call |
| Inventory.StatusCount | app.py:236-259 | succeeds iff no instance-view call raises; `total` is the number of VMs, each bucket counts the VMs whose state falls into it, `total == running + stopped + other`, and the calls are those of the listing pass |
| Api.VmSizeOf | app.py:122 | the size is present iff the hardware profile and its size are |
| Api.OsTypeOf | app.py:124-126 | the OS type is present iff the storage profile, its OS disk and the disk's OS type all are; it is `Linux` exactly when the disk says Linux and `Windows` exactly when the disk says Windows |
| Api.Perform | app.py:119-223 | details calls `get` first; when `get` raises, that is the only call and the answer is 500; otherwise it then calls `instance_view` and answers 200 with the VM's details exactly when neither raised. Start, stop, restart and delete each make exactly one call, `begin_start`, `begin_deallocate`, `begin_restart` or `begin_delete`, and answer 200 with "VM <action> initiated", or 500 when the call is refused |
| Api.Dispatch | app.py:107-228 | an anonymous request gets 401 and makes no call; an authenticated request missing a group or name gets 400 and makes no call; any other request makes calls; a mutation makes exactly one `begin_*` call on the requested VM (stop is `begin_deallocate`) and answers the fixed "initiated" message, or 500 when refused; details makes `get` and then `instance_view` when `get` answers, and only `get` when it raises |
| App.Dashboard.RequireLogin | app.py:40-41 | a request is authenticated exactly when the session holds `user`, which then holds the admin's email |
| App.Dashboard.Login | app.py:51-63 | only a POST with exactly `admin@gmail.com`/`admin123` writes `user` (Anonymous to Authenticated); any other POST leaves the session unchanged and shows "Invalid credentials" |
| App.Dashboard.Logout | app.py:66-69 | the session is emptied, so the state is Anonymous |
| App.Dashboard.ShowDashboard | app.py:73-77 | the dashboard page is shown iff the session holds `user`; otherwise the response redirects to the login page |
| App.Dashboard.ApiListVms | app.py:81-104 | an anonymous session gets 401 with no call; otherwise `list_all` comes first, and the response is the listing of the VMs, or 500 exactly when an instance-view call raised |
| App.Dashboard.ApiStatusCount | app.py:231-264 | an anonymous session gets 401 with no call; otherwise `list_all` comes first, and the response is the tally with `total == running + stopped + other`, or 500 exactly when an instance-view call raised |
| App.Dashboard.ApiVm | app.py:107-228 | the per-VM handlers gate on this session's `user` key: an anonymous session gets 401 with no call |

## Left out

- Flask plumbing: routing, `jsonify`, templates, `redirect`/`url_for`, the `/` route and `app.run`. Responses are (status, abstract body) values. A redirect is modelled as status 302.
- Azure credential and client set-up, `load_dotenv` and the environment reads: configuration and foreign calls.
- A failing `list_all` and a `get` or `begin_*` failure other than the modelled ones. The SDK's exception text is abstracted to one `UpstreamError` body. `HttpResponseError` and other exceptions are not told apart, since both answer 500.
- Python's full-Unicode `lower()`: only ASCII letters are lower-cased.
- Request bodies that are not JSON objects, and JSON fields that are not strings. `request.json` may raise on such a body, and the handler then answers 500. The model reads each field as a present-or-absent string.
- Completion of the `begin_*` long-running operations: app.py only starts them.
- The session's signing and expiry belong to Flask. `Dashboard.Valid` assumes that only this application writes the session.
