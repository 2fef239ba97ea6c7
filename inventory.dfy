/** The two passes over the subscription's VMs: the listing behind
    `/api/vms` (`list_vms`) and the tally behind `/api/vm/status-count`
    (`vm_status_count`). Both take each VM's resource group from its ID and
    ask for its power state only when that group is non-empty; a VM without
    a group is `unknown`. An instance-view call that raises is not caught in
    the pass: it ends the pass, and the handler answers 500. */
module Inventory {
  import opened Wrappers
  import opened Compute
  import opened ResourceIds
  import opened PowerStates
  import opened PyStr
  import opened Seqs

  /** One entry of the `/api/vms` listing. */
  datatype VmSummary = VmSummary(name: string, resourceGroup: string, status: string,
                                 location: Option<string>)

  /** The body of `/api/vm/status-count`. */
  datatype Tally = Tally(total: nat, running: nat, stopped: nat, other: nat)

  datatype Bucket = Running | Stopped | Other

  /** The tally's buckets: `running` is running, `stopped` and `deallocated`
      are stopped, every other state (`unknown` and `""` among them) is other. */
  function Classify(state: string): (b: Bucket)
    ensures b == Running <==> state == "running"
    ensures b == Stopped <==> state == "stopped" || state == "deallocated"
  {
    if state == "running" then Running
    else if state == "stopped" || state == "deallocated" then Stopped
    else Other
  }

  /** `get_power_state(rg, name)`: `None` when the instance-view call raises. */
  function GetPowerState(views: map<VmKey, seq<Option<string>>>, rg: string, name: string)
    : Option<string>
  {
    if (rg, name) in views then Some(PowerStateOf(views[(rg, name)])) else None
  }

  /** `get_power_state(rg, vm.name) if rg else "unknown"` for one listed VM. */
  function ResolveVm(vm: Vm, views: map<VmKey, seq<Option<string>>>): Option<string> {
    var rg := ExtractRg(vm.id);
    if rg == "" then Some(Unknown) else GetPowerState(views, rg, vm.name)
  }

  /** A VM whose ID splits into fewer than five pieces has no resource
      group: it is `unknown`, and resolving it makes no instance-view call. */
  lemma ResolveUngroupedVm(vm: Vm, views: map<VmKey, seq<Option<string>>>)
    requires |Split(vm.id, '/')| < 5
    ensures ResolveVm(vm, views) == Some(Unknown) && StepCalls(vm) == []
  {
  }

  /** A VM whose ARM ID names a non-empty group in its fifth piece is looked
      up by that group and its name: the one instance-view call goes there,
      it fails exactly when that call raises, and otherwise the first
      power-state code decides the state (`unknown` without one). */
  lemma ResolveGroupedVm(vm: Vm, views: map<VmKey, seq<Option<string>>>,
                         p0: string, p1: string, p2: string, p3: string, group: string, rest: string)
    requires '/' !in p0 && '/' !in p1 && '/' !in p2 && '/' !in p3 && '/' !in group && group != ""
    requires vm.id == p0 + "/" + p1 + "/" + p2 + "/" + p3 + "/" + group + "/" + rest
    ensures StepCalls(vm) == [InstanceView((group, vm.name))]
    ensures ResolveVm(vm, views).None? <==> (group, vm.name) !in views
    ensures (group, vm.name) in views ==>
              var codes := views[(group, vm.name)];
              ((forall i :: 0 <= i < |codes| ==> !IsPowerStateCode(codes[i])) ==>
                 ResolveVm(vm, views) == Some(Unknown)) &&
              (forall i :: 0 <= i < |codes| && IsPowerStateCode(codes[i])
                           && (forall j :: 0 <= j < i ==> !IsPowerStateCode(codes[j]))
                           ==> ResolveVm(vm, views) == Some(StateOfCode(codes[i].value)))
  {
    ExtractRgOfArmId(p0, p1, p2, p3, group, rest);
  }

  /** Every VM's power state can be resolved: no instance-view call raises. */
  predicate AllResolve(vms: seq<Vm>, views: map<VmKey, seq<Option<string>>>) {
    forall i :: 0 <= i < |vms| ==> ResolveVm(vms[i], views).Some?
  }

  /** VM `k` is the first whose instance-view call raises. */
  predicate FailsFirstAt(vms: seq<Vm>, views: map<VmKey, seq<Option<string>>>, k: int) {
    0 <= k < |vms| && ResolveVm(vms[k], views).None? && AllResolve(vms[..k], views)
  }

  /** The instance-view call resolving one VM makes: none when its resource
      group is empty. */
  function StepCalls(vm: Vm): seq<Op> {
    var rg := ExtractRg(vm.id);
    if rg == "" then [] else [InstanceView((rg, vm.name))]
  }

  /** The instance-view calls a pass over `vms` makes, in order: one for each
      VM whose resource group is non-empty, addressed by that group and the
      VM's name. */
  function ViewCalls(vms: seq<Vm>): (calls: seq<Op>)
    ensures |calls| <= |vms|
    ensures forall k :: 0 <= k < |calls| ==> calls[k].InstanceView? && calls[k].key.0 != ""
  {
    if vms == [] then []
    else ViewCalls(vms[..|vms| - 1]) + StepCalls(vms[|vms| - 1])
  }

  /** A pass makes no instance-view call exactly when no VM has a resource
      group. */
  lemma {:induction false} ViewCallsEmpty(vms: seq<Vm>)
    ensures |ViewCalls(vms)| == 0 <==> forall i :: 0 <= i < |vms| ==> ExtractRg(vms[i].id) == ""
  {
    if vms != [] {
      var init, last := vms[..|vms| - 1], vms[|vms| - 1];
      ViewCallsEmpty(init);
      assert ViewCalls(vms) == ViewCalls(init) + StepCalls(last);
      if |ViewCalls(vms)| == 0 {
        assert |ViewCalls(init)| == 0 && |StepCalls(last)| == 0;
        assert ExtractRg(last.id) == "";
        forall i | 0 <= i < |vms| ensures ExtractRg(vms[i].id) == "" {
          if i < |init| {
            assert init[i] == vms[i] && ExtractRg(init[i].id) == "";
          } else {
            assert i == |init|;
          }
        }
      } else if |ViewCalls(init)| != 0 {
        var i :| 0 <= i < |init| && ExtractRg(init[i].id) != "";
        assert init[i] == vms[i];
      } else {
        assert |StepCalls(last)| != 0;
        assert ExtractRg(vms[|vms| - 1].id) != "";
      }
    }
  }

  /** A pass makes one instance-view call per VM exactly when every VM has a
      resource group. */
  lemma {:induction false} ViewCallsFull(vms: seq<Vm>)
    ensures |ViewCalls(vms)| == |vms| <==> forall i :: 0 <= i < |vms| ==> ExtractRg(vms[i].id) != ""
  {
    if vms != [] {
      var init, last := vms[..|vms| - 1], vms[|vms| - 1];
      ViewCallsFull(init);
      assert ViewCalls(vms) == ViewCalls(init) + StepCalls(last);
      assert |StepCalls(last)| <= 1;
      if |ViewCalls(vms)| == |vms| {
        assert |ViewCalls(init)| == |init| && |StepCalls(last)| == 1;
        assert ExtractRg(last.id) != "";
        forall i | 0 <= i < |vms| ensures ExtractRg(vms[i].id) != "" {
          if i < |init| {
            assert init[i] == vms[i] && ExtractRg(init[i].id) != "";
          } else {
            assert i == |init|;
          }
        }
      } else if |ViewCalls(init)| != |init| {
        var i :| 0 <= i < |init| && ExtractRg(init[i].id) == "";
        assert init[i] == vms[i];
      } else {
        assert StepCalls(last) == [];
        assert ExtractRg(vms[|vms| - 1].id) == "";
      }
    }
  }

  /** How many VMs have an ID that carries a resource group. */
  function GroupCount(vms: seq<Vm>): (n: nat)
    ensures n <= |vms|
  {
    if vms == [] then 0
    else (if ExtractRg(vms[0].id) != "" then 1 else 0) + GroupCount(vms[1..])
  }

  /** The instance-view call that resolving `vm` makes when its ID carries
      a resource group. */
  function CallFor(vm: Vm): Op {
    InstanceView((ExtractRg(vm.id), vm.name))
  }

  /** A pass over `a + b` makes the calls of a pass over `a`, then those of
      a pass over `b`: the calls follow the order of the VMs. */
  lemma {:induction false} ViewCallsAppend(a: seq<Vm>, b: seq<Vm>)
    ensures ViewCalls(a + b) == ViewCalls(a) + ViewCalls(b)
    decreases |b|
  {
    if b == [] {
      assert a + b == a;
    } else {
      var init, last := b[..|b| - 1], b[|b| - 1];
      ViewCallsAppend(a, init);
      var ab := a + b;
      ViewCallsLast(ab);
      DropLastOfAppend(a, b);
      calc {
        ViewCalls(ab);
        ViewCalls(ab[..|ab| - 1]) + StepCalls(ab[|ab| - 1]);
        ViewCalls(a + init) + StepCalls(last);
        (ViewCalls(a) + ViewCalls(init)) + StepCalls(last);
        { AppendAssoc(ViewCalls(a), ViewCalls(init), StepCalls(last)); }
        ViewCalls(a) + (ViewCalls(init) + StepCalls(last));
        ViewCalls(a) + ViewCalls(b);
      }
    }
  }

  /** A non-empty pass ends with the calls for its last VM. */
  lemma ViewCallsLast(vms: seq<Vm>)
    requires vms != []
    ensures ViewCalls(vms) == ViewCalls(vms[..|vms| - 1]) + StepCalls(vms[|vms| - 1])
  {
  }

  /** A pass makes exactly as many instance-view calls as there are VMs
      with a resource group. */
  lemma {:induction false} ViewCallsCount(vms: seq<Vm>)
    ensures |ViewCalls(vms)| == GroupCount(vms)
    decreases |vms|
  {
    if vms != [] {
      ViewCallsCount(vms[1..]);
      HeadTailAppend(vms);
      ViewCallsAppend([vms[0]], vms[1..]);
      assert [vms[0]][..0] == [];
      assert ViewCalls([vms[0]]) == StepCalls(vms[0]);
    }
  }

  /** VM `i`'s call, made when its ID carries a resource group, comes right
      after the calls for the VMs before it. */
  lemma CallOf(vms: seq<Vm>, i: nat)
    requires i < |vms| && ExtractRg(vms[i].id) != ""
    ensures |ViewCalls(vms[..i])| < |ViewCalls(vms)|
    ensures ViewCalls(vms)[|ViewCalls(vms[..i])|] == CallFor(vms[i])
  {
    TakeDropAppend(vms, i + 1);
    ViewCallsAppend(vms[..i + 1], vms[i + 1..]);
    ViewCallsLast(vms[..i + 1]);
    PrefixStep(vms, i);
    var before := ViewCalls(vms[..i]);
    assert StepCalls(vms[i]) == [CallFor(vms[i])];
    assert ViewCalls(vms) == (before + [CallFor(vms[i])]) + ViewCalls(vms[i + 1..]);
  }

  /** Every call a pass makes is the call of some VM with a resource group. */
  lemma {:induction false} ViewCallsOnlyGrouped(vms: seq<Vm>)
    ensures forall k :: 0 <= k < |ViewCalls(vms)| ==>
              exists i :: 0 <= i < |vms| && ExtractRg(vms[i].id) != "" && ViewCalls(vms)[k] == CallFor(vms[i])
  {
    if vms != [] {
      var init, last := vms[..|vms| - 1], vms[|vms| - 1];
      var n := |init|;
      ViewCallsOnlyGrouped(init);
      var calls, before, step := ViewCalls(vms), ViewCalls(init), StepCalls(last);
      assert calls == before + step;
      forall k | 0 <= k < |calls|
        ensures exists i :: 0 <= i < |vms| && ExtractRg(vms[i].id) != "" && calls[k] == CallFor(vms[i])
      {
        if k < |before| {
          assert exists i :: 0 <= i < |init| && ExtractRg(init[i].id) != "" && ViewCalls(init)[k] == CallFor(init[i]);
          var i :| 0 <= i < |init| && ExtractRg(init[i].id) != "" && ViewCalls(init)[k] == CallFor(init[i]);
          assert calls[k] == before[k] && vms[i] == init[i];
        } else {
          assert ExtractRg(vms[n].id) != "" && calls[k] == CallFor(vms[n]);
        }
      }
    } else {
      assert ViewCalls(vms) == [];
    }
  }

  /** One step of a pass over `vms`: VM `i` either resolves or is the first
      VM to fail. */
  lemma PassStep(vms: seq<Vm>, views: map<VmKey, seq<Option<string>>>, i: nat)
    requires i < |vms| && AllResolve(vms[..i], views)
    ensures ResolveVm(vms[i], views).None? ==> FailsFirstAt(vms, views, i)
    ensures ResolveVm(vms[i], views).Some? ==> AllResolve(vms[..i + 1], views)
  {
    var pre, next := vms[..i], vms[..i + 1];
    assert next[..i] == pre && |next| - 1 == i;
    if ResolveVm(vms[i], views).Some? {
      forall k | 0 <= k < i + 1 ensures ResolveVm(next[k], views).Some? {
        if k < i {
          assert next[k] == pre[k];
        } else {
          assert k == i;
        }
      }
    }
  }

  /** The resolved power states of all VMs, in order. */
  function States(vms: seq<Vm>, views: map<VmKey, seq<Option<string>>>): (states: seq<string>)
    requires AllResolve(vms, views)
    ensures |states| == |vms|
  {
    if vms == [] then []
    else
      var init := vms[..|vms| - 1];
      assert forall i :: 0 <= i < |init| ==> init[i] == vms[i];
      States(init, views) + [ResolveVm(vms[|vms| - 1], views).value]
  }

  /** The state at position `i` is VM `i`'s own resolved state. */
  lemma {:induction false} StateAt(vms: seq<Vm>, views: map<VmKey, seq<Option<string>>>, i: nat)
    requires AllResolve(vms, views) && i < |vms|
    ensures ResolveVm(vms[i], views) == Some(States(vms, views)[i])
    decreases |vms|
  {
    var init := vms[..|vms| - 1];
    assert forall k :: 0 <= k < |init| ==> init[k] == vms[k];
    var states := States(vms, views);
    assert states == States(init, views) + [ResolveVm(vms[|vms| - 1], views).value];
    if i < |init| {
      StateAt(init, views, i);
      assert init[i] == vms[i] && states[i] == States(init, views)[i];
    } else {
      assert i == |vms| - 1 && ResolveVm(vms[i], views).Some?;
      assert states[i] == ResolveVm(vms[i], views).value;
    }
  }

  /** The resolved states are one per VM, in order, each that VM's own. */
  lemma {:induction false} StatesResolve(vms: seq<Vm>, views: map<VmKey, seq<Option<string>>>)
    requires AllResolve(vms, views)
    ensures forall i :: 0 <= i < |vms| ==> ResolveVm(vms[i], views) == Some(States(vms, views)[i])
  {
    forall i | 0 <= i < |vms| ensures ResolveVm(vms[i], views) == Some(States(vms, views)[i]) {
      StateAt(vms, views, i);
    }
  }

  /** Resolving one more VM appends its state. */
  lemma StatesExtend(vms: seq<Vm>, views: map<VmKey, seq<Option<string>>>, i: nat)
    requires i < |vms|
    requires AllResolve(vms[..i], views) && ResolveVm(vms[i], views).Some?
    ensures AllResolve(vms[..i + 1], views)
    ensures States(vms[..i + 1], views) == States(vms[..i], views) + [ResolveVm(vms[i], views).value]
  {
    assert vms[..i + 1][..i] == vms[..i];
  }

  /** How many of `states` fall into bucket `b`. */
  function CountIn(states: seq<string>, b: Bucket): (n: nat)
    ensures n <= |states|
  {
    if states == [] then 0
    else CountIn(states[..|states| - 1], b) + (if Classify(states[|states| - 1]) == b then 1 else 0)
  }

  /** Adding one state adds one to its own bucket and nothing to the others. */
  lemma CountExtend(states: seq<string>, state: string, b: Bucket)
    ensures CountIn(states + [state], b) == CountIn(states, b) + (if Classify(state) == b then 1 else 0)
  {
  }

  /** Every state falls into exactly one bucket, so the buckets add up to
      the number of states. */
  lemma {:induction false} BucketsPartition(states: seq<string>)
    ensures CountIn(states, Running) + CountIn(states, Stopped) + CountIn(states, Other) == |states|
  {
    if states != [] {
      BucketsPartition(states[..|states| - 1]);
    }
  }

  /** `entries` is the listing of `vms`: one entry per VM in the same order,
      with the VM's name and location, the resource group from its ID and
      its resolved state. */
  predicate IsListingOf(entries: seq<VmSummary>, vms: seq<Vm>, views: map<VmKey, seq<Option<string>>>) {
    |entries| == |vms| &&
    forall i :: 0 <= i < |vms| ==> IsEntryOf(entries[i], vms[i], views)
  }

  /** `entry` lists `vm`: its name and location, the resource group from its
      ID and its resolved state. */
  predicate IsEntryOf(entry: VmSummary, vm: Vm, views: map<VmKey, seq<Option<string>>>) {
    entry.name == vm.name && entry.resourceGroup == ExtractRg(vm.id) &&
    entry.location == vm.location && ResolveVm(vm, views) == Some(entry.status)
  }

  /** `t` is the tally of `vms`: `total` is the number of VMs and each
      bucket counts the VMs whose resolved state falls into it. */
  predicate IsTallyOf(t: Tally, vms: seq<Vm>, views: map<VmKey, seq<Option<string>>>)
    requires AllResolve(vms, views)
  {
    t.total == |vms| &&
    t.running == CountIn(States(vms, views), Running) &&
    t.stopped == CountIn(States(vms, views), Stopped) &&
    t.other == CountIn(States(vms, views), Other)
  }

  /** The listing of `vms` whose states all resolve: one entry per VM, in order. */
  function Entries(vms: seq<Vm>, views: map<VmKey, seq<Option<string>>>): (entries: seq<VmSummary>)
    requires AllResolve(vms, views)
    ensures |entries| == |vms|
  {
    if vms == [] then []
    else
      var init, last := vms[..|vms| - 1], vms[|vms| - 1];
      assert forall i :: 0 <= i < |init| ==> init[i] == vms[i];
      Entries(init, views) + [VmSummary(last.name, ExtractRg(last.id), ResolveVm(last, views).value, last.location)]
  }

  /** The entry at position `i` lists VM `i`. */
  lemma {:induction false} EntryAt(vms: seq<Vm>, views: map<VmKey, seq<Option<string>>>, i: nat)
    requires AllResolve(vms, views) && i < |vms|
    ensures IsEntryOf(Entries(vms, views)[i], vms[i], views)
    decreases |vms|
  {
    var init, last := vms[..|vms| - 1], vms[|vms| - 1];
    assert forall k :: 0 <= k < |init| ==> init[k] == vms[k];
    assert Entries(vms, views) ==
           Entries(init, views) + [VmSummary(last.name, ExtractRg(last.id), ResolveVm(last, views).value, last.location)];
    var entries := Entries(vms, views);
    if i < |init| {
      EntryAt(init, views, i);
      assert init[i] == vms[i] && entries[i] == Entries(init, views)[i];
    } else {
      assert i == |vms| - 1 && ResolveVm(vms[i], views).Some?;
      assert entries[i] == VmSummary(last.name, ExtractRg(last.id), ResolveVm(last, views).value, last.location);
    }
  }

  /** `Entries` is a listing of the VMs in the sense of `IsListingOf`. */
  lemma {:induction false} ListingLists(vms: seq<Vm>, views: map<VmKey, seq<Option<string>>>)
    requires AllResolve(vms, views)
    ensures IsListingOf(Entries(vms, views), vms, views)
  {
    forall i | 0 <= i < |vms| ensures IsEntryOf(Entries(vms, views)[i], vms[i], views) {
      EntryAt(vms, views, i);
    }
  }

  /** Listing one more VM appends its entry. */
  lemma ListingExtend(vms: seq<Vm>, views: map<VmKey, seq<Option<string>>>, i: nat)
    requires i < |vms|
    requires AllResolve(vms[..i], views) && ResolveVm(vms[i], views).Some?
    ensures AllResolve(vms[..i + 1], views)
    ensures Entries(vms[..i + 1], views) ==
            Entries(vms[..i], views) + [VmSummary(vms[i].name, ExtractRg(vms[i].id), ResolveVm(vms[i], views).value, vms[i].location)]
  {
    assert vms[..i + 1][..i] == vms[..i];
  }

  /** The calls of a pass that stopped at the first VM whose instance-view
      call raised, that call being the last one made. */
  predicate FailedPass(vms: seq<Vm>, views: map<VmKey, seq<Option<string>>>, calls: seq<Op>) {
    exists k :: 0 <= k < |vms| && FailsFirstAt(vms, views, k) && calls == ViewCalls(vms[..k + 1])
  }

  /** Resolving one VM of a pass: its resource group from its ID, then its
      power state unless that group is empty. Answers the calls made and the
      state, `None` when the instance-view call raised. */
  method ResolveStep(vm: Vm, views: map<VmKey, seq<Option<string>>>)
    returns (state: Option<string>, calls: seq<Op>)
    ensures state == ResolveVm(vm, views) && calls == StepCalls(vm)
  {
    var rg := ExtractRg(vm.id);
    if rg == "" {
      return Some(Unknown), [];
    }
    calls := [InstanceView((rg, vm.name))];
    if (rg, vm.name) !in views {
      return None, calls;
    }
    state := Some(PowerStateOf(views[(rg, vm.name)]));
  }

  /** The `/api/vms` pass. On success, one entry per listed VM in the same
      order, with the VM's name and location, the resource group from its ID
      and its resolved state; the calls are the instance-view calls of the
      whole pass. On failure, the pass stopped at the first VM whose
      instance-view call raised, that call being the last one made. */
  method ListVms(vms: seq<Vm>, views: map<VmKey, seq<Option<string>>>)
    returns (listing: Option<seq<VmSummary>>, calls: seq<Op>)
    ensures listing.Some? <==> AllResolve(vms, views)
    ensures listing.Some? ==> IsListingOf(listing.value, vms, views) && calls == ViewCalls(vms)
    ensures listing.None? ==> FailedPass(vms, views, calls)
  {
    var entries: seq<VmSummary> := [];
    calls := [];
    var i := 0;
    while i < |vms|
      invariant 0 <= i <= |vms|
      invariant AllResolve(vms[..i], views)
      invariant calls == ViewCalls(vms[..i])
      invariant entries == Entries(vms[..i], views)
    {
      var vm := vms[i];
      PassStep(vms, views, i);
      ViewCallsLast(vms[..i + 1]);
      PrefixStep(vms, i);
      var status, made := ResolveStep(vm, views);
      calls := calls + made;
      if status.None? {
        assert FailsFirstAt(vms, views, i) && calls == ViewCalls(vms[..i + 1]);
        listing := None;
        return;
      }
      ListingExtend(vms, views, i);
      entries := entries + [VmSummary(vm.name, ExtractRg(vm.id), status.value, vm.location)];
      i := i + 1;
    }
    assert vms[..i] == vms;
    ListingLists(vms, views);
    listing := Some(entries);
  }

  /** The `if`/`elif`/`else` of the tally: one state adds one to exactly
      the counter of its bucket. */
  method CountState(state: string, running: nat, stopped: nat, other: nat)
    returns (running': nat, stopped': nat, other': nat)
    ensures running' == running + (if Classify(state) == Running then 1 else 0)
    ensures stopped' == stopped + (if Classify(state) == Stopped then 1 else 0)
    ensures other' == other + (if Classify(state) == Other then 1 else 0)
  {
    running', stopped', other' := running, stopped, other;
    if state == "running" {
      running' := running + 1;
    } else if state == "stopped" || state == "deallocated" {
      stopped' := stopped + 1;
    } else {
      other' := other + 1;
    }
  }

  /** The `/api/vm/status-count` pass. On success, `total` is the number of
      VMs, each bucket counts the VMs whose resolved state falls into it, and
      `total == running + stopped + other`; it makes the same calls as the
      listing pass and fails on the same inputs. */
  method StatusCount(vms: seq<Vm>, views: map<VmKey, seq<Option<string>>>)
    returns (tally: Option<Tally>, calls: seq<Op>)
    ensures tally.Some? <==> AllResolve(vms, views)
    ensures tally.Some? ==> IsTallyOf(tally.value, vms, views) && calls == ViewCalls(vms)
    ensures tally.Some? ==> tally.value.total == tally.value.running + tally.value.stopped + tally.value.other
    ensures tally.None? ==> FailedPass(vms, views, calls)
  {
    var total, running, stopped, other := 0, 0, 0, 0;
    calls := [];
    ghost var seen: seq<string> := [];
    var i := 0;
    while i < |vms|
      invariant 0 <= i <= |vms|
      invariant AllResolve(vms[..i], views) && seen == States(vms[..i], views)
      invariant calls == ViewCalls(vms[..i])
      invariant total == i
      invariant total == running + stopped + other
      invariant running == CountIn(seen, Running)
      invariant stopped == CountIn(seen, Stopped)
      invariant other == CountIn(seen, Other)
    {
      total := total + 1;
      var vm := vms[i];
      PassStep(vms, views, i);
      ViewCallsLast(vms[..i + 1]);
      PrefixStep(vms, i);
      var resolved, made := ResolveStep(vm, views);
      calls := calls + made;
      if resolved.None? {
        assert FailsFirstAt(vms, views, i) && calls == ViewCalls(vms[..i + 1]);
        tally := None;
        return;
      }
      var state := resolved.value;
      running, stopped, other := CountState(state, running, stopped, other);
      StatesExtend(vms, views, i);
      CountExtend(seen, state, Running);
      CountExtend(seen, state, Stopped);
      CountExtend(seen, state, Other);
      seen := seen + [state];
      i := i + 1;
    }
    assert vms[..i] == vms;
    tally := Some(Tally(total, running, stopped, other));
  }
}
