// The three copies of the relay configuration: the tables, the running core
// and the kernel's address list, with the primitive steps that change them.
module RelayPanel {
  import opened RelayItems
  import RouteRules

  // `bind` is the IPv6 address an outbound sends from, `upstream` the server it
  // sends to, if it sets one.
  datatype Outbound = Outbound(
    kind: string, bind: Option<Address>, strategy: string, upstream: Option<Upstream>, other: string)

  // The client row made for an item; names need not be unique.
  datatype ClientRow = ClientRow(name: string, inbound: string)

  datatype Pool = Pool(
    mode: Mode, items: seq<RelayItem>,
    rotationEnabled: bool, rotationInterval: int, lastRotatedAt: int, nextRotateAt: int,
    other: string)

  datatype Inbound = Inbound(port: int, other: string)

  datatype Change = Change(actor: string, action: string, pool: nat, count: nat, inboundTag: string)

  datatype Tables = Tables(
    settings: RouteRules.Config,
    inbounds: map<string, Inbound>,
    outbounds: map<string, Outbound>,
    clients: seq<ClientRow>,
    pools: map<nat, Pool>,
    links: map<(nat, string), int>,     // refresh links: when each was last rotated
    changes: seq<Change>)

  // What the core is started with.
  datatype CoreConfig = CoreConfig(
    settings: RouteRules.Config, inbounds: map<string, Inbound>,
    outbounds: map<string, Outbound>, clients: seq<ClientRow>)

  function BuildConfig(t: Tables): CoreConfig {
    CoreConfig(t.settings, t.inbounds, t.outbounds, t.clients)
  }

  // An address on an interface.
  type KernelEntry = (string, Address)

  datatype Moment = Moment(running: Option<CoreConfig>, kernel: set<KernelEntry>)

  ghost function Bound(outbounds: map<string, Outbound>): set<Address> {
    set tag | tag in outbounds && outbounds[tag].bind.Some? :: outbounds[tag].bind.value
  }

  ghost function Assigned(kernel: set<KernelEntry>): set<Address> {
    set e | e in kernel :: e.1
  }

  // The address an item's IPv6 outbound is to send from.
  function BindOf(item: RelayItem): Option<Address> {
    if item.ipv6.Valid? then Some(item.ipv6.addr) else None
  }

  // The IPv4 outbound of a paired item, with the item's own upstream.
  function ProxyOutbound(item: RelayItem): Outbound {
    Outbound("socks", None, IPV4_ONLY, Some(item.upstream), "")
  }

  // The addresses an interface listing shows.
  function Detected(kernel: set<KernelEntry>, visible: KernelEntry -> bool): set<Address> {
    set e | e in kernel && visible(e) :: e.1
  }

  // The kernel entry of an item, if it has one.
  function Entry(item: RelayItem): set<KernelEntry> {
    if item.ipv6.Valid? && item.iface != "" then {(item.iface, item.ipv6.addr)} else {}
  }

  // The item's address on its interface, field by field.
  predicate Occupies(item: RelayItem, e: KernelEntry) {
    item.iface != "" && item.iface == e.0 && item.ipv6 == Valid(e.1)
  }

  function Entries(items: seq<RelayItem>): set<KernelEntry> {
    if items == [] then {} else Entries(items[..|items| - 1]) + Entry(items[|items| - 1])
  }

  // The entries a batch removal takes away when the removals in `works` succeed.
  function Removed(items: seq<RelayItem>, works: nat -> bool): set<KernelEntry> {
    if items == [] then {}
    else Removed(items[..|items| - 1], works) + if works(|items| - 1) then Entry(items[|items| - 1]) else {}
  }

  lemma {:induction false} RemovedWithin(items: seq<RelayItem>, works: nat -> bool)
    ensures Removed(items, works) <= Entries(items)
    ensures (forall i: nat :: i < |items| ==> works(i)) ==> Removed(items, works) == Entries(items)
  {
    if items != [] {
      RemovedWithin(items[..|items| - 1], works);
    }
  }

  lemma {:induction false} EntriesMembers(items: seq<RelayItem>, e: KernelEntry)
    ensures e in Entries(items) <==> exists i :: 0 <= i < |items| && e in Entry(items[i])
  {
    if items != [] {
      var init := items[..|items| - 1];
      EntriesMembers(init, e);
      if e in Entries(init) {
        var i :| 0 <= i < |init| && e in Entry(init[i]);
        assert items[i] == init[i];
      }
      if i :| 0 <= i < |items| && e in Entry(items[i]) {
        if i < |init| { assert init[i] == items[i]; }
      }
    }
  }

  // Every address the running core sends from is on some interface.
  ghost predicate Backed(m: Moment) {
    m.running.Some? ==> Bound(m.running.value.outbounds) <= Assigned(m.kernel)
  }

  // Backed at every moment from position `start` on.
  ghost predicate AllBacked(trace: seq<Moment>, start: nat) {
    forall i :: start <= i < |trace| ==> Backed(trace[i])
  }

  class Panel {
    var tables: Tables
    var running: Option<CoreConfig>
    var kernel: set<KernelEntry>
    var coreBusy: bool
    ghost var trace: seq<Moment>

    // The kernel refuses an address the interface already has.
    method AddAddress(item: RelayItem, works: bool) returns (ok: bool)
      modifies this`kernel, this`trace
      ensures ok <==> works && item.ipv6.Valid? && item.iface != "" && 1 <= item.prefix <= 128
                      && (item.iface, item.ipv6.addr) !in old(kernel)
      ensures kernel == old(kernel) + if ok then {(item.iface, item.ipv6.addr)} else {}
      ensures trace == old(trace) + [Moment(running, kernel)]
    {
      ok := works && item.ipv6.Valid? && item.iface != "" && 1 <= item.prefix <= 128
            && (item.iface, item.ipv6.addr) !in kernel;
      if ok {
        kernel := kernel + {(item.iface, item.ipv6.addr)};
      }
      trace := trace + [Moment(running, kernel)];
    }

    method DeleteAddress(item: RelayItem, works: bool)
      modifies this`kernel, this`trace
      ensures kernel == old(kernel) - if works then Entry(item) else {}
      ensures trace == old(trace) + [Moment(running, kernel)]
    {
      if works && item.iface != "" && item.ipv6.Valid? {
        kernel := kernel - {(item.iface, item.ipv6.addr)};
      }
      trace := trace + [Moment(running, kernel)];
    }

    // Stopping forgets the instance even when closing it reports an error.
    method StopCore(works: bool) returns (ok: bool)
      modifies this`running, this`trace
      ensures running == None && ok == works
      ensures trace == old(trace) + [Moment(running, kernel)]
    {
      running := None;
      ok := works;
      trace := trace + [Moment(running, kernel)];
    }

    method StartCore(config: CoreConfig, works: bool) returns (ok: bool)
      requires running.None?
      modifies this`running, this`trace
      ensures ok == works && running == if works then Some(config) else None
      ensures trace == old(trace) + [Moment(running, kernel)]
    {
      if works {
        running := Some(config);
      }
      ok := works;
      trace := trace + [Moment(running, kernel)];
    }

    // Back to a configuration read earlier: stop whatever runs, then start it.
    method Restore(config: CoreConfig, stopWorks: bool, startWorks: bool)
      modifies this`running, this`trace
      ensures running == if (old(running).None? || stopWorks) && startWorks then Some(config) else None
      ensures old(trace) <= trace
      ensures forall i :: |old(trace)| <= i < |trace| ==>
                trace[i].kernel == kernel && trace[i].running in {None, Some(config)}
    {
      if running.Some? {
        var stopped := StopCore(stopWorks);
        if !stopped {
          return;
        }
      }
      var _ := StartCore(config, startWorks);
    }
  }

  // Where a switch of the core can go wrong.
  datatype SwitchFaults = SwitchFaults(
    readOld: bool, readNew: bool, stop: bool, start: bool, log: bool, commit: bool,
    restoreStop: bool, restoreStart: bool)

  // The switch goes through when none of its steps fails; the core's own steps
  // count only when it was running.
  predicate Switches(f: SwitchFaults, wasRunning: bool) {
    (wasRunning ==> f.readOld && f.readNew && f.stop && f.start) && f.log && f.commit
  }

  // The common tail of every relay change: restart the core on the draft, log
  // the change, commit; on an error roll the draft back and restore the core.
  method SwitchAndCommit(p: Panel, draft: Tables, change: Change, f: SwitchFaults) returns (committed: bool)
    modifies p`tables, p`running, p`trace
    ensures committed <==> Switches(f, old(p.running.Some?))
    ensures committed ==> p.tables == draft.(changes := draft.changes + [change])
    ensures committed ==> p.running == if old(p.running.Some?) then Some(BuildConfig(draft)) else None
    ensures !committed ==> p.tables == old(p.tables)
    ensures !committed && f.restoreStop && f.restoreStart ==>
              p.running
              == if old(p.running.Some?) && f.readOld then Some(BuildConfig(old(p.tables))) else old(p.running)
    ensures old(p.trace) <= p.trace
    ensures forall i :: |old(p.trace)| <= i < |p.trace| ==> p.trace[i].kernel == p.kernel
    ensures forall i :: |old(p.trace)| <= i < |p.trace| ==>
              p.trace[i].running in {None, old(p.running), Some(BuildConfig(draft)), Some(BuildConfig(old(p.tables)))}
    ensures !committed ==> p.running in {None, old(p.running), Some(BuildConfig(old(p.tables)))}
  {
    committed := false;
    var oldConfig: Option<CoreConfig> := None;
    var ok := true;
    if p.running.Some? {
      ok := f.readOld;
      if ok {
        oldConfig := Some(BuildConfig(p.tables));
        ok := f.readNew;
      }
      if ok {
        ok := p.StopCore(f.stop);
      }
      if ok {
        ok := p.StartCore(BuildConfig(draft), f.start);
      }
    }
    if ok && f.log && f.commit {
      p.tables := draft.(changes := draft.changes + [change]);
      committed := true;
    } else if oldConfig.Some? {
      p.Restore(oldConfig.value, f.restoreStop, f.restoreStart);
    }
  }

  // Adding the addresses of a batch, one by one, up to the first refusal.
  method AddAll(p: Panel, items: seq<RelayItem>, works: nat -> bool) returns (added: nat)
    modifies p`kernel, p`trace
    ensures added <= |items|
    ensures p.kernel == old(p.kernel) + Entries(items[..added])
    ensures Entries(items[..added]) !! old(p.kernel)
    ensures added < |items| ==>
              !works(added) || !items[added].ipv6.Valid? || items[added].iface == ""
              || !(1 <= items[added].prefix <= 128)
                                || (items[added].iface, items[added].ipv6.addr) in p.kernel
    ensures forall i :: 0 <= i < added ==> items[i].ipv6.Valid? && items[i].iface != "" && works(i)
    ensures old(p.trace) <= p.trace
    ensures forall i :: |old(p.trace)| <= i < |p.trace| ==>
              p.trace[i].running == p.running && old(p.kernel) <= p.trace[i].kernel
  {
    added := 0;
    while added < |items|
      invariant 0 <= added <= |items|
      invariant p.kernel == old(p.kernel) + Entries(items[..added])
      invariant Entries(items[..added]) !! old(p.kernel)
      invariant forall i :: 0 <= i < added ==> items[i].ipv6.Valid? && items[i].iface != "" && works(i)
      invariant old(p.trace) <= p.trace
      invariant forall i :: |old(p.trace)| <= i < |p.trace| ==>
                p.trace[i].running == p.running && old(p.kernel) <= p.trace[i].kernel
    {
      var ok := p.AddAddress(items[added], works(added));
      if !ok {
        return;
      }
      assert items[..added + 1][..added] == items[..added];
      added := added + 1;
    }
  }

  // Removing the addresses of a batch; a refusal is passed over.
  method DeleteAll(p: Panel, items: seq<RelayItem>, works: nat -> bool)
    modifies p`kernel, p`trace
    ensures p.kernel == old(p.kernel) - Removed(items, works)
    ensures old(p.trace) <= p.trace
    ensures forall i :: |old(p.trace)| <= i < |p.trace| ==>
              p.trace[i].running == p.running && p.kernel <= p.trace[i].kernel
  {
    ghost var start := |p.trace|;
    var n := 0;
    while n < |items|
      invariant 0 <= n <= |items| && start == |old(p.trace)| <= |p.trace|
      invariant p.kernel == old(p.kernel) - Removed(items[..n], works)
      invariant old(p.trace) <= p.trace
      invariant forall i :: start <= i < |p.trace| ==> p.trace[i].running == p.running && p.kernel <= p.trace[i].kernel
    {
      p.DeleteAddress(items[n], works(n));
      assert items[..n + 1][..n] == items[..n];
      n := n + 1;
    }
    assert items[..|items|] == items;
  }

}
