/**
 The scan bookkeeping of krbtle/krbtle/Bluetooth.swift: which services are wanted,
 which are paired with a peripheral and which are scanned for, under CoreBluetooth
 callbacks, client calls and timers in any order. Handlers, queued tasks and timers
 are atomic; what CoreBluetooth reports is arbitrary.
 */
module Scanner {
  import opened Basics

  type Uuid = string
  type Peripheral = nat

  datatype Scan = Scan(
    powered: Option<bool>,              // the central manager, once known, and whether it is on
    all: set<Uuid>,
    scanning: set<Uuid>,
    paired: set<Uuid>,
    peripherals: map<Uuid, Peripheral>,
    discovered: set<Peripheral>,
    epoch: nat,
    timers: multiset<nat>,              // epochs carried by pending scan timers
    tasks: nat)                         // scans queued by addServiceUUID

  const Init: Scan := Scan(None, {}, {}, {}, map[], {}, 0, multiset{}, 0)

  datatype Event =
    | CentralCreated
    | PowerChange(on: bool, gone: set<Peripheral>)
    | AddService(uuid: Uuid)
    | RunTask
    | RemoveService(uuid: Uuid)
    | RefreshService(uuid: Uuid)
    | DiscoverPeripheral(peripheral: Peripheral)
    | DiscoverServices(peripheral: Peripheral, services: seq<Uuid>)
    | Disconnect(peripheral: Peripheral)
    | FailToConnect(peripheral: Peripheral)
    | Timer(epoch: nat)

  // ---------- steps ----------

  /** scanLogic: a call made for an old epoch does nothing, and every effective call starts a new epoch. */
  function ScanLogic(s: Scan, epoch: nat): Scan {
    if s.powered == None || epoch != s.epoch then s
    else
      var s1 := s.(epoch := s.epoch + 1);
      if !s.powered.value then s1.(scanning := {}, paired := {})
      else if s.all - s.paired == {} then s1
      else s1.(scanning := s.all - s.paired, timers := s.timers + multiset{s.epoch + 1})
  }

  function ServicesOf(s: Scan, ps: set<Peripheral>): set<Uuid> {
    set u | u in s.peripherals && s.peripherals[u] in ps
  }

  function PeripheralsRemoved(s: Scan, ps: set<Peripheral>): Scan {
    var lost := ServicesOf(s, ps);
    s.(peripherals := s.peripherals - lost, paired := s.paired - lost, discovered := s.discovered - ps)
  }

  function ServiceRemoved(s: Scan, u: Uuid): Scan {
    var s1 := s.(all := s.all - {u}, paired := s.paired - {u}, scanning := s.scanning - {u},
                 peripherals := s.peripherals - {u});
    ScanLogic(s1, s1.epoch)
  }

  function ServiceRefreshed(s: Scan, u: Uuid): Scan {
    if u !in s.all then s
    else
      var s1 := ServiceRemoved(s, u);
      var s2 := s1.(all := s1.all + {u});
      ScanLogic(s2, s2.epoch)
  }

  function ServicePaired(s: Scan, p: Peripheral, u: Uuid): Scan {
    if u !in s.all then s
    else s.(peripherals := s.peripherals[u := p], paired := s.paired + {u}, scanning := s.scanning - {u})
  }

  function ServicesPaired(s: Scan, p: Peripheral, services: seq<Uuid>): Scan
    decreases |services|
  {
    if services == [] then s
    else
      var n := |services| - 1;
      ServicePaired(ServicesPaired(s, p, services[..n]), p, services[n])
  }

  function Step(s: Scan, e: Event): Scan {
    match e
    case CentralCreated => if s.powered == None then s.(powered := Some(false)) else s
    case PowerChange(on, gone) =>
      var s1 :=
        if on then PeripheralsRemoved(s.(powered := Some(true)), gone * s.discovered)
        else if s.powered == None then s
        else s.(powered := Some(false));
      ScanLogic(s1, s1.epoch)
    case AddService(u) => if u in s.all then s else s.(all := s.all + {u}, tasks := s.tasks + 1)
    case RunTask =>
      if s.tasks == 0 then s
      else ScanLogic(s.(tasks := s.tasks - 1), s.epoch)
    case RemoveService(u) => ServiceRemoved(s, u)
    case RefreshService(u) => ServiceRefreshed(s, u)
    case DiscoverPeripheral(p) => s.(discovered := s.discovered + {p})
    case DiscoverServices(p, services) =>
      var s1 := ServicesPaired(s, p, services);
      ScanLogic(s1, s1.epoch)
    case Disconnect(p) =>
      var s1 := PeripheralsRemoved(s, {p});
      ScanLogic(s1, s1.epoch)
    case FailToConnect(p) => PeripheralsRemoved(s, {p})
    case Timer(epoch) =>
      if epoch !in s.timers then s
      else ScanLogic(s.(timers := s.timers - multiset{epoch}), epoch)
  }

  function Run(events: seq<Event>): Scan
    decreases |events|
  {
    if events == [] then Init else Step(Run(events[..|events| - 1]), events[|events| - 1])
  }

  // ---------- what they achieve ----------

  /** Nothing but scanning, pairing and its own schedule is a scan's business. */
  ghost predicate SameServices(s: Scan, t: Scan) {
    t.all == s.all && t.peripherals == s.peripherals && t.discovered == s.discovered && t.powered == s.powered && t.tasks == s.tasks
  }

  /**
   A call for an old epoch, or before the central is known, does nothing. Any other starts a
   new epoch. While Bluetooth is off nothing stays paired or scanned for; while it is on,
   exactly what is unpaired is scanned for, and a timer of the new epoch is added, unless
   there is nothing to scan for.
   */
  ghost predicate ScanEffect(s: Scan, t: Scan, epoch: nat) {
    && SameServices(s, t) && (SetInv(s) ==> SetInv(t))
    && (if epoch != s.epoch || s.powered == None then t == s
        else
          && t.epoch == s.epoch + 1
          && (s.powered == Some(false) ==> t.scanning == {} && t.paired == {} && t.timers == s.timers)
          && (s.powered == Some(true) ==>
                && t.paired == s.paired
                && (s.all <= s.paired ==> t.scanning == s.scanning && t.timers == s.timers)
                && (!(s.all <= s.paired) ==> t.scanning == s.all - s.paired && t.timers == s.timers + multiset{t.epoch})))
  }

  lemma ScanHasEffect(s: Scan, epoch: nat)
    ensures ScanEffect(s, ScanLogic(s, epoch), epoch)
  {
    if SetInv(s) { ScanLogicKeeps(s, epoch); }
    assert s.all - s.paired == {} <==> s.all <= s.paired by {
      if s.all - s.paired == {} {
        forall u | u in s.all ensures u in s.paired { assert u !in s.all - s.paired; }
      }
    }
  }

  /** Service `v` is wanted as before, with the same peripheral if any, and paired as before unless Bluetooth is off. */
  ghost predicate ServiceSame(s: Scan, t: Scan, v: Uuid) {
    && (v in t.all <==> v in s.all)
    && (v in t.peripherals <==> v in s.peripherals)
    && (v in t.peripherals && v in s.peripherals ==> t.peripherals[v] == s.peripherals[v])
    && (s.powered != Some(false) ==> (v in t.paired <==> v in s.paired))
  }

  /** A service is in none of the four collections any more, and no other service is affected. */
  ghost predicate RemoveEffect(s: Scan, t: Scan, u: Uuid) {
    && u !in t.all && u !in t.paired && u !in t.scanning && u !in t.peripherals
    && (forall v :: v != u ==> ServiceSame(s, t, v))
    && t.discovered == s.discovered && t.powered == s.powered && t.tasks == s.tasks && Alive(t)
  }

  lemma RemoveHasEffect(s: Scan, u: Uuid)
    ensures RemoveEffect(s, ServiceRemoved(s, u), u)
  {
    var s1 := s.(all := s.all - {u}, paired := s.paired - {u}, scanning := s.scanning - {u},
                 peripherals := s.peripherals - {u});
    ScanHasEffect(s1, s1.epoch);
    ScanLogicRevives(s1);
  }

  /** A wanted service is unpaired and, while Bluetooth is on, scanned for again; no other service is affected. */
  ghost predicate RefreshEffect(s: Scan, t: Scan, u: Uuid) {
    && t.all == s.all && t.discovered == s.discovered && t.powered == s.powered && t.tasks == s.tasks
    && (u !in s.all ==> t == s)
    && (u in s.all ==> u !in t.paired && u !in t.peripherals)
    && (u in s.all && s.powered == Some(true) ==> u in t.scanning && t.timers[t.epoch] > 0)
    && (forall v :: v != u ==> ServiceSame(s, t, v))
  }

  lemma RefreshHasEffect(s: Scan, u: Uuid)
    ensures RefreshEffect(s, ServiceRefreshed(s, u), u)
  {
    if u in s.all {
      var s1 := ServiceRemoved(s, u);
      RemoveHasEffect(s, u);
      assert s1.all == s.all - {u} by {
        forall v ensures v in s1.all <==> v in s.all - {u} { if v != u { assert ServiceSame(s, s1, v); } }
      }
      var s2 := s1.(all := s1.all + {u});
      assert s2.all == s.all && u in s2.all && u !in s2.paired;
      ScanHasEffect(s2, s2.epoch);
      var t := ServiceRefreshed(s, u);
      forall v | v != u ensures ServiceSame(s, t, v) { assert ServiceSame(s, s1, v); }
    }
  }

  /** The services of the peripherals `ps` lose them and are not paired any more; no other service is affected. */
  ghost predicate LossOf(s: Scan, t: Scan, ps: set<Peripheral>) {
    && t.all == s.all && t.discovered == s.discovered - ps && t.tasks == s.tasks
    && (forall u :: u in t.peripherals <==> u in s.peripherals && s.peripherals[u] !in ps)
    && (forall u :: u in t.peripherals && u in s.peripherals ==> t.peripherals[u] == s.peripherals[u])
    && (t.powered != Some(false) ==>
          forall u :: u in t.paired <==> u in s.paired && !(u in s.peripherals && s.peripherals[u] in ps))
  }

  /**
   On: what has vanished is lost. Off: nothing stays paired or scanned for, and all else does.
   Afterwards a scan is scheduled while one is needed.
   */
  ghost predicate PowerEffect(s: Scan, t: Scan, on: bool, gone: set<Peripheral>) {
    && Alive(t)
    && (on ==> t.powered == Some(true) && LossOf(s, t, gone * s.discovered))
    && (!on && s.powered == None ==> t == s)
    && (!on && s.powered.Some? ==>
          && t.powered == Some(false) && t.paired == {} && t.scanning == {}
          && t.all == s.all && t.peripherals == s.peripherals && t.discovered == s.discovered && t.tasks == s.tasks)
  }

  lemma PowerHasEffect(s: Scan, on: bool, gone: set<Peripheral>)
    ensures PowerEffect(s, Step(s, PowerChange(on, gone)), on, gone)
  {
    PowerRevives(s, on, gone);
    if on {
      var s1 := PeripheralsRemoved(s.(powered := Some(true)), gone * s.discovered);
      ScanHasEffect(s1, s1.epoch);
    }
  }

  /** Every wanted service among those found is paired with `p`, and no other service changes hands. */
  ghost predicate PairEffect(s: Scan, t: Scan, p: Peripheral, services: seq<Uuid>) {
    && t.all == s.all && t.discovered == s.discovered && t.powered == s.powered && t.tasks == s.tasks && Alive(t)
    && (forall u :: u in services && u in s.all ==> u in t.peripherals && t.peripherals[u] == p)
    && (forall u :: u !in services || u !in s.all ==>
          (u in t.peripherals <==> u in s.peripherals) && (u in t.peripherals ==> t.peripherals[u] == s.peripherals[u]))
    && (s.powered != Some(false) ==>
          forall u :: u in t.paired <==> u in s.paired || (u in services && u in s.all))
  }

  lemma {:induction false} ServicesPairedIs(s: Scan, p: Peripheral, services: seq<Uuid>)
    ensures var t := ServicesPaired(s, p, services);
            && t.all == s.all && t.powered == s.powered && t.epoch == s.epoch
            && t.discovered == s.discovered && t.tasks == s.tasks
            && (forall u :: u in t.paired <==> u in s.paired || (u in services && u in s.all))
            && (forall u :: u in t.peripherals <==> u in s.peripherals || (u in services && u in s.all))
            && (forall u :: u in t.peripherals ==>
                  t.peripherals[u] == if u in services && u in s.all then p else s.peripherals[u])
    decreases |services|
  {
    if services != [] {
      var n := |services| - 1;
      ServicesPairedIs(s, p, services[..n]);
      assert forall u :: u in services <==> u in services[..n] || u == services[n];
    }
  }

  lemma PairHasEffect(s: Scan, p: Peripheral, services: seq<Uuid>)
    ensures PairEffect(s, Step(s, DiscoverServices(p, services)), p, services)
  {
    ServicesPairedIs(s, p, services);
    ScanLogicRevives(ServicesPaired(s, p, services));
  }

  lemma LossHasEffect(s: Scan, p: Peripheral)
    ensures LossOf(s, Step(s, Disconnect(p)), {p}) && Alive(Step(s, Disconnect(p)))
    ensures LossOf(s, Step(s, FailToConnect(p)), {p})
  {
    var s1 := PeripheralsRemoved(s, {p});
    ScanHasEffect(s1, s1.epoch);
    ScanLogicRevives(s1);
  }

  // ---------- the object ----------

  class BluetoothDelegate {
    var powered: Option<bool>
    var all: set<Uuid>
    var scanning: set<Uuid>
    var paired: set<Uuid>
    var peripherals: map<Uuid, Peripheral>
    var discovered: set<Peripheral>
    var epoch: nat
    var timers: multiset<nat>
    var tasks: nat

    ghost function View(): Scan
      reads this
    {
      Scan(powered, all, scanning, paired, peripherals, discovered, epoch, timers, tasks)
    }

    constructor ()
      ensures View() == Init
    {
      powered, all, scanning, paired, peripherals := None, {}, {}, {}, map[];
      discovered, epoch, timers, tasks := {}, 0, multiset{}, 0;
    }

    method RunScanLogic(forEpoch: nat)
      modifies this`epoch, this`scanning, this`paired, this`timers
      ensures View() == ScanLogic(old(View()), forEpoch) && ScanEffect(old(View()), View(), forEpoch)
    {
      ScanHasEffect(View(), forEpoch);
      ghost var t := ScanLogic(View(), forEpoch);
      Rescan(forEpoch);
      assert View() == t;
    }

    method Rescan(forEpoch: nat)
      modifies this`epoch, this`scanning, this`paired, this`timers
      ensures View() == ScanLogic(old(View()), forEpoch)
    {
      if powered == None || forEpoch != epoch {
        return;
      }
      epoch := epoch + 1;
      if !powered.value {
        scanning := {};
        paired := {};
        return;
      }
      var shouldBeScanning := all - paired;
      if shouldBeScanning == {} {
        return;
      }
      scanning := shouldBeScanning;
      timers := timers + multiset{epoch};
    }

    /** Forget every service paired with `p`, one after the other. */
    method RemovePeripheral(p: Peripheral)
      modifies this`peripherals, this`paired, this`discovered
      ensures View() == PeripheralsRemoved(old(View()), {p}) && LossOf(old(View()), View(), {p})
    {
      var lost := set u | u in peripherals && peripherals[u] == p;
      ghost var done: set<Uuid> := {};
      var rest := lost;
      while rest != {}
        invariant done + rest == lost && done !! rest
        invariant peripherals == old(peripherals) - done && paired == old(paired) - done
        invariant discovered == old(discovered)
        decreases rest
      {
        var u :| u in rest;
        peripherals := peripherals - {u};
        paired := paired - {u};
        rest, done := rest - {u}, done + {u};
      }
      discovered := discovered - {p};
      assert done == lost && lost == ServicesOf(old(View()), {p});
    }

    /** Bluetooth came on: forget the known peripherals that are gone. */
    method RestorePeripherals(gone: set<Peripheral>)
      modifies this`peripherals, this`paired, this`discovered
      ensures View() == PeripheralsRemoved(old(View()), gone * old(discovered))
    {
      var rest := gone * discovered;
      ghost var done: set<Peripheral> := {};
      RemovedNone(View());
      while rest != {}
        invariant done + rest == gone * old(discovered) && done !! rest
        invariant View() == PeripheralsRemoved(old(View()), done)
        decreases rest
      {
        var p :| p in rest;
        RemovedTwice(old(View()), done, p);
        RemovePeripheral(p);
        rest, done := rest - {p}, done + {p};
      }
      assert done == gone * old(discovered);
    }

    method CentralManagerDidUpdateState(on: bool, gone: set<Peripheral>)
      modifies this
      ensures View() == Step(old(View()), PowerChange(on, gone)) && PowerEffect(old(View()), View(), on, gone)
    {
      PowerHasEffect(View(), on, gone);
      ghost var t := Step(View(), PowerChange(on, gone));
      ChangePower(on, gone);
      assert View() == t;
    }

    method ChangePower(on: bool, gone: set<Peripheral>)
      modifies this
      ensures View() == Step(old(View()), PowerChange(on, gone))
    {
      if on {
        powered := Some(true);
        RestorePeripherals(gone);
      } else if powered.Some? {
        powered := Some(false);
      }
      RunScanLogic(epoch);
    }

    method AddServiceUUID(u: Uuid)
      modifies this`all, this`tasks
      ensures View() == Step(old(View()), AddService(u))
      ensures all == old(all) + {u} && tasks == old(tasks) + if u in old(all) then 0 else 1
    {
      if u in all {
        return;
      }
      all := all + {u};
      tasks := tasks + 1;
    }

    /** The scan that addServiceUUID queued. */
    method RunQueuedScan()
      requires tasks > 0
      modifies this`tasks, this`epoch, this`scanning, this`paired, this`timers
      ensures View() == Step(old(View()), RunTask) && tasks == old(tasks) - 1
      ensures ScanEffect(old(View()).(tasks := old(tasks) - 1), View(), old(epoch)) && Alive(View())
    {
      ScanLogicRevives(View().(tasks := tasks - 1));
      tasks := tasks - 1;
      RunScanLogic(epoch);
    }

    method DidDiscover(p: Peripheral)
      modifies this`discovered
      ensures View() == Step(old(View()), DiscoverPeripheral(p)) && discovered == old(discovered) + {p}
    {
      discovered := discovered + {p};
    }

    method RemoveServiceUUID(u: Uuid)
      modifies this`all, this`paired, this`scanning, this`peripherals, this`epoch, this`timers
      ensures View() == ServiceRemoved(old(View()), u) && RemoveEffect(old(View()), View(), u)
    {
      RemoveHasEffect(View(), u);
      all := all - {u};
      paired := paired - {u};
      scanning := scanning - {u};
      peripherals := peripherals - {u};
      RunScanLogic(epoch);
    }

    method RefreshServiceUUID(u: Uuid)
      modifies this`all, this`paired, this`scanning, this`peripherals, this`epoch, this`timers
      ensures View() == ServiceRefreshed(old(View()), u)
      ensures RefreshEffect(old(View()), View(), u)
    {
      RefreshHasEffect(View(), u);
      if u !in all {
        return;
      }
      RemoveServiceUUID(u);
      all := all + {u};
      RunScanLogic(epoch);
    }

    method DidDiscoverServices(p: Peripheral, services: seq<Uuid>)
      modifies this`peripherals, this`paired, this`scanning, this`epoch, this`timers
      ensures View() == Step(old(View()), DiscoverServices(p, services)) && PairEffect(old(View()), View(), p, services)
    {
      PairHasEffect(View(), p, services);
      ghost var t := Step(View(), DiscoverServices(p, services));
      PairServices(p, services);
      assert View() == t;
    }

    method PairServices(p: Peripheral, services: seq<Uuid>)
      modifies this`peripherals, this`paired, this`scanning, this`epoch, this`timers
      ensures View() == Step(old(View()), DiscoverServices(p, services))
    {
      var i := 0;
      while i < |services|
        invariant 0 <= i <= |services|
        invariant View() == ServicesPaired(old(View()), p, services[..i])
      {
        assert services[..i + 1][..i] == services[..i];
        var u := services[i];
        if u in all {
          peripherals := peripherals[u := p];
          paired := paired + {u};
          scanning := scanning - {u};
        }
        i := i + 1;
      }
      assert services[..i] == services;
      RunScanLogic(epoch);
    }

    method DidDisconnectPeripheral(p: Peripheral)
      modifies this`peripherals, this`paired, this`discovered, this`scanning, this`epoch, this`timers
      ensures View() == Step(old(View()), Disconnect(p))
      ensures LossOf(old(View()), View(), {p}) && powered == old(powered) && Alive(View())
    {
      LossHasEffect(View(), p);
      RemovePeripheral(p);
      RunScanLogic(epoch);
    }

    method DidFailToConnect(p: Peripheral)
      modifies this`peripherals, this`paired, this`discovered
      ensures View() == Step(old(View()), FailToConnect(p))
      ensures LossOf(old(View()), View(), {p}) && powered == old(powered)
      ensures timers == old(timers) && epoch == old(epoch) && scanning == old(scanning)
    {
      LossHasEffect(View(), p);
      discovered := discovered - {p};
      RemovePeripheral(p);
    }

    method TimerFires(forEpoch: nat)
      requires forEpoch in timers
      modifies this`timers, this`epoch, this`scanning, this`paired
      ensures View() == ScanLogic(old(View()).(timers := old(timers) - multiset{forEpoch}), forEpoch)
      ensures forEpoch == old(epoch) ==> Alive(View())
      ensures forEpoch != old(epoch) ==> View() == old(View()).(timers := old(timers) - multiset{forEpoch})
    {
      if forEpoch == epoch { ScanLogicRevives(View().(timers := timers - multiset{forEpoch})); }
      timers := timers - multiset{forEpoch};
      RunScanLogic(forEpoch);
    }
  }

  lemma RemovedNone(s: Scan)
    ensures PeripheralsRemoved(s, {}) == s
  {
    assert ServicesOf(s, {}) == {};
  }

  lemma RemovedTwice(s: Scan, ps: set<Peripheral>, p: Peripheral)
    ensures PeripheralsRemoved(PeripheralsRemoved(s, ps), {p}) == PeripheralsRemoved(s, ps + {p})
  {
    var t := PeripheralsRemoved(s, ps);
    assert ServicesOf(s, ps + {p}) == ServicesOf(s, ps) + ServicesOf(t, {p});
    assert t.peripherals - ServicesOf(t, {p}) == s.peripherals - ServicesOf(s, ps + {p});
    assert t.paired - ServicesOf(t, {p}) == s.paired - ServicesOf(s, ps + {p});
    assert t.discovered - {p} == s.discovered - (ps + {p});
  }

  // ---------- invariants ----------

  ghost predicate SetInv(s: Scan) {
    && s.paired <= s.peripherals.Keys <= s.all
    && s.scanning <= s.all
    && s.scanning !! s.paired
  }

  ghost predicate TimerInv(s: Scan) {
    && (forall t :: t in s.timers ==> t <= s.epoch)
    && s.timers[s.epoch] <= 1
  }

  lemma ScanLogicKeeps(s: Scan, epoch: nat)
    requires SetInv(s)
    ensures SetInv(ScanLogic(s, epoch))
    ensures TimerInv(s) ==> TimerInv(ScanLogic(s, epoch))
  {
    assert TimerInv(s) ==> s.epoch + 1 !in s.timers;
  }

  lemma {:induction false} PairingKeeps(s: Scan, p: Peripheral, services: seq<Uuid>)
    requires SetInv(s)
    ensures var t := ServicesPaired(s, p, services);
            && SetInv(t) && t.all == s.all && t.powered == s.powered && t.discovered == s.discovered
            && t.epoch == s.epoch && t.timers == s.timers && t.tasks == s.tasks
    decreases |services|
  {
    if services != [] { PairingKeeps(s, p, services[..|services| - 1]); }
  }

  lemma RemovingKeeps(s: Scan, ps: set<Peripheral>)
    requires SetInv(s)
    ensures SetInv(PeripheralsRemoved(s, ps))
  {
  }

  lemma ServiceRemovedKeeps(s: Scan, u: Uuid)
    requires SetInv(s) && TimerInv(s)
    ensures SetInv(ServiceRemoved(s, u)) && TimerInv(ServiceRemoved(s, u))
  {
    var s1 := s.(all := s.all - {u}, paired := s.paired - {u}, scanning := s.scanning - {u},
                 peripherals := s.peripherals - {u});
    ScanLogicKeeps(s1, s1.epoch);
  }

  ghost predicate Inv(s: Scan) {
    SetInv(s) && TimerInv(s)
  }

  lemma PowerKeeps(s: Scan, on: bool, gone: set<Peripheral>)
    requires Inv(s)
    ensures Inv(Step(s, PowerChange(on, gone)))
  {
    var s0 := s.(powered := Some(true));
    RemovingKeeps(s0, gone * s.discovered);
    var s1 :=
      if on then PeripheralsRemoved(s0, gone * s.discovered)
      else if s.powered == None then s
      else s.(powered := Some(false));
    ScanLogicKeeps(s1, s1.epoch);
  }

  lemma RefreshKeeps(s: Scan, u: Uuid)
    requires Inv(s)
    ensures Inv(ServiceRefreshed(s, u))
  {
    if u in s.all {
      ServiceRemovedKeeps(s, u);
      var s1 := ServiceRemoved(s, u);
      ScanLogicKeeps(s1.(all := s1.all + {u}), s1.epoch);
    }
  }

  lemma DiscoverKeeps(s: Scan, p: Peripheral, services: seq<Uuid>)
    requires Inv(s)
    ensures Inv(Step(s, DiscoverServices(p, services)))
  {
    PairingKeeps(s, p, services);
    var s1 := ServicesPaired(s, p, services);
    ScanLogicKeeps(s1, s1.epoch);
  }

  lemma DisconnectKeeps(s: Scan, p: Peripheral)
    requires Inv(s)
    ensures Inv(Step(s, Disconnect(p))) && Inv(Step(s, FailToConnect(p)))
  {
    RemovingKeeps(s, {p});
    var s1 := PeripheralsRemoved(s, {p});
    ScanLogicKeeps(s1, s1.epoch);
  }

  lemma TimerKeeps(s: Scan, epoch: nat)
    requires Inv(s)
    ensures Inv(Step(s, Timer(epoch)))
  {
    if epoch in s.timers {
      var s1 := s.(timers := s.timers - multiset{epoch});
      assert forall t :: t in s1.timers ==> t in s.timers;
      ScanLogicKeeps(s1, epoch);
    }
  }

  lemma TaskKeeps(s: Scan)
    requires Inv(s)
    ensures Inv(Step(s, RunTask))
  {
    if s.tasks > 0 { ScanLogicKeeps(s.(tasks := s.tasks - 1), s.epoch); }
  }

  lemma StepKeeps(s: Scan, e: Event)
    requires Inv(s)
    ensures Inv(Step(s, e))
  {
    match e
    case PowerChange(on, gone) => PowerKeeps(s, on, gone);
    case RunTask => TaskKeeps(s);
    case RemoveService(u) => ServiceRemovedKeeps(s, u);
    case RefreshService(u) => RefreshKeeps(s, u);
    case DiscoverServices(p, services) => DiscoverKeeps(s, p, services);
    case Disconnect(p) => DisconnectKeeps(s, p);
    case FailToConnect(p) => DisconnectKeeps(s, p);
    case Timer(epoch) => TimerKeeps(s, epoch);
    case _ =>
  }

  lemma {:induction false} RunKeeps(events: seq<Event>)
    ensures Inv(Run(events))
    decreases |events|
  {
    if events != [] {
      RunKeeps(events[..|events| - 1]);
      StepKeeps(Run(events[..|events| - 1]), events[|events| - 1]);
    }
  }

  /**
   In every reachable state: paired services have a peripheral, services with a
   peripheral are wanted, scanned services are wanted and not paired, and at most one
   pending timer can still have an effect.
   */
  lemma ReachableScans(events: seq<Event>)
    ensures var s := Run(events);
            && s.paired <= s.peripherals.Keys <= s.all
            && s.scanning <= s.all && s.scanning !! s.paired
            && (forall t :: t in s.timers ==> t <= s.epoch)
            && s.timers[s.epoch] <= 1
  {
    RunKeeps(events);
  }

  // ---------- the scan loop stays alive ----------

  /** While Bluetooth is on and a wanted service is unpaired, another scan is scheduled. */
  ghost predicate Alive(s: Scan) {
    s.powered == Some(true) && s.all - s.paired != {} ==> s.timers[s.epoch] > 0 || s.tasks > 0
  }

  lemma ScanLogicRevives(s: Scan)
    ensures Alive(ScanLogic(s, s.epoch))
  {
  }

  /** A failed connection that concerns a peripheral of a paired service. */
  ghost predicate FailsPaired(s: Scan, e: Event) {
    e.FailToConnect? && ServicesOf(s, {e.peripheral}) * s.paired != {}
  }

  lemma HarmlessFailure(s: Scan, p: Peripheral)
    requires Alive(s) && !FailsPaired(s, FailToConnect(p))
    ensures Alive(Step(s, FailToConnect(p)))
  {
    forall u | u in s.paired ensures u !in ServicesOf(s, {p}) {
      assert u !in ServicesOf(s, {p}) * s.paired;
    }
    assert s.paired - ServicesOf(s, {p}) == s.paired;
  }

  lemma RefreshRevives(s: Scan, u: Uuid)
    requires Alive(s)
    ensures Alive(ServiceRemoved(s, u)) && Alive(ServiceRefreshed(s, u))
  {
    ScanLogicRevives(s.(all := s.all - {u}, paired := s.paired - {u}, scanning := s.scanning - {u},
                        peripherals := s.peripherals - {u}));
    var s1 := ServiceRemoved(s, u);
    ScanLogicRevives(s1.(all := s1.all + {u}));
  }

  lemma PowerRevives(s: Scan, on: bool, gone: set<Peripheral>)
    ensures Alive(Step(s, PowerChange(on, gone)))
  {
    var s1 :=
      if on then PeripheralsRemoved(s.(powered := Some(true)), gone * s.discovered)
      else if s.powered == None then s
      else s.(powered := Some(false));
    ScanLogicRevives(s1);
  }

  lemma ScheduledRevives(s: Scan, e: Event)
    requires Alive(s) && (e.Timer? || e.RunTask?)
    ensures Alive(Step(s, e))
  {
    if e.RunTask? {
      if s.tasks > 0 { ScanLogicRevives(s.(tasks := s.tasks - 1)); }
    } else if e.epoch == s.epoch {
      ScanLogicRevives(s.(timers := s.timers - multiset{e.epoch}));
    }
  }

  lemma StepKeepsAlive(s: Scan, e: Event)
    requires Alive(s) && !FailsPaired(s, e)
    ensures Alive(Step(s, e))
  {
    match e
    case FailToConnect(p) => HarmlessFailure(s, p);
    case PowerChange(on, gone) => PowerRevives(s, on, gone);
    case RemoveService(u) => RefreshRevives(s, u);
    case RefreshService(u) => RefreshRevives(s, u);
    case DiscoverServices(p, services) => ScanLogicRevives(ServicesPaired(s, p, services));
    case Disconnect(p) => ScanLogicRevives(PeripheralsRemoved(s, {p}));
    case Timer(_) => ScheduledRevives(s, e);
    case RunTask => ScheduledRevives(s, e);
    case _ =>
  }

  ghost predicate NeverFailsPaired(events: seq<Event>)
    decreases |events|
  {
    events == [] ||
    var n := |events| - 1;
    NeverFailsPaired(events[..n]) && !FailsPaired(Run(events[..n]), events[n])
  }

  /** Unless a connection attempt fails for a peripheral that is already paired, scanning never stalls. */
  lemma {:induction false} ScanningNeverStalls(events: seq<Event>)
    requires NeverFailsPaired(events)
    ensures Alive(Run(events))
    decreases |events|
  {
    if events != [] {
      ScanningNeverStalls(events[..|events| - 1]);
      StepKeepsAlive(Run(events[..|events| - 1]), events[|events| - 1]);
    }
  }

  /** didFailToConnect schedules nothing: it stalls the scan exactly when it unpairs a service and nothing was scheduled. */
  lemma FailedConnectionStallsIff(s: Scan, p: Peripheral)
    requires SetInv(s) && Alive(s)
    ensures Alive(Step(s, FailToConnect(p))) <==>
            !(s.powered == Some(true) && s.timers[s.epoch] == 0 && s.tasks == 0 && FailsPaired(s, FailToConnect(p)))
  {
    var lost := ServicesOf(s, {p});
    var t := Step(s, FailToConnect(p));
    assert t.paired == s.paired - lost && t.all == s.all;
    if FailsPaired(s, FailToConnect(p)) {
      var u :| u in lost * s.paired;
      assert u in t.all - t.paired;
    } else {
      assert forall u :: u in s.paired ==> u !in lost by {
        forall u | u in s.paired ensures u !in lost { assert u !in lost * s.paired; }
      }
      assert t.paired == s.paired;
    }
  }

  lemma RunSnoc(events: seq<Event>, e: Event)
    ensures Run(events + [e]) == Step(Run(events), e)
  {
    assert (events + [e])[..|events|] == events;
  }

  lemma BeforePairing(u: Uuid, p: Peripheral)
    ensures Run([CentralCreated] + [AddService(u)] + [PowerChange(true, {})] + [DiscoverPeripheral(p)]) ==
            Scan(Some(true), {u}, {u}, {}, map[], {p}, 1, multiset{1}, 1)
  {
    var e1 := [CentralCreated];
    var e2 := e1 + [AddService(u)];
    RunSnoc([], CentralCreated);
    assert [] + [CentralCreated] == e1;
    RunSnoc(e1, AddService(u));
    var s2 := Run(e2);
    assert s2 == Scan(Some(false), {u}, {}, {}, map[], {}, 0, multiset{}, 1);
    RunSnoc(e2, PowerChange(true, {}));
    RemovedNone(s2.(powered := Some(true)));
    assert {} * s2.discovered == {};
    RunSnoc(e2 + [PowerChange(true, {})], DiscoverPeripheral(p));
  }

  lemma AfterPairing(s: Scan, u: Uuid, p: Peripheral)
    requires s == Scan(Some(true), {u}, {u}, {}, map[], {p}, 1, multiset{1}, 1)
    ensures Step(Step(s, DiscoverServices(p, [u])), RunTask) ==
            Scan(Some(true), {u}, {}, {u}, map[u := p], {p}, 3, multiset{1}, 0)
  {
    var us := [u];
    assert us[..0] == [] && ServicesPaired(s, p, []) == s;
    assert ServicesPaired(s, p, us) == Scan(Some(true), {u}, {}, {u}, map[u := p], {p}, 1, multiset{1}, 1);
  }

  lemma PairedThenFails(s: Scan, u: Uuid, p: Peripheral)
    requires s == Scan(Some(true), {u}, {}, {u}, map[u := p], {p}, 3, multiset{1}, 0)
    ensures !Alive(Step(s, FailToConnect(p)))
  {
    assert u in ServicesOf(s, {p}) * s.paired;
    FailedConnectionStallsIff(s, p);
  }

  /** A run that ends so: the only service is paired, no scan is scheduled, and then its connection fails. */
  lemma StalledRun(u: Uuid, p: Peripheral)
    ensures !Alive(Run([CentralCreated] + [AddService(u)] + [PowerChange(true, {})] + [DiscoverPeripheral(p)]
                       + [DiscoverServices(p, [u])] + [RunTask] + [FailToConnect(p)]))
  {
    var e4 := [CentralCreated] + [AddService(u)] + [PowerChange(true, {})] + [DiscoverPeripheral(p)];
    BeforePairing(u, p);
    RunSnoc(e4, DiscoverServices(p, [u]));
    RunSnoc(e4 + [DiscoverServices(p, [u])], RunTask);
    RunSnoc(e4 + [DiscoverServices(p, [u])] + [RunTask], FailToConnect(p));
    AfterPairing(Run(e4), u, p);
    PairedThenFails(Run(e4 + [DiscoverServices(p, [u])] + [RunTask]), u, p);
  }
}
