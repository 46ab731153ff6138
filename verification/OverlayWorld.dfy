/** What the overlay code acts on: the OVS ports of the shared bridge and the Linux VXLAN
    devices behind them, with the bridge primitives of agent/network/overlay_vxlan.py.

    Every external command is an explicit step on a `World` value.  Its exit status is an
    input, one record per port, so that every statement is about all outcomes. */
module OverlayWorld {

  /** An OVS port: access tag (0 = none) and whether `ofport` differs from -1. */
  datatype OvsPort = OvsPort(tag: nat, healthy: bool)

  /** A Linux VXLAN netdev. */
  datatype Device = Device(vni: int, localIp: string, remoteIp: string, mtu: int)

  datatype World = World(ports: map<string, OvsPort>, devices: map<string, Device>)

  /** Outcomes of the commands issued while one port is handled (true = exit code 0).
      `kernelMtu` is the MTU a new device has before it is set. */
  datatype Rc = Rc(delPort: bool, linkShow: bool, linkDelete: bool, retryDelete: bool,
                   linkAdd: bool, kernelMtu: int, setMtu: bool, addPort: bool,
                   rollback: bool, setTag: bool)

  predicate AllOk(rc: Rc) {
    rc.delPort && rc.linkShow && rc.linkDelete && rc.retryDelete && rc.linkAdd
    && rc.setMtu && rc.addPort && rc.rollback && rc.setTag
  }

  /** OVS reports ofport -1 as soon as the netdev is gone. */
  ghost predicate WellFormed(w: World) {
    forall n :: n in w.ports && w.ports[n].healthy ==> n in w.devices
  }

  function DelPort(w: World, n: string, ok: bool): World {
    if ok then w.(ports := w.ports - {n}) else w
  }

  function LinkDelete(w: World, n: string, ok: bool): World {
    if ok && n in w.devices then
      World(if n in w.ports then w.ports[n := w.ports[n].(healthy := false)] else w.ports,
            w.devices - {n})
    else w
  }

  function SetMtu(w: World, n: string, mtu: int, ok: bool): World {
    if ok && n in w.devices then w.(devices := w.devices[n := w.devices[n].(mtu := mtu)]) else w
  }

  function SetTag(w: World, n: string, tag: nat, ok: bool): World {
    if ok && n in w.ports then w.(ports := w.ports[n := w.ports[n].(tag := tag)]) else w
  }

  function DeviceMtu(tenantMtu: int, overlayMtu: int): int {
    if tenantMtu > 0 then tenantMtu else if overlayMtu > 0 then overlayMtu else 1500
  }

  /** create_vxlan_device: `ip link add`, one retry when the name is taken, MTU, `add-port`,
      and removal of the device when `add-port` fails.  The flag is false where it raises. */
  function CreateDevice(w: World, n: string, vni: int, localIp: string, remoteIp: string,
                        tag: nat, tenantMtu: int, overlayMtu: int, rc: Rc): (World, bool)
  {
    var w1 := if n in w.devices then LinkDelete(w, n, rc.retryDelete) else w;
    if n in w1.devices || !rc.linkAdd then (w1, false)
    else
      var w2 := w1.(devices := w1.devices[n := Device(vni, localIp, remoteIp, rc.kernelMtu)]);
      var w3 := SetMtu(w2, n, DeviceMtu(tenantMtu, overlayMtu), rc.setMtu);
      if n in w3.ports || !rc.addPort then (LinkDelete(w3, n, rc.rollback), false)
      else (w3.(ports := w3.ports[n := OvsPort(tag, true)]), true)
  }

  /** delete_vxlan_device: both exit codes are only logged. */
  function DeleteDevice(w: World, n: string, rc: Rc): World {
    LinkDelete(DelPort(w, n, rc.delPort), n, rc.linkDelete)
  }

  ghost predicate HealthyAt(w: World, n: string) { n in w.ports && w.ports[n].healthy }

  /** The device `n` encapsulates under this VNI, between these two addresses. */
  ghost predicate HasEndpoints(w: World, n: string, vni: int, localIp: string, remoteIp: string) {
    n in w.devices && w.devices[n].vni == vni && w.devices[n].localIp == localIp && w.devices[n].remoteIp == remoteIp
  }

  /** `w` and `w'` have the same port and the same device called `n`. */
  ghost predicate SameAt(w: World, w': World, n: string) {
    && (n in w.ports <==> n in w'.ports) && (n in w.ports ==> w.ports[n] == w'.ports[n])
    && (n in w.devices <==> n in w'.devices) && (n in w.devices ==> w.devices[n] == w'.devices[n])
  }

  /** Two worlds agree on everything but the port and device called `n`. */
  ghost predicate SameExcept(w: World, w': World, n: string) {
    forall m :: m != n ==> SameAt(w, w', m)
  }

  lemma SameExceptTransitive(w: World, w': World, w'': World, n: string)
    requires SameExcept(w, w', n) && SameExcept(w', w'', n)
    ensures SameExcept(w, w'', n)
  {
    forall m | m != n ensures SameAt(w, w'', m) {
      assert SameAt(w, w', m) && SameAt(w', w'', m);
    }
  }

  lemma CreateDeviceFrame(w: World, n: string, vni: int, localIp: string, remoteIp: string,
                          tag: nat, tenantMtu: int, overlayMtu: int, rc: Rc)
    requires WellFormed(w)
    ensures var w' := CreateDevice(w, n, vni, localIp, remoteIp, tag, tenantMtu, overlayMtu, rc).0;
            WellFormed(w') && SameExcept(w, w', n)
  {
    var w1 := if n in w.devices then LinkDelete(w, n, rc.retryDelete) else w;
    assert SameExcept(w, w1, n);
  }

  /** Creation succeeds exactly when the name is free on the bridge, the device could be made
      (after clearing a stale one) and `add-port` worked.  Success leaves a healthy tagged port
      on a device with the requested endpoints; failure never leaves a new bridge port, and with
      a working rollback no device either.  No other port or device is touched. */
  lemma CreateDeviceContract(w: World, n: string, vni: int, localIp: string, remoteIp: string,
                             tag: nat, tenantMtu: int, overlayMtu: int, rc: Rc)
    requires WellFormed(w)
    ensures var (w', ok) := CreateDevice(w, n, vni, localIp, remoteIp, tag, tenantMtu, overlayMtu, rc);
            && WellFormed(w') && SameExcept(w, w', n)
            && (ok <==> n !in w.ports && (n in w.devices ==> rc.retryDelete) && rc.linkAdd && rc.addPort)
            && (ok ==> && n in w'.ports && w'.ports[n] == OvsPort(tag, true)
                       && n in w'.devices
                       && (var d := w'.devices[n];
                           d.vni == vni && d.localIp == localIp && d.remoteIp == remoteIp
                           && (rc.setMtu ==> d.mtu == DeviceMtu(tenantMtu, overlayMtu))))
            && (!ok ==> (n in w'.ports <==> n in w.ports))
            && (!ok && rc.rollback && rc.retryDelete ==> n !in w'.devices)
  {
    CreateDeviceFrame(w, n, vni, localIp, remoteIp, tag, tenantMtu, overlayMtu, rc);
  }

  /** With both commands working the name is gone from bridge and kernel. */
  lemma DeleteDeviceContract(w: World, n: string, rc: Rc)
    requires WellFormed(w)
    ensures var w' := DeleteDevice(w, n, rc);
            && WellFormed(w') && SameExcept(w, w', n)
            && (rc.delPort ==> n !in w'.ports) && (rc.linkDelete ==> n !in w'.devices)
            && (n in w'.ports ==> n in w.ports)
  {
    var w1 := DelPort(w, n, rc.delPort);
    assert SameExcept(w, w1, n);
  }
}
