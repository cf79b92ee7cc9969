/**
 * The device registry of net.c: a head-first list of devices, the static
 * index counter, the open/close state machine, output with its two guards,
 * and the run/shutdown walks over the list.
 */
module Net {
  import opened Wrappers
  import opened NetDevice
  import Decimal
  import Intr
  // Only for dispatching the DummyTransmit tag: the model's stand-in for
  // calling through dev->ops->transmit.
  import Dummy

  /** The static index is an unsigned int: index++ wraps modulo 2^32. */
  const INDEX_MODULUS: int := 0x1_0000_0000

  /** How "%d" reads an unsigned int argument: as a 32-bit two's-complement value. */
  function AsInt32(u: uint32): (i: int)
    ensures -0x8000_0000 <= i < 0x8000_0000
    ensures i % INDEX_MODULUS == u as int
  {
    if u < 0x8000_0000 then u as int else u as int - 0x1_0000_0000
  }

  /** The name snprintf(name, 32, "net%d", index) produces. */
  function DeviceName(index: uint32): string {
    "net" + Decimal.SignedDecimal(AsInt32(index))
  }

  /** Distinct indices give distinct names: the name determines the index. */
  lemma DeviceNameInjective(a: uint32, b: uint32)
    requires DeviceName(a) == DeviceName(b)
    ensures a == b
  {
    assert DeviceName(a)[3..] == Decimal.SignedDecimal(AsInt32(a));
    assert DeviceName(b)[3..] == Decimal.SignedDecimal(AsInt32(b));
    Decimal.SignedDecimalInjective(AsInt32(a), AsInt32(b));
  }

  /** Below 2^31 the name is "net" followed by the plain decimal index. */
  lemma DeviceNameOfSmallIndex(i: uint32)
    requires i < 0x8000_0000
    ensures DeviceName(i) == "net" + Decimal.Decimal(i as nat)
  {
  }

  lemma Pow10Is10Billion()
    ensures Decimal.Pow10(10) == 10_000_000_000
  {
    assert Decimal.Pow10(5) == 100_000 by {
      assert Decimal.Pow10(1) == 10;
      assert Decimal.Pow10(2) == 100;
      assert Decimal.Pow10(3) == 1000;
      assert Decimal.Pow10(4) == 10000;
    }
    assert Decimal.Pow10(6) == 1_000_000;
    assert Decimal.Pow10(7) == 10_000_000;
    assert Decimal.Pow10(8) == 100_000_000;
    assert Decimal.Pow10(9) == 1_000_000_000;
  }

  /** A name has at most 14 characters, so an entry name copied from it is not truncated. */
  lemma DeviceNameFitsEntry(i: uint32)
    ensures |DeviceName(i)| <= 14
    ensures Intr.EntryName(DeviceName(i)) == DeviceName(i)
  {
    var v := AsInt32(i);
    Pow10Is10Billion();
    if v < 0 {
      Decimal.DecimalLength(-v, 10);
    } else {
      Decimal.DecimalLength(v, 10);
    }
  }

  /** The record memory_alloc returns, assumed zero-filled as its allocator does. */
  function Zeroed(): Device {
    Device(0, "", 0, 0, 0, 0, 0, seq(NET_DEVICE_ADDR_LEN, _ => 0), seq(NET_DEVICE_ADDR_LEN, _ => 0), None, 0)
  }

  /** net_device_alloc: ok is whether memory_alloc succeeds; NULL becomes None. */
  function DeviceAlloc(ok: bool): (r: Option<Device>)
    ensures r.Some? <==> ok
    ensures r.Some? ==> r.value.flags == 0 && !IsUp(r.value) && r.value.ops == None && r.value.mtu == 0
                        && |r.value.addr| == NET_DEVICE_ADDR_LEN && |r.value.peer| == NET_DEVICE_ADDR_LEN
  {
    if ok then Some(Zeroed()) else None
  }

  /**
   * net_device_open on device d, where hook is what the driver's open hook
   * returns if the table has one: the status and the device afterwards.
   */
  function OpenOutcome(d: Device, hook: int): (int, Device)
    requires d.ops.Some?
  {
    if IsUp(d) then (-1, d)
    else if d.ops.value.hasOpen && hook == -1 then (-1, d)
    else (0, SetUp(d))
  }

  /**
   * Open refuses an UP device and a failing hook, changing nothing; otherwise
   * (a missing hook counts as success) it sets the UP bit and nothing else.
   */
  lemma OpenSpec(d: Device, hook: int)
    requires d.ops.Some?
    ensures OpenOutcome(d, hook).0 == 0 || OpenOutcome(d, hook).0 == -1
    ensures OpenOutcome(d, hook).0 == -1 <==> IsUp(d) || (d.ops.value.hasOpen && hook == -1)
    ensures OpenOutcome(d, hook).0 == -1 ==> OpenOutcome(d, hook).1 == d
    ensures OpenOutcome(d, hook).0 == 0 ==>
              var e := OpenOutcome(d, hook).1;
              IsUp(e) && SameExceptUp(d.flags, e.flags) && e == d.(flags := e.flags)
  {
    SetUpChangesOnlyUp(d);
  }

  /**
   * net_device_close. Its state guard is `!NET_DEVICE_FLAG_UP`, which tests
   * the constant rather than the device, so it is never taken.
   */
  function CloseOutcome(d: Device, hook: int): (int, Device)
    requires d.ops.Some?
  {
    if NET_DEVICE_FLAG_UP == 0 then (-1, d)
    else if d.ops.value.hasClose && hook == -1 then (-1, d)
    else (0, ClearUp(d))
  }

  /**
   * Close fails only when its hook fails, changing nothing; otherwise (a
   * missing hook counts as success) it clears the UP bit and nothing else.
   */
  lemma CloseSpec(d: Device, hook: int)
    requires d.ops.Some?
    ensures CloseOutcome(d, hook).0 == 0 || CloseOutcome(d, hook).0 == -1
    ensures CloseOutcome(d, hook).0 == -1 <==> d.ops.value.hasClose && hook == -1
    ensures CloseOutcome(d, hook).0 == -1 ==> CloseOutcome(d, hook).1 == d
    ensures CloseOutcome(d, hook).0 == 0 ==>
              var e := CloseOutcome(d, hook).1;
              !IsUp(e) && SameExceptUp(d.flags, e.flags) && e == d.(flags := e.flags)
  {
    ClearUpChangesOnlyUp(d);
  }

  /** Consequence of the constant guard: close's status never depends on the device's state. */
  lemma CloseIgnoresState(d: Device, hook: int, f: bv16)
    requires d.ops.Some?
    ensures CloseOutcome(d, hook).0 == CloseOutcome(d.(flags := f), hook).0
  {
  }

  /** Closing a device that is already down, with no close hook, succeeds and changes nothing. */
  lemma CloseOfDownDeviceSucceeds(d: Device, hook: int)
    requires d.ops.Some? && !d.ops.value.hasClose && !IsUp(d)
    ensures CloseOutcome(d, hook) == (0, d)
  {
    ClearUpOfDownDevice(d);
  }

  /** A successful close undoes a successful open. */
  lemma CloseUndoesOpen(d: Device, openHook: int, closeHook: int)
    requires d.ops.Some? && OpenOutcome(d, openHook).0 == 0
    ensures CloseOutcome(OpenOutcome(d, openHook).1, closeHook).0 == 0 ==>
              CloseOutcome(OpenOutcome(d, openHook).1, closeHook).1 == d
  {
    ClearUndoesSet(d);
  }

  /** The two guards of net_device_output: the device is UP and the payload fits the mtu. */
  predicate OutputAccepted(d: Device, len: nat) {
    IsUp(d) && len <= d.mtu as int
  }

  /**
   * The registry invariant: the counter equals the number of registrations
   * modulo 2^32, the device at position p was registered
   * (|devices| - 1 - p)-th and carries that index and the name made from it,
   * and every registered device has an operations table.
   */
  ghost predicate Registry(devices: seq<Device>, index: uint32) {
    index as int == |devices| % INDEX_MODULUS &&
    forall p :: 0 <= p < |devices| ==>
      devices[p].index as int == (|devices| - 1 - p) % INDEX_MODULUS &&
      devices[p].name == DeviceName(devices[p].index) &&
      devices[p].ops.Some?
  }

  /** Changing the flags of one device keeps the registry invariant. */
  lemma FlagsUpdateKeepsRegistry(devices: seq<Device>, index: uint32, p: nat, f: bv16)
    requires Registry(devices, index) && p < |devices|
    ensures Registry(devices[p := devices[p].(flags := f)], index)
  {
    var ds := devices[p := devices[p].(flags := f)];
    forall q | 0 <= q < |ds|
      ensures ds[q].index == devices[q].index && ds[q].name == devices[q].name && ds[q].ops == devices[q].ops
    {
    }
  }

  /**
   * The device registered k-th (counting from 0, k below 2^31) sits at list
   * position |devices| - 1 - k, has index k and the name "net" followed by
   * the decimal digits of k.
   */
  lemma RegisteredKth(devices: seq<Device>, index: uint32, k: nat)
    requires Registry(devices, index) && k < |devices| && k < 0x8000_0000
    ensures devices[|devices| - 1 - k].index as int == k
    ensures devices[|devices| - 1 - k].name == "net" + Decimal.Decimal(k)
  {
    var p := |devices| - 1 - k;
    assert |devices| - 1 - p == k;
    var d := devices[p];
    assert d.index as int == k % INDEX_MODULUS && d.name == DeviceName(d.index);
    SmallModulus(k);
    DeviceNameOfSmallIndex(d.index);
  }

  lemma SmallModulus(k: nat)
    requires k < INDEX_MODULUS
    ensures k % INDEX_MODULUS == k
  {
  }

  /**
   * The counter wraps: the devices registered 2^32 apart (the newest one and
   * the one 2^32 positions behind it) share their index and their name.
   */
  lemma NamesRepeatAfterWrap(devices: seq<Device>, index: uint32)
    requires Registry(devices, index) && |devices| > INDEX_MODULUS
    ensures devices[0].index == devices[INDEX_MODULUS].index
    ensures devices[0].name == devices[INDEX_MODULUS].name
  {
    var n := |devices| - 1;
    assert devices[0].index as int == n % INDEX_MODULUS;
    assert devices[INDEX_MODULUS].index as int == (n - INDEX_MODULUS) % INDEX_MODULUS;
    WrapModulus(n - INDEX_MODULUS);
  }

  lemma WrapModulus(m: nat)
    ensures (m + INDEX_MODULUS) % INDEX_MODULUS == m % INDEX_MODULUS
  {
  }

  /** Prepending a device with the next index and its name keeps the registry invariant. */
  lemma RegisterKeepsRegistry(devices: seq<Device>, index: uint32, d: Device)
    requires Registry(devices, index) && d.ops.Some? && d.index == index && d.name == DeviceName(index)
    ensures Registry([d] + devices, ((index as int + 1) % INDEX_MODULUS) as uint32)
  {
    var ds := [d] + devices;
    NextModulus(|devices|);
    forall p | 0 <= p < |ds|
      ensures ds[p].index as int == (|ds| - 1 - p) % INDEX_MODULUS
      ensures ds[p].name == DeviceName(ds[p].index) && ds[p].ops.Some?
    {
      if p > 0 {
        assert ds[p] == devices[p - 1];
        assert |ds| - 1 - p == |devices| - 1 - (p - 1);
      }
    }
  }

  /** The counter after one more registration is the next count modulo 2^32. */
  lemma NextModulus(n: nat)
    ensures (n % INDEX_MODULUS + 1) % INDEX_MODULUS == (n + 1) % INDEX_MODULUS
  {
  }

  /** One call of the driver's transmit: device ordinal, type, data, length, destination. */
  datatype TxCall = TxCall(dev: nat, pktType: uint16, data: seq<uint8>, len: nat, dst: nat)

  /** net_input_handler (declared in net.h as net_device_input): a stub that reports success. */
  function InputHandler(pktType: uint16, data: seq<uint8>, dev: Device): (r: int)
    ensures r == 0
  {
    0
  }

  /**
   * The registry's state. devices[0] is the head of the C list, so the
   * device registered k-th (counting from 0) sits at position
   * |devices| - 1 - k and has index k modulo 2^32.
   */
  class Stack {
    var devices: seq<Device>
    var index: uint32
    const intr: Intr.Controller

    ghost predicate Valid()
      reads this
    {
      Registry(devices, index)
    }

    /** List position of the device with registration ordinal k. */
    function Position(k: nat): (p: nat)
      reads this
      requires k < |devices|
      ensures p < |devices|
    {
      |devices| - 1 - k
    }

    /** The zero-initialised statics: an empty list and index 0. */
    constructor (intr: Intr.Controller)
      ensures Valid() && devices == [] && index == 0 && this.intr == intr
    {
      devices, index := [], 0;
      this.intr := intr;
    }

    /** net_init: initialise the interrupt subsystem, whose init cannot fail. */
    method Init() returns (r: int)
      requires intr.Valid()
      modifies intr
      ensures intr.Valid() && r == 0
      ensures intr.sigmask == {Intr.SIGHUP} && !intr.started && !intr.terminated
      ensures intr.irqs == old(intr.irqs) && intr.pending == old(intr.pending) && intr.calls == old(intr.calls)
    {
      var e := intr.Init();
      r := if e == -1 then -1 else 0;
    }

    /** net_device_register: take the next index, name the device from it, prepend it. */
    method Register(dev: Device) returns (r: int)
      requires Valid() && dev.ops.Some?
      modifies this
      ensures Valid() && r == 0
      ensures devices == [dev.(index := old(index), name := DeviceName(old(index)))] + old(devices)
      ensures index as int == (old(index) as int + 1) % INDEX_MODULUS
    {
      var d := dev.(index := index);
      d := d.(name := DeviceName(d.index));
      RegisterKeepsRegistry(devices, index, d);
      index := ((index as int + 1) % INDEX_MODULUS) as uint32;
      devices := [d] + devices;
      r := 0;
    }

    /** net_device_open on the device at list position p. */
    method Open(p: nat, hook: int) returns (r: int)
      requires Valid() && p < |devices|
      modifies this
      ensures Valid() && index == old(index)
      ensures r == OpenOutcome(old(devices[p]), hook).0
      ensures devices == old(devices)[p := OpenOutcome(old(devices[p]), hook).1]
    {
      var d := devices[p];
      if IsUp(d) {
        return -1;
      }
      if d.ops.value.hasOpen {
        if hook == -1 {
          return -1;
        }
      }
      FlagsUpdateKeepsRegistry(devices, index, p, SetUp(d).flags);
      devices := devices[p := SetUp(d)];
      r := 0;
    }

    /** net_device_close on the device at list position p, with the constant guard kept. */
    method Close(p: nat, hook: int) returns (r: int)
      requires Valid() && p < |devices|
      modifies this
      ensures Valid() && index == old(index)
      ensures r == CloseOutcome(old(devices[p]), hook).0
      ensures devices == old(devices)[p := CloseOutcome(old(devices[p]), hook).1]
    {
      var d := devices[p];
      if NET_DEVICE_FLAG_UP == 0 {
        return -1;
      }
      if d.ops.value.hasClose {
        if hook == -1 {
          return -1;
        }
      }
      FlagsUpdateKeepsRegistry(devices, index, p, ClearUp(d).flags);
      devices := devices[p := ClearUp(d)];
      r := 0;
    }

    /**
     * net_device_output on the device with registration ordinal k. txResult
     * is what a driver's transmit other than the dummy one returns.
     */
    method Output(k: nat, pktType: uint16, data: seq<uint8>, dst: nat, txResult: int)
      returns (r: int, tx: Option<TxCall>)
      requires Valid() && intr.Valid() && k < |devices|
      modifies intr
      ensures intr.Valid()
      ensures r == 0 || r == -1
      ensures tx.Some? <==> OutputAccepted(devices[Position(k)], |data|)
      ensures tx.Some? ==> tx.value == TxCall(k, pktType, data, |data|, dst)
      ensures tx.None? ==> r == -1 && unchanged(intr)
      ensures tx.Some? && devices[Position(k)].ops.value.transmit.DriverTransmit? ==>
                (r == -1 <==> txResult == -1) && unchanged(intr)
      ensures tx.Some? && devices[Position(k)].ops.value.transmit.DummyTransmit? ==>
                r == 0 && intr.pending == old(intr.pending) + [Intr.Signal(Dummy.DUMMY_IRQ)]
                && intr.irqs == old(intr.irqs) && intr.sigmask == old(intr.sigmask) && intr.calls == old(intr.calls)
                && intr.started == old(intr.started) && intr.terminated == old(intr.terminated)
    {
      var d := devices[Position(k)];
      if !IsUp(d) {
        return -1, None;
      }
      if |data| > d.mtu as int {
        return -1, None;
      }
      tx := Some(TxCall(k, pktType, data, |data|, dst));
      var result;
      match d.ops.value.transmit {
        case DummyTransmit =>
          result := Dummy.Transmit(intr, d, pktType, data, dst);
        case DriverTransmit(_) =>
          result := txResult;
      }
      r := if result == -1 then -1 else 0;
    }

    /**
     * net_run. platformOk is whether intr_run succeeds; openHook(p) is what
     * the open hook of the device at position p returns. Failures of single
     * devices are ignored.
     */
    method Run(platformOk: bool, openHook: nat -> int) returns (r: int)
      requires Valid() && intr.Valid()
      modifies this, intr
      ensures Valid() && intr.Valid() && index == old(index)
      ensures r == (if platformOk then 0 else -1)
      ensures !platformOk ==> devices == old(devices)
      ensures platformOk ==> |devices| == |old(devices)|
      ensures platformOk ==> forall p :: 0 <= p < |devices| ==> devices[p] == OpenOutcome(old(devices[p]), openHook(p)).1
      ensures intr.started == (old(intr.started) || platformOk)
      ensures intr.terminated == (old(intr.terminated) && !platformOk)
      ensures intr.irqs == old(intr.irqs) && intr.sigmask == old(intr.sigmask)
      ensures intr.pending == old(intr.pending) && intr.calls == old(intr.calls)
    {
      r := intr.Run(platformOk);
      if r == -1 {
        return;
      }
      ghost var started, terminated := intr.started, intr.terminated;
      var p := 0;
      while p < |devices|
        invariant 0 <= p <= |devices| == |old(devices)|
        invariant Valid() && index == old(index)
        invariant forall q :: 0 <= q < p ==> devices[q] == OpenOutcome(old(devices[q]), openHook(q)).1
        invariant forall q :: p <= q < |devices| ==> devices[q] == old(devices[q])
        invariant intr.started == started && intr.terminated == terminated
        invariant intr.irqs == old(intr.irqs) && intr.sigmask == old(intr.sigmask)
        invariant intr.pending == old(intr.pending) && intr.calls == old(intr.calls)
        invariant intr.Valid()
      {
        var _ := Open(p, openHook(p));
        p := p + 1;
      }
    }

    /**
     * net_shutdown: close every device in list order, ignoring failures,
     * then intr_shutdown. closeHook(p) is what the close hook of the device
     * at position p returns.
     */
    method Shutdown(closeHook: nat -> int)
      requires Valid() && intr.Valid()
      modifies this, intr
      ensures Valid() && intr.Valid() && index == old(index)
      ensures |devices| == |old(devices)|
      ensures forall p :: 0 <= p < |devices| ==> devices[p] == CloseOutcome(old(devices[p]), closeHook(p)).1
      ensures !old(intr.started) ==> unchanged(intr)
      ensures old(intr.started) ==> intr.terminated
      ensures old(intr.started) && !old(intr.terminated) ==>
                intr.calls == old(intr.calls) + Intr.Dispatch(intr.irqs, old(intr.pending) + [Intr.Signal(Intr.SIGHUP)])
                && intr.pending == []
      ensures old(intr.started) && old(intr.terminated) ==>
                intr.calls == old(intr.calls) && intr.pending == old(intr.pending) + [Intr.Signal(Intr.SIGHUP)]
      ensures intr.irqs == old(intr.irqs) && intr.sigmask == old(intr.sigmask) && intr.started == old(intr.started)
    {
      var p := 0;
      while p < |devices|
        invariant 0 <= p <= |devices| == |old(devices)|
        invariant Valid() && index == old(index)
        invariant forall q :: 0 <= q < p ==> devices[q] == CloseOutcome(old(devices[q]), closeHook(q)).1
        invariant forall q :: p <= q < |devices| ==> devices[q] == old(devices[q])
        invariant unchanged(intr)
      {
        var _ := Close(p, closeHook(p));
        p := p + 1;
      }
      intr.Shutdown();
    }
  }
}
