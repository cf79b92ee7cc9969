/**
 * The dummy driver of driver/dummy.c. Its operations (transmit, the ISR and
 * the operations table) come first, in module Dummy, because the device
 * registry dispatches into dummy_transmit; dummy_init, which calls into the
 * registry, is in module DummyDevice below.
 */
module Dummy {
  import opened NetDevice
  import Intr

  /** DUMMY_IRQ is INTR_IRQ_BASE; DUMMY_MTU is UINT16_MAX. */
  const DUMMY_IRQ: nat := Intr.INTR_IRQ_BASE
  const DUMMY_MTU: uint16 := 0xFFFF

  /** dummy_ops: transmit only, no open or close hook. */
  function DummyOps(): (ops: Ops)
    ensures !ops.hasOpen && !ops.hasClose && ops.transmit == DummyTransmit
  {
    Ops(false, false, DummyTransmit)
  }

  /** dummy_transmit: drops the data, raises DUMMY_IRQ once and reports success. */
  method Transmit(intr: Intr.Controller, dev: Device, pktType: uint16, data: seq<uint8>, dst: nat)
    returns (r: int)
    requires intr.Valid()
    modifies intr
    ensures intr.Valid() && r == 0
    ensures intr.pending == old(intr.pending) + [Intr.Signal(DUMMY_IRQ)]
    ensures intr.irqs == old(intr.irqs) && intr.sigmask == old(intr.sigmask) && intr.calls == old(intr.calls)
    ensures intr.started == old(intr.started) && intr.terminated == old(intr.terminated)
  {
    var _ := intr.Raise(DUMMY_IRQ);
    r := 0;
  }

  /** dummy_isr: only logs, and reports success. */
  function Isr(irq: nat, dev: nat): (r: int)
    ensures r == 0
  {
    0
  }
}

/** dummy_init: build a dummy device, register it, and attach it to DUMMY_IRQ as a shared line. */
module DummyDevice {
  import opened Wrappers
  import opened NetDevice
  import Intr
  import Net
  import opened Dummy

  /** The record dummy_init hands to net_device_register. */
  function Prepared(): (d: Device)
    ensures d.devType == NET_DEVICE_TYPE_DUMMY && d.mtu == DUMMY_MTU && d.hlen == 0 && d.alen == 0
    ensures d.ops == Some(DummyOps()) && !IsUp(d)
  {
    Net.Zeroed().(devType := NET_DEVICE_TYPE_DUMMY, mtu := DUMMY_MTU, hlen := 0, alen := 0, ops := Some(DummyOps()))
  }

  /**
   * allocOk is whether net_device_alloc succeeds, entryAllocOk whether the
   * entry allocation inside intr_request_irq does. The result is the
   * registration ordinal of the new device, or None for NULL.
   */
  method DummyInit(net: Net.Stack, allocOk: bool, entryAllocOk: bool) returns (dev: Option<nat>)
    requires net.Valid() && net.intr.Valid()
    modifies net, net.intr
    ensures net.Valid() && net.intr.Valid()
    ensures !allocOk ==> dev == None && unchanged(net) && unchanged(net.intr)
    ensures allocOk ==> dev == Some(|old(net.devices)|)
    ensures allocOk ==>
              net.devices == [Prepared().(index := old(net.index), name := Net.DeviceName(old(net.index)))]
                             + old(net.devices)
    ensures allocOk ==> net.index as int == (old(net.index) as int + 1) % Net.INDEX_MODULUS
    ensures allocOk && entryAllocOk && !Intr.Conflicts(old(net.intr.irqs), DUMMY_IRQ, Intr.INTR_IRQ_SHARED) ==>
              net.intr.irqs == [Intr.Entry(DUMMY_IRQ, Intr.DummyIsr, Intr.INTR_IRQ_SHARED,
                                           Net.DeviceName(old(net.index)), |old(net.devices)|)]
                               + old(net.intr.irqs)
              && net.intr.sigmask == old(net.intr.sigmask) + {DUMMY_IRQ}
    ensures !(entryAllocOk && !Intr.Conflicts(old(net.intr.irqs), DUMMY_IRQ, Intr.INTR_IRQ_SHARED)) ==>
              net.intr.irqs == old(net.intr.irqs) && net.intr.sigmask == old(net.intr.sigmask)
    ensures net.intr.started == old(net.intr.started) && net.intr.terminated == old(net.intr.terminated)
    ensures net.intr.pending == old(net.intr.pending) && net.intr.calls == old(net.intr.calls)
  {
    var record := Net.DeviceAlloc(allocOk);
    if record.None? {
      return None;
    }
    var d := record.value.(devType := NET_DEVICE_TYPE_DUMMY, mtu := DUMMY_MTU, hlen := 0, alen := 0,
                              ops := Some(DummyOps()));
    var _ := net.Register(d);
    var ordinal := |net.devices| - 1;
    var name := net.devices[0].name;
    Net.DeviceNameFitsEntry(net.devices[0].index);
    var _ := net.intr.RequestIrq(DUMMY_IRQ, Intr.DummyIsr, Intr.INTR_IRQ_SHARED, name, ordinal, entryAllocOk);
    dev := Some(ordinal);
  }

  /** With no hooks, open and close on a dummy device are pure flag transitions, whatever a hook would say. */
  lemma DummyOpenCloseAreFlagFlips(d: Device, hook: int)
    requires d.ops == Some(DummyOps())
    ensures Net.OpenOutcome(d, hook) == if IsUp(d) then (-1, d) else (0, SetUp(d))
    ensures Net.CloseOutcome(d, hook) == (0, ClearUp(d))
  {
  }

  /** Requests made by dummy_init are all shared, so another one never conflicts with them. */
  lemma DummyRequestsNeverConflict(entries: seq<Intr.Entry>)
    requires forall p :: 0 <= p < |entries| && entries[p].irq == DUMMY_IRQ ==>
               entries[p].handler == Intr.DummyIsr && entries[p].flags == Intr.INTR_IRQ_SHARED
    ensures !Intr.Conflicts(entries, DUMMY_IRQ, Intr.INTR_IRQ_SHARED)
  {
    Intr.SharedLineStaysOpen(entries, DUMMY_IRQ);
  }
}
