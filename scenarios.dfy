/**
 * Client programs that drive both registries from their zero state. Each
 * states, in its postcondition, what the source's behaviour makes of that
 * sequence of calls.
 */
module Scenarios {
  import opened Wrappers
  import opened NetDevice
  import Intr
  import Net
  import Dummy
  import Decimal
  import DummyDevice

  /** An exclusive (non-shared) registration flag. */
  const EXCLUSIVE: bv32 := 0

  /** Three registrations get indices 0, 1, 2 and names net0, net1, net2, newest first in the list. */
  method RegisterThree(d: Device) returns (indices: seq<uint32>, names: seq<string>)
    requires d.ops.Some?
    ensures indices == [2, 1, 0]
    ensures names == ["net2", "net1", "net0"]
  {
    var intr := new Intr.Controller();
    var net := new Net.Stack(intr);
    var r := net.Register(d);
    r := net.Register(d);
    r := net.Register(d);
    indices := [net.devices[0].index, net.devices[1].index, net.devices[2].index];
    names := [net.devices[0].name, net.devices[1].name, net.devices[2].name];
    assert net.devices[0].index == 2 && net.devices[1].index == 1 && net.devices[2].index == 0;
    SmallName(0, "0");
    SmallName(1, "1");
    SmallName(2, "2");
    assert "net" + "0" == "net0" && "net" + "1" == "net1" && "net" + "2" == "net2";
    assert names == [Net.DeviceName(2), Net.DeviceName(1), Net.DeviceName(0)];
  }

  /** The name of a one-digit index. */
  lemma SmallName(i: uint32, digit: string)
    requires i < 10 && digit == [('0' as int + i as int) as char]
    ensures Net.DeviceName(i) == "net" + digit
  {
    Net.DeviceNameOfSmallIndex(i);
    assert Decimal.Decimal(i as nat) == [Decimal.DigitChar(i as nat)];
  }

  /**
   * n registrations from the zero state: the k-th call (counting from 0)
   * gives its device index k and the name "net" followed by the digits of k,
   * and the list holds the devices newest first.
   */
  method RegisterMany(d: Device, n: nat) returns (indices: seq<uint32>, names: seq<string>)
    requires d.ops.Some? && n < 0x8000_0000
    ensures |indices| == n && |names| == n
    ensures forall k :: 0 <= k < n ==> indices[k] as int == k && names[k] == "net" + Decimal.Decimal(k)
  {
    var intr := new Intr.Controller();
    var net := new Net.Stack(intr);
    indices, names := [], [];
    var i := 0;
    while i < n
      invariant 0 <= i <= n && net.Valid() && |net.devices| == i
      invariant |indices| == i && |names| == i
      invariant forall k :: 0 <= k < i ==> indices[k] as int == k && names[k] == "net" + Decimal.Decimal(k)
    {
      var _ := net.Register(d);
      Net.RegisteredKth(net.devices, net.index, i);
      indices := indices + [net.devices[0].index];
      names := names + [net.devices[0].name];
      i := i + 1;
    }
  }

  /** An exclusive line refuses a second exclusive request and keeps only the first entry. */
  method ExclusiveConflict() returns (first: int, second: int, entries: seq<Intr.Entry>)
    ensures first == 0 && second == -1
    ensures entries == [Intr.Entry(30, Intr.DriverIsr(0), EXCLUSIVE, "A", 0)]
  {
    var intr := new Intr.Controller();
    var r := intr.Init();
    first := intr.RequestIrq(30, Intr.DriverIsr(0), EXCLUSIVE, "A", 0, true);
    Intr.SharedFlagIsNonZero();
    Intr.ExclusiveLineIsClosed(intr.irqs, 0, EXCLUSIVE);
    second := intr.RequestIrq(30, Intr.DriverIsr(1), EXCLUSIVE, "B", 0, true);
    entries := intr.irqs;
  }

  /**
   * Two shared requests on one line both succeed; one raise of that line
   * calls the later registration first, each handler once.
   */
  method SharedLineOrder() returns (first: int, second: int, calls: seq<Intr.Call>)
    ensures first == 0 && second == 0
    ensures calls == [Intr.Call(Intr.DriverIsr(1), 30, 0), Intr.Call(Intr.DriverIsr(0), 30, 0)]
  {
    var intr := new Intr.Controller();
    var r := intr.Init();
    var a := Intr.Entry(30, Intr.DriverIsr(0), Intr.INTR_IRQ_SHARED, "A", 0);
    var b := Intr.Entry(30, Intr.DriverIsr(1), Intr.INTR_IRQ_SHARED, "B", 0);
    TwoSharedRequests(a, b);
    first := intr.RequestIrq(30, a.handler, a.flags, a.name, 0, true);
    second := intr.RequestIrq(30, b.handler, b.flags, b.name, 0, true);
    r := intr.Run(true);
    r := intr.Raise(30);
    assert intr.pending == [Intr.Signal(30)];
    intr.Shutdown();
    calls := intr.calls;
    Intr.SighupIsLow();
    RaiseThenHangUp(intr.irqs, 30);
    SelectTwo(b, a, 30);
  }

  /** Two shared requests on one unused line: neither conflicts. */
  lemma TwoSharedRequests(a: Intr.Entry, b: Intr.Entry)
    requires a.irq == b.irq && a.flags == Intr.INTR_IRQ_SHARED && b.flags == Intr.INTR_IRQ_SHARED
    requires |a.name| <= Intr.ENTRY_NAME_MAX
    ensures !Intr.Conflicts([], a.irq, a.flags)
    ensures !Intr.Conflicts([Intr.Entry(a.irq, a.handler, a.flags, Intr.EntryName(a.name), a.dev)], b.irq, b.flags)
  {
    Intr.SecondRequest([], a, b.flags);
  }

  /** One raised line followed by SIGHUP dispatches exactly the selection for that line. */
  lemma RaiseThenHangUp(entries: seq<Intr.Entry>, sig: nat)
    requires sig != Intr.SIGHUP
    ensures Intr.Dispatch(entries, [Intr.Signal(sig), Intr.Signal(Intr.SIGHUP)]) == Intr.Select(entries, sig)
  {
    Intr.DispatchOne(entries, sig);
    Intr.DispatchConcat(entries, [Intr.Signal(sig)], [Intr.Signal(Intr.SIGHUP)]);
  }

  /** Both entries of a two-entry line are selected, in list order. */
  lemma SelectTwo(newer: Intr.Entry, older: Intr.Entry, irq: nat)
    requires newer.irq == irq && older.irq == irq
    ensures Intr.Select([newer, older], irq) == [Intr.CallOf(newer), Intr.CallOf(older)]
  {
    var es := [newer, older];
    assert es[..1] == [newer];
    assert [newer][..0] == [];
    assert Intr.Select([], irq) == [];
    assert Intr.Select([newer], irq) == Intr.Select([], irq) + [Intr.CallOf(newer)];
    assert Intr.Select(es, irq) == Intr.Select([newer], irq) + [Intr.CallOf(older)];
  }

  /** Shutting down without a prior run calls no handler and changes nothing. */
  method ShutdownWithoutRun() returns (calls: seq<Intr.Call>, pending: seq<Intr.Wakeup>, entries: seq<Intr.Entry>)
    ensures calls == [] && pending == []
    ensures entries == [Intr.Entry(30, Intr.DriverIsr(0), Intr.INTR_IRQ_SHARED, "A", 0)]
  {
    var intr := new Intr.Controller();
    var r := intr.Init();
    r := intr.RequestIrq(30, Intr.DriverIsr(0), Intr.INTR_IRQ_SHARED, "A", 0, true);
    intr.Shutdown();
    calls, pending, entries := intr.calls, intr.pending, intr.irqs;
  }

  /** After shutdown, a raised line makes no handler run. */
  method NoHandlerAfterShutdown() returns (before: seq<Intr.Call>, after: seq<Intr.Call>)
    ensures before == [] && after == []
  {
    var intr := new Intr.Controller();
    var r := intr.Init();
    r := intr.RequestIrq(30, Intr.DriverIsr(0), Intr.INTR_IRQ_SHARED, "A", 0, true);
    r := intr.Run(true);
    intr.Shutdown();
    before := intr.calls;
    r := intr.Raise(30);
    intr.Service();
    after := intr.calls;
  }

  /**
   * A device with mtu 100 and an outside driver: after run, a 150-byte output
   * is refused without a transmit, and a 50-byte output is transmitted once
   * with the same bytes.
   */
  method MtuGuard(data: seq<uint8>) returns (tooBig: int, tooBigTx: Option<Net.TxCall>,
                                            fits: int, fitsTx: Option<Net.TxCall>)
    requires |data| == 50
    ensures tooBig == -1 && tooBigTx == None
    ensures fits == 0 && fitsTx == Some(Net.TxCall(0, 0x0800, data, 50, 7))
  {
    var intr := new Intr.Controller();
    var net := new Net.Stack(intr);
    var r := net.Init();
    var d := Net.Zeroed().(mtu := 100, ops := Some(Ops(false, false, DriverTransmit(1))));
    r := net.Register(d);
    r := net.Run(true, _ => 0);
    tooBig, tooBigTx := net.Output(0, 0x0800, data + data + data, 7, 0);
    fits, fitsTx := net.Output(0, 0x0800, data, 7, 0);
  }

  /**
   * The dummy driver end to end: dummy_init, net_run, one output, then
   * shutdown. The output succeeds, its transmit raises DUMMY_IRQ, and the
   * dispatch thread calls dummy_isr once for the device before it stops.
   */
  method DummyEndToEnd(data: seq<uint8>) returns (dev: Option<nat>, sent: int, calls: seq<Intr.Call>)
    requires |data| <= 0xFFFF
    ensures dev == Some(0)
    ensures sent == 0
    ensures calls == [Intr.Call(Intr.DummyIsr, Dummy.DUMMY_IRQ, 0)]
  {
    var intr := new Intr.Controller();
    var net := new Net.Stack(intr);
    var r := net.Init();
    dev := DummyDevice.DummyInit(net, true, true);
    r := net.Run(true, _ => 0);
    var tx;
    sent, tx := net.Output(0, 0x0800, data, 0, -1);
    net.Shutdown(_ => 0);
    calls := intr.calls;
    Intr.IrqBaseIsNotSighup();
    RaiseThenHangUp(intr.irqs, Dummy.DUMMY_IRQ);
    SelectOne(intr.irqs[0], Dummy.DUMMY_IRQ);
  }

  /** The single entry of a one-entry line is selected. */
  lemma SelectOne(e: Intr.Entry, irq: nat)
    requires e.irq == irq
    ensures Intr.Select([e], irq) == [Intr.CallOf(e)]
  {
    assert [e][..0] == [];
  }
}
