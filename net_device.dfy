/**
 * The device record, the driver operations table, the flag bits and the two
 * state macros of net.h.
 */
module NetDevice {
  import opened Wrappers

  newtype uint8 = x: int | 0 <= x < 0x100
  newtype uint16 = x: int | 0 <= x < 0x1_0000
  newtype uint32 = x: int | 0 <= x < 0x1_0000_0000

  const IFNAMSIZ: nat := 16

  const NET_DEVICE_TYPE_DUMMY: uint16 := 0x0000
  const NET_DEVICE_TYPE_LOOPBACK: uint16 := 0x0001
  const NET_DEVICE_TYPE_ETHERNET: uint16 := 0x0002

  const NET_DEVICE_FLAG_UP: bv16 := 0x0001
  const NET_DEVICE_FLAG_LOOPBACK: bv16 := 0x0010
  const NET_DEVICE_FLAG_BROADCAST: bv16 := 0x0020
  const NET_DEVICE_FLAG_P2P: bv16 := 0x0040
  const NET_DEVICE_FLAG_NEED_ARP: bv16 := 0x0100

  const NET_DEVICE_ADDR_LEN: nat := 16

  /**
   * The transmit function a table points at. net.c sees only a function
   * pointer; the model closes the world over the drivers in this project, so
   * the pointer becomes a tag: the dummy driver's transmit, or some other
   * driver's, whose result the caller of an output supplies.
   */
  datatype TransmitHook = DummyTransmit | DriverTransmit(driver: nat)

  /** struct net_device_ops: open and close are optional, transmit is required. */
  datatype Ops = Ops(hasOpen: bool, hasClose: bool, transmit: TransmitHook)

  /**
   * struct net_device without its next pointer: list order is the position in
   * the registry's sequence. The peer/broadcast union is one 16-byte field;
   * ops is None for the NULL table of a freshly allocated record; priv is an
   * opaque pointer value.
   */
  datatype Device = Device(
    index: uint32,
    name: string,
    devType: uint16,
    mtu: uint16,
    flags: bv16,
    hlen: uint16,
    alen: uint16,
    addr: seq<uint8>,
    peer: seq<uint8>,
    ops: Option<Ops>,
    priv: nat)

  /** NET_DEVICE_IS_UP */
  predicate IsUp(d: Device) {
    d.flags & NET_DEVICE_FLAG_UP != 0
  }

  /** NET_DEVICE_STATE */
  function State(d: Device): string {
    if IsUp(d) then "up" else "down"
  }

  /** NET_DEVICE_IS_UP looks at bit 0x0001 of the flags and nothing else. */
  lemma IsUpReadsOnlyUpBit(a: Device, b: Device)
    requires a.flags & 0x0001 == b.flags & 0x0001
    ensures IsUp(a) == IsUp(b)
  {
  }

  lemma StateNames(d: Device)
    ensures State(d) == "up" <==> IsUp(d)
    ensures State(d) == "down" <==> !IsUp(d)
  {
  }

  predicate SingleBit(f: bv16) {
    f != 0 && f & (f - 1) == 0
  }

  /** The five flag constants are single bits, pairwise distinct. */
  lemma FlagsAreDistinctBits()
    ensures SingleBit(NET_DEVICE_FLAG_UP) && SingleBit(NET_DEVICE_FLAG_LOOPBACK)
    ensures SingleBit(NET_DEVICE_FLAG_BROADCAST) && SingleBit(NET_DEVICE_FLAG_P2P)
    ensures SingleBit(NET_DEVICE_FLAG_NEED_ARP)
    ensures NET_DEVICE_FLAG_UP & (NET_DEVICE_FLAG_LOOPBACK | NET_DEVICE_FLAG_BROADCAST |
                                  NET_DEVICE_FLAG_P2P | NET_DEVICE_FLAG_NEED_ARP) == 0
    ensures NET_DEVICE_FLAG_LOOPBACK & (NET_DEVICE_FLAG_BROADCAST | NET_DEVICE_FLAG_P2P | NET_DEVICE_FLAG_NEED_ARP) == 0
    ensures NET_DEVICE_FLAG_BROADCAST & (NET_DEVICE_FLAG_P2P | NET_DEVICE_FLAG_NEED_ARP) == 0
    ensures NET_DEVICE_FLAG_P2P & NET_DEVICE_FLAG_NEED_ARP == 0
  {
  }

  /** dev->flags |= NET_DEVICE_FLAG_UP */
  function SetUp(d: Device): Device {
    d.(flags := d.flags | NET_DEVICE_FLAG_UP)
  }

  /** dev->flags &= ~NET_DEVICE_FLAG_UP */
  function ClearUp(d: Device): Device {
    d.(flags := d.flags & !NET_DEVICE_FLAG_UP)
  }

  /** Two flag words agree on every bit except UP. */
  predicate SameExceptUp(a: bv16, b: bv16) {
    a & !NET_DEVICE_FLAG_UP == b & !NET_DEVICE_FLAG_UP
  }

  lemma UpBitOps(f: bv16)
    ensures SameExceptUp(f, f | NET_DEVICE_FLAG_UP) && (f | NET_DEVICE_FLAG_UP) & NET_DEVICE_FLAG_UP != 0
    ensures SameExceptUp(f, f & !NET_DEVICE_FLAG_UP) && (f & !NET_DEVICE_FLAG_UP) & NET_DEVICE_FLAG_UP == 0
  {
  }

  /** Setting the UP bit makes the device UP and changes no other bit and no other field. */
  lemma SetUpChangesOnlyUp(d: Device)
    ensures IsUp(SetUp(d)) && SameExceptUp(d.flags, SetUp(d).flags)
    ensures SetUp(d) == d.(flags := SetUp(d).flags)
  {
    UpBitOps(d.flags);
  }

  /** Clearing the UP bit makes the device DOWN and changes no other bit and no other field. */
  lemma ClearUpChangesOnlyUp(d: Device)
    ensures !IsUp(ClearUp(d)) && SameExceptUp(d.flags, ClearUp(d).flags)
    ensures ClearUp(d) == d.(flags := ClearUp(d).flags)
  {
    UpBitOps(d.flags);
  }

  /** Clearing after setting restores the flags of a device that was DOWN. */
  lemma ClearUndoesSet(d: Device)
    requires !IsUp(d)
    ensures ClearUp(SetUp(d)) == d
  {
    assert (d.flags | NET_DEVICE_FLAG_UP) & !NET_DEVICE_FLAG_UP == d.flags;
  }

  /** Clearing the UP bit of a DOWN device changes nothing. */
  lemma ClearUpOfDownDevice(d: Device)
    requires !IsUp(d)
    ensures ClearUp(d) == d
  {
    assert d.flags & !NET_DEVICE_FLAG_UP == d.flags;
  }

  /** mtu is a uint16_t: no device accepts more than 65535 bytes. */
  lemma MtuBound(d: Device, len: nat)
    requires len <= d.mtu as int
    ensures len <= 65535
  {
  }
}
