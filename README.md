# microps device and interrupt registries in Dafny

This project models the two registries at the bottom of the microps user-space TCP/IP stack, plus the dummy driver that connects them.

- **Device registry (`net.c`, `net.h`).** Drivers register network devices in a head-first list. Each device gets a sequential index and a name made from it (`net0`, `net1`, …). Devices move between DOWN and UP through `open`/`close`. Output is guarded by the UP flag and the MTU before it reaches the driver's `transmit`.
- **Interrupt registry (`platform/linux/intr.c`).** This one keeps a head-first list of IRQ entries. Sharing of a line is governed by the `INTR_IRQ_SHARED` flag. A dispatch thread waits for signals. For each signal it calls every handler registered on that line, and it stops on `SIGHUP` or a wait error.
- **Dummy driver (`driver/dummy.c`).** Its `transmit` drops the packet and raises its IRQ. Its ISR does nothing but log. `dummy_init` registers a device and a shared line. Together these give a closed loop: init, run, output, interrupt, handler.

Modules:

- `NetDevice`: the device record, the driver operations table, the flag bits, and the `NET_DEVICE_IS_UP` / `NET_DEVICE_STATE` macros. All of it is pure.
- `Decimal`: what `%d` prints.
- `Net`: the device registry, as class `Net.Stack`.
  - It holds the `devices` list and the static `index` counter.
  - Its methods `Init`, `Register`, `Open`, `Close`, `Output`, `Run` and `Shutdown` update that state.
  - Open and close are specified by the functions `OpenOutcome` and `CloseOutcome`, which have their own lemmas (`OpenSpec`, `CloseSpec` and the lemmas after them).
  - Output is specified by the predicate `OutputAccepted`, which states its two guards (UP and the mtu).
- `Intr`: the interrupt registry, as class `Intr.Controller`.
  - Its state is `irqs`, `sigmask` and whether the thread was started or has finished.
  - It also models the queue of raised but undelivered lines, and the trace of handler calls.
  - The dispatch loop is the method `ThreadLoop`, proved equal to the pure trace function `Dispatch`.
- `Dummy` and `DummyDevice`: `dummy_transmit`, `dummy_isr` and `dummy_ops`, then `dummy_init`. `dummy.c` is split into two modules because the registry calls into `dummy_transmit` while `dummy_init` calls into the registry.
- `Scenarios`: client programs that start from the zero state. Their postconditions state end-to-end behaviour: registration order and names, the sharing rule, dispatch order, the shutdown cases, the MTU guard, and the dummy loop.

How the model is set up:

- **Devices and entries are values.** A device is addressed by its list position, or by its registration ordinal `k`, which sits at list position `|devices| - 1 - k`.
- **Outside effects become parameters.** What the model cannot see is passed in:
  - whether `memory_alloc` succeeds;
  - whether `intr_run`'s platform calls succeed;
  - what a driver's open, close or transmit hook returns.
- **The thread is a queue.** `intr_raise_irq` appends `Signal(irq)` to `pending`. `Intr.Controller.Service` is the dispatch thread taking everything pending, in order. `intr_shutdown` appends `SIGHUP` and then waits for the thread to finish, which is a `Service` call. The model gives one delivery per raise (queued semantics, no coalescing).

Places where the code does something other than it seems to intend, or than its header says; the model follows the code:

- **The close guard.** `net_device_close` tests `!NET_DEVICE_FLAG_UP`, a constant, instead of the device's flag, so the guard never fires (net.c:60). Testing the device's own flag is the evident intent; the model keeps the code's behaviour. `Net.CloseIgnoresState` and `Net.CloseOfDownDeviceSucceeds` state the consequences: closing an already-down device with no close hook succeeds and changes nothing.
- **The index counter wraps.** The counter is an `unsigned int`, so the model wraps it modulo 2^32. The name is what `%d` prints for the index read as a signed 32-bit value, so index 2^31 is named `net-2147483648`. Distinct `uint32` indices give distinct names (`Net.DeviceNameInjective`). After 2^32 registrations, indices and names repeat (`Net.NamesRepeatAfterWrap`).
- **The input handler's name.** `net.h:56` declares `net_device_input`, but `net.c:99` defines `net_input_handler`. The model follows the definition (`Net.InputHandler`).

## Model

| member | source | states |
|---|---|---|
| NetDevice.IsUp | net.h:20 | NET_DEVICE_IS_UP: the UP bit of the flags is set; specified by `NetDevice.IsUpReadsOnlyUpBit` and the set/clear lemmas |
| NetDevice.State | net.h:21 | NET_DEVICE_STATE: specified by `NetDevice.StateNames` |
| NetDevice.IsUpReadsOnlyUpBit | net.h:12-20 | two devices whose flags agree on bit 0x0001 are both UP or both DOWN: the macro reads no other bit |
| NetDevice.StateNames | net.h:21 | the state string is "up" exactly when the device is UP, and "down" exactly when it is not |
| NetDevice.FlagsAreDistinctBits | net.h:12-16 | UP, LOOPBACK, BROADCAST, P2P and NEED_ARP are each a single bit, and no two share a bit |
| NetDevice.SetUp | net.c:53 | the OR of NET_DEVICE_FLAG_UP into the flags; specified by `NetDevice.SetUpChangesOnlyUp` |
| NetDevice.ClearUp | net.c:70 | the AND of the flags with the complement of NET_DEVICE_FLAG_UP; specified by `NetDevice.ClearUpChangesOnlyUp` |
| NetDevice.SetUpChangesOnlyUp | net.c:53 | setting the UP bit makes the device UP; every other flag bit and every other field stays the same |
| NetDevice.ClearUpChangesOnlyUp | net.c:70 | clearing the UP bit makes the device DOWN; every other flag bit and every other field stays the same |
| NetDevice.ClearUndoesSet | net.c:53-70 | for a device that was DOWN, clearing UP after setting it gives back the original record |
| NetDevice.ClearUpOfDownDevice | net.c:70 | clearing UP on a DOWN device changes nothing |
| NetDevice.MtuBound | net.h:28 | a payload within any device's mtu is at most 65535 bytes |
| Decimal.Decimal | net.c:33-34 | the numeral is non-empty, all digits, and has no leading zero |
| Decimal.ValueOfDecimal | net.c:33-34 | reading the numeral back gives the number (a round trip) |
| Decimal.DecimalInjective | net.c:33-34 | distinct numbers print differently |
| Decimal.DecimalLength | net.c:33-34 | a number below 10^k prints as at most k digits |
| Decimal.SignedDecimal | net.c:33-34 | the text starts with '-' exactly when the value is negative |
| Decimal.SignedDecimalInjective | net.c:33-34 | distinct signed values print differently |
| Net.AsInt32 | net.c:33-34 | an unsigned index read as a signed 32-bit value lies in [-2^31, 2^31) and agrees with the index modulo 2^32 |
| Net.DeviceName | net.c:33 | the name `"net%d"` makes from an index; specified by `Net.DeviceNameInjective`, `Net.DeviceNameOfSmallIndex` and `Net.DeviceNameFitsEntry` |
| Net.DeviceNameInjective | net.c:32-34 | the device name determines the index, so distinct indices get distinct names |
| Net.DeviceNameOfSmallIndex | net.c:33-34 | below 2^31 the name is "net" followed by the plain decimal index |
| Net.DeviceNameFitsEntry | driver/dummy.c:48 | every device name has at most 14 characters, so the 15-character cut in an IRQ entry keeps it whole |
| Net.Zeroed | net.c:19 | the zero-filled record `memory_alloc` is assumed to return; specified by `Net.DeviceAlloc` |
| Net.DeviceAlloc | net.c:15-25 | allocation gives a record exactly when memory is available; the record (assumed zero-filled) is DOWN, has no ops table, mtu 0, and 16-byte address fields |
| Net.OpenOutcome | net.c:42-56 | status and device after net_device_open; specified by `Net.OpenSpec` |
| Net.OpenSpec | net.c:42-56 | open returns -1 exactly when the device is already UP or its open hook returns -1, and then changes nothing; otherwise it returns 0 and sets only the UP bit (a missing hook counts as success) |
| Net.CloseOutcome | net.c:59-73 | status and device after net_device_close, constant guard kept; specified by `Net.CloseSpec`, `Net.CloseIgnoresState` and `Net.CloseOfDownDeviceSucceeds` |
| Net.CloseSpec | net.c:59-73 | close returns -1 exactly when its close hook returns -1, and then changes nothing; otherwise it returns 0 and clears only the UP bit |
| Net.CloseIgnoresState | net.c:60-63 | the result of close does not depend on the device's flags, because the state guard tests a constant |
| Net.CloseOfDownDeviceSucceeds | net.c:59-73 | closing a DOWN device that has no close hook returns 0 and leaves it as it was |
| Net.CloseUndoesOpen | net.c:42-73 | a successful close after a successful open gives back the device as it was before the open |
| Net.OutputAccepted | net.c:78-86 | output's two guards (UP, and length within mtu); `Net.Stack.Output` ensures that transmit is called exactly when it holds |
| Net.FlagsUpdateKeepsRegistry | net.c:53 | changing one device's flags keeps the registry invariant (indices, names, ops tables) |
| Net.RegisterKeepsRegistry | net.c:30-36 | prepending a device that carries the current counter as its index, and the name made from it, keeps the registry invariant with the counter advanced by one modulo 2^32 |
| Net.NamesRepeatAfterWrap | net.c:30-34 | once more than 2^32 devices are registered, the newest and the one 2^32 registrations before it share index and name |
| Net.RegisteredKth | net.c:30-36 | in a valid registry, the device registered k-th is at list position n-1-k (n devices in all), with index k and name "net" followed by the decimal digits of k |
| Net.InputHandler | net.c:99-104 | the input handler always returns 0 |
| Net.Stack.constructor | net.c:12-13 | the registry starts with an empty list and index 0 |
| Net.Stack.Init | net.c:133-140 | net_init returns 0 and leaves the interrupt subsystem initialised: watched set {SIGHUP}, thread not started |
| Net.Stack.Register | net.c:29-39 | returns 0; the device, given the old counter as its index and the name made from it, becomes the head and the old list follows unchanged; the counter goes up by one modulo 2^32; the registry invariant is kept |
| Net.Stack.Open | net.c:42-56 | the status and the new list are exactly what OpenOutcome gives for that device; the other devices and the counter are unchanged |
| Net.Stack.Close | net.c:59-73 | the status and the new list are exactly what CloseOutcome gives for that device, with the constant guard kept; the other devices and the counter are unchanged |
| Net.Stack.Output | net.c:76-96 | a DOWN device or a payload over the mtu gives -1, with no transmit and no interrupt-state change; otherwise transmit is called once with the same type, data, length and destination, and the result is -1 exactly when transmit returns -1; on a dummy device it returns 0 and queues DUMMY_IRQ once; devices are never changed |
| Net.Stack.Run | net.c:107-119 | if intr_run fails, returns -1 and opens nothing; otherwise returns 0 and every device in the list becomes what open makes of it, each failure ignored |
| Net.Stack.Shutdown | net.c:122-130 | every device becomes what close makes of it, each failure ignored; then the interrupt thread, if started, handles what is pending, ends on SIGHUP, and has finished |
| Intr.IrqBaseIsNotSighup | platform/linux/intr.c:42-47 | the dummy line is not the terminating signal, so raising it dispatches handlers |
| Intr.SharedFlagIsNonZero | platform/linux/intr.c:68 | the shared flag value is not 0, so a flags word of 0 asks for an exclusive line |
| Intr.SighupIsLow | platform/linux/intr.c:42-44 | SIGHUP is below 2, so lines numbered 2 and up (such as 30) never end the dispatch loop |
| Intr.EntryName | platform/linux/intr.c:88 | the stored name is the longest prefix of the given name with at most 15 characters |
| Intr.Clashes | platform/linux/intr.c:66-68 | the XOR test of one entry against a request; specified by `Intr.ConflictMeaning` and `Intr.XorIsDifference` |
| Intr.Conflicts | platform/linux/intr.c:65-73 | the verdict of the scan: some entry clashes; specified by `Intr.ConflictMeaning` and computed by `Intr.FindConflict` |
| Intr.ConflictMeaning | platform/linux/intr.c:65-73 | a request is rejected exactly when some entry on the same line has flags other than SHARED, or the request's flags are not SHARED |
| Intr.XorIsDifference | platform/linux/intr.c:68 | `f ^ INTR_IRQ_SHARED` is non-zero exactly when f differs from INTR_IRQ_SHARED |
| Intr.FindConflict | platform/linux/intr.c:65-73 | the scan reports a conflict exactly when some entry clashes with the request |
| Intr.PrependKeepsDiscipline | platform/linux/intr.c:65-93 | adding an entry that passed the scan keeps the rule that a line has two or more entries only if all of them are SHARED |
| Intr.SecondRequest | platform/linux/intr.c:68 | on an unused line the first request passes, and a second one passes exactly when both are SHARED |
| Intr.ExclusiveLineIsClosed | platform/linux/intr.c:68 | once an entry that is not SHARED exists on a line, every further request on that line fails |
| Intr.SharedLineStaysOpen | platform/linux/intr.c:68 | a line whose entries are all SHARED accepts another SHARED request |
| Intr.Select | platform/linux/intr.c:46-51 | the calls one signal makes; specified by `Intr.SelectIsMatches` and implemented by `Intr.WalkList` |
| Intr.Dispatch | platform/linux/intr.c:35-54 | the calls a sequence of wakeups makes; specified by `Intr.DispatchOne`, `Intr.DispatchConcat` and `Intr.DispatchStopsAtTerminator`, and implemented by `Intr.ThreadLoop` |
| Intr.Matches | platform/linux/intr.c:46-47 | the matching positions are exactly the entries on the line, in increasing list order, each once |
| Intr.SelectIsMatches | platform/linux/intr.c:46-51 | one signal calls the handlers of exactly the entries on that line, once each, in list order (newest registration first) |
| Intr.DispatchOne | platform/linux/intr.c:45-52 | a single signal other than SIGHUP calls exactly the list walk's selection |
| Intr.DispatchConcat | platform/linux/intr.c:35-54 | with no terminator in the first batch, dispatching two batches one after the other is the same as dispatching them together |
| Intr.DispatchStopsAtTerminator | platform/linux/intr.c:36-44 | after a SIGHUP or a wait error, no later wakeup calls any handler |
| Intr.WalkList | platform/linux/intr.c:46-51 | the inner loop's calls equal the selection for that signal |
| Intr.ThreadLoop | platform/linux/intr.c:35-54 | the loop's calls equal the dispatch trace of its wakeups, and it ends exactly when a SIGHUP or error occurs among them |
| Intr.Controller.constructor | platform/linux/intr.c:22-27 | the statics start empty: no entries, empty mask, no thread |
| Intr.Controller.Init | platform/linux/intr.c:135-141 | returns 0; the watched set becomes exactly {SIGHUP}; the thread is recorded as not started |
| Intr.Controller.RequestIrq | platform/linux/intr.c:59-100 | returns 0 exactly when there is no conflict and allocation succeeds; on success the new entry (name cut to 15 characters) becomes the head, the old list follows, and the line joins the watched set; on failure entries and watched set are unchanged; the sharing rule is kept |
| Intr.Controller.Run | platform/linux/intr.c:102-122 | returns 0 and records the thread as started exactly when the platform calls succeed, and -1 otherwise; entries and mask are unchanged |
| Intr.Controller.Raise | platform/linux/intr.c:143 | the line is queued once for the dispatch thread; nothing else changes |
| Intr.Controller.Service | platform/linux/intr.c:29-57 | a running thread takes every pending wakeup, in order: the new calls are their dispatch trace, and it ends if they contain a terminator; a thread never started, or already finished, does nothing |
| Intr.Controller.Shutdown | platform/linux/intr.c:124-133 | if the thread was never created nothing changes; otherwise it handles what is pending, then SIGHUP, and has finished when shutdown returns |
| Dummy.Transmit | driver/dummy.c:13-20 | returns 0 and queues DUMMY_IRQ exactly once; no other interrupt state changes |
| Dummy.Isr | driver/dummy.c:26-29 | the ISR always returns 0 |
| DummyDevice.Prepared | driver/dummy.c:39-43 | the record handed to registration has type DUMMY, mtu 65535, hlen 0, alen 0 and the dummy ops, and is DOWN |
| DummyDevice.DummyInit | driver/dummy.c:31-51 | on allocation failure, returns None and nothing changes; otherwise registers the prepared dummy record and requests DUMMY_IRQ as SHARED with the device's name and ordinal, ignoring the result; returns the registered device either way |
| Dummy.DummyOps | driver/dummy.c:22-24 | `dummy_ops`: no open hook, no close hook, the dummy transmit; used by `DummyDevice.Prepared` and `DummyDevice.DummyOpenCloseAreFlagFlips` |
| DummyDevice.DummyOpenCloseAreFlagFlips | driver/dummy.c:22-24 | with no hooks, opening a dummy device sets UP unless it is already UP, closing always clears UP, and no hook result matters |
| DummyDevice.DummyRequestsNeverConflict | driver/dummy.c:48 | a line whose entries all come from dummy_init accepts another dummy_init request |
| Scenarios.RegisterThree | net.c:29-39 | three registrations give indices 2, 1, 0 and names net2, net1, net0 in list order |
| Scenarios.RegisterMany | net.c:29-39 | the k-th of n registrations gives index k and name "net" followed by the decimal digits of k |
| Scenarios.ExclusiveConflict | platform/linux/intr.c:65-73 | a second exclusive request on an exclusive line fails, and only the first entry remains |
| Scenarios.SharedLineOrder | platform/linux/intr.c:46-51 | two SHARED requests on one line both succeed, and one raise calls the later registration's handler first, each once |
| Scenarios.ShutdownWithoutRun | platform/linux/intr.c:124-128 | after init and one request, shutdown before run calls no handler, queues nothing and keeps the entry |
| Scenarios.NoHandlerAfterShutdown | platform/linux/intr.c:35-44 | after shutdown, raising a line calls no handler |
| Scenarios.MtuGuard | net.c:76-96 | on an UP device with mtu 100, a 150-byte output gives -1 with no transmit, and a 50-byte output is transmitted once with the same bytes and returns 0 |
| Scenarios.DummyEndToEnd | driver/dummy.c:31-51 | dummy_init, then run, one output, and shutdown: the output returns 0 and the dummy ISR is called exactly once, for that device, on DUMMY_IRQ |

## Left out

- **The pthread and signal machinery.** This covers `pthread_sigmask`, `pthread_create`, the barrier, `sigwait`, `pthread_kill` and `pthread_join`. The model replaces them with a platform-success input, a queue of pending wakeups, and an explicit `Service` step for the dispatch thread. True concurrency and interleavings are not modelled.
- **Signal coalescing and delivery order.** The operating system can merge repeated raises of one line. The model delivers once per raise. Nor does it model the order in which the kernel hands out pending signals. Linux's `sigwait` takes the lowest-numbered pending signal first, so a SIGHUP (1) pending together with DUMMY_IRQ (35) ends the loop before the line is handled. The model handles pending lines in the order they were raised, then SIGHUP. `Scenarios.DummyEndToEnd`'s single ISR call is therefore the interleaving in which the thread takes the raise before shutdown sends SIGHUP.
- Intr.Controller.Raise: the return value of `pthread_kill` is not modelled; the model always reports success. A raise before `intr_run` targets the main thread, where the real signal would take its default action. In the model the wakeup stays queued and no handler runs until a thread is started; if `Run` succeeds later, the next `Service` or `Shutdown` dispatches it.
- Intr.Controller.RequestIrq: the line number is assumed to be a valid signal number. For any other number, `sigaddset` fails (its result is ignored) and a later `pthread_kill` fails, so no handler would run. The model still adds the number to `sigmask`, and a raise of it dispatches its handlers.
- Intr.Controller.constructor: shutdown before `intr_init` is not modelled faithfully, and neither are requests made before it (see the `Intr.Controller.Service` line). Before `intr_init`, `tid` is zero rather than the main thread, so `intr_shutdown` would not take its early return and would send SIGHUP to thread 0. The model's `Shutdown` treats that state as "thread not created" and does nothing.
- Intr.Controller.Service: dispatch does not consult `sigmask`. The source's thread receives only the lines in the mask (`sigwait`, intr.c:36). `intr_init` resets the mask to {SIGHUP} but keeps `irqs`, so a line requested before `intr_init` is not watched, and raising it makes the real process take the signal's default action. The model dispatches every pending line to the entries on it, watched or not.
- **Signals outside the watched set.** A raised line not in `sigmask` makes the real process take the signal's default action. This covers a line with no entry, and one requested only before `intr_init`. In the model a line with no entry dispatches no handler. A line whose entries were requested before `intr_init` dispatches them (see the `Intr.Controller.Service` line).
- **Handlers and hooks are not executed.** A handler call is recorded as `(handler, irq, dev)`. Open, close and transmit hooks are reduced to the value they return. Side effects of a foreign driver's hooks on the device or anything else are not modelled.
- **Aliasing.** Devices and entries are values, and the `dev` and `dst` pointers are opaque numbers. Registering the same record twice, which in C would link the list into a cycle, becomes two separate records.
- Net.Stack.Register: requires the device to have an operations table. In the source, registering a device with a NULL table succeeds, but the next open or output would dereference NULL. The model has no crash state.
- Net.Stack.Output: only addresses registered devices (by ordinal). The source also accepts a pointer to an allocated but unregistered device. The model has no handle for such a device.
- Net.Stack.Open: addresses a registered device by list position; the source accepts any device pointer.
- Net.Stack.Close: addresses a registered device by list position; the source accepts any device pointer.
- **Zero-filled allocation.** `memory_alloc` is not part of this model. Freshly allocated devices and entries are assumed zero-filled. This property, whether `calloc`-like or not, is what makes a new device DOWN.
- **`snprintf` truncation at 32 bytes.** Not modelled. `Net.DeviceNameFitsEntry` shows names never exceed 14 characters, so it never happens.
- **Logging and dumps.** `debugf`, `debugdump`, `errorf` and `infof` carry no function. This includes the swapped length and mtu arguments in the error message of `net_device_output`. Because logging is left out, the order of output's two guards cannot be observed; both give -1 and no transmit.
- **Constant values.** `INTR_IRQ_SHARED`, `INTR_IRQ_BASE` and `SIGHUP` come from headers that are not part of this model, so stand-in values 1, 35 and 1 are used. Every fact the proofs use about them is stated as a lemma: `Intr.IrqBaseIsNotSighup` (the dummy line is not SIGHUP), `Intr.SharedFlagIsNonZero` (0 requests an exclusive line, used in `Scenarios.ExclusiveConflict`) and `Intr.SighupIsLow` (line 30 is not SIGHUP, used in `Scenarios.SharedLineOrder`).
- **Registration phase.** The note that registration must happen before `net_run` is a rule for callers, not something the code checks. The model does not enforce it either. In the source, a request after `intr_run` adds its line to `sigmask` after `pthread_sigmask` (intr.c:106) has already blocked the old mask. A raise of that line then meets an unblocked signal and takes its default action. The model dispatches it like any other line (see the `Intr.Controller.Service` line).
- **platform/linux/intr.h.** It holds only prototypes.
