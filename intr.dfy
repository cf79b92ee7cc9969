/**
 * The interrupt-line registry of platform/linux/intr.c: a head-first list of
 * entries, the set of watched signal numbers (sigmask), whether the dispatch
 * thread was created, and that thread's loop as a trace of handler calls.
 *
 * The thread and the signal machinery are abstracted: raising a line appends
 * to a queue of pending wakeups, and the dispatch thread consumes that queue
 * in order (one delivery per raise, no coalescing).
 */
module Intr {

  /**
   * Values from headers that are not part of this model: SIGHUP from the
   * Linux signal.h, INTR_IRQ_SHARED and INTR_IRQ_BASE (SIGRTMIN + 1 with
   * glibc's SIGRTMIN of 34) from the platform header. The lemmas below
   * state every fact about these values that the proofs rely on.
   */
  const SIGHUP: nat := 1
  const INTR_IRQ_BASE: nat := 35
  const INTR_IRQ_SHARED: bv32 := 0x0001

  /** sizeof(entry->name) - 1: the most characters strncpy copies into an entry's name. */
  const ENTRY_NAME_MAX: nat := 15

  lemma IrqBaseIsNotSighup()
    ensures INTR_IRQ_BASE != SIGHUP
  {
  }

  /** The shared flag is a non-zero bit, so a zero flags word requests an exclusive line. */
  lemma SharedFlagIsNonZero()
    ensures INTR_IRQ_SHARED != 0
  {
  }

  /** SIGHUP is a low signal number, below the line numbers used by drivers and clients. */
  lemma SighupIsLow()
    ensures SIGHUP < 2
  {
  }

  /**
   * The handler a registration points at. intr.c sees only a function
   * pointer; the model closes the world over the handlers in this project:
   * the dummy driver's ISR, or another driver's, named by a number.
   */
  datatype Handler = DummyIsr | DriverIsr(id: nat)

  /** struct irq_entry without its next pointer; dev is an opaque context pointer. */
  datatype Entry = Entry(irq: nat, handler: Handler, flags: bv32, name: string, dev: nat)

  /** One invocation entry->handler(entry->irq, entry->dev) made by the dispatch thread. */
  datatype Call = Call(handler: Handler, irq: nat, dev: nat)

  /** What one sigwait() in the dispatch loop yields: a signal number, or an error. */
  datatype Wakeup = Signal(sig: nat) | WaitError

  /** The name stored in a new entry: strncpy of at most 15 characters into a zeroed buffer. */
  function EntryName(name: string): (r: string)
    ensures |r| <= ENTRY_NAME_MAX && |r| <= |name| && r == name[..|r|]
    ensures |r| == ENTRY_NAME_MAX || r == name
  {
    if |name| <= ENTRY_NAME_MAX then name else name[..ENTRY_NAME_MAX]
  }

  // ---------------------------------------------------------------------------
  // Registration rule
  // ---------------------------------------------------------------------------

  /** The test inside the scan of intr_request_irq, with C's XOR written out. */
  predicate Clashes(e: Entry, irq: nat, flags: bv32) {
    e.irq == irq && ((e.flags ^ INTR_IRQ_SHARED) != 0 || (flags ^ INTR_IRQ_SHARED) != 0)
  }

  predicate Conflicts(entries: seq<Entry>, irq: nat, flags: bv32) {
    exists p :: 0 <= p < |entries| && Clashes(entries[p], irq, flags)
  }

  /** The XOR test rejects exactly when some entry on the line, or the request, is not flagged exactly shared. */
  lemma ConflictMeaning(entries: seq<Entry>, irq: nat, flags: bv32)
    ensures Conflicts(entries, irq, flags) <==>
              exists p :: 0 <= p < |entries| && entries[p].irq == irq &&
                          (entries[p].flags != INTR_IRQ_SHARED || flags != INTR_IRQ_SHARED)
  {
    forall p | 0 <= p < |entries|
      ensures Clashes(entries[p], irq, flags) <==>
                entries[p].irq == irq && (entries[p].flags != INTR_IRQ_SHARED || flags != INTR_IRQ_SHARED)
    {
      XorIsDifference(entries[p].flags);
      XorIsDifference(flags);
    }
  }

  lemma XorIsDifference(f: bv32)
    ensures (f ^ INTR_IRQ_SHARED) != 0 <==> f != INTR_IRQ_SHARED
  {
  }

  /** The scanning loop of intr_request_irq: it stops at the first clashing entry. */
  method FindConflict(entries: seq<Entry>, irq: nat, flags: bv32) returns (conflict: bool)
    ensures conflict <==> Conflicts(entries, irq, flags)
  {
    var i := 0;
    while i < |entries|
      invariant 0 <= i <= |entries|
      invariant forall p :: 0 <= p < i ==> !Clashes(entries[p], irq, flags)
    {
      if Clashes(entries[i], irq, flags) {
        return true;
      }
      i := i + 1;
    }
    return false;
  }

  /** A line carries two or more entries only if every one of them is flagged shared. */
  predicate SharingDiscipline(entries: seq<Entry>) {
    forall p, q :: 0 <= p < |entries| && 0 <= q < |entries| && p != q && entries[p].irq == entries[q].irq ==>
      entries[p].flags == INTR_IRQ_SHARED && entries[q].flags == INTR_IRQ_SHARED
  }

  /** Prepending an entry that passed the conflict test keeps the discipline. */
  lemma PrependKeepsDiscipline(entries: seq<Entry>, e: Entry)
    requires SharingDiscipline(entries)
    requires !Conflicts(entries, e.irq, e.flags)
    ensures SharingDiscipline([e] + entries)
  {
    ConflictMeaning(entries, e.irq, e.flags);
    var es := [e] + entries;
    forall p, q | 0 <= p < |es| && 0 <= q < |es| && p != q && es[p].irq == es[q].irq
      ensures es[p].flags == INTR_IRQ_SHARED && es[q].flags == INTR_IRQ_SHARED
    {
      if p == 0 {
        assert es[q] == entries[q - 1];
      } else if q == 0 {
        assert es[p] == entries[p - 1];
      } else {
        assert es[p] == entries[p - 1] && es[q] == entries[q - 1];
      }
    }
  }

  /**
   * On a line nobody uses yet, the first request passes, and a second one
   * passes exactly when both are flagged exactly shared.
   */
  lemma SecondRequest(entries: seq<Entry>, first: Entry, flags: bv32)
    requires forall p :: 0 <= p < |entries| ==> entries[p].irq != first.irq
    ensures !Conflicts(entries, first.irq, first.flags)
    ensures Conflicts([first] + entries, first.irq, flags) <==>
              !(first.flags == INTR_IRQ_SHARED && flags == INTR_IRQ_SHARED)
  {
    var es := [first] + entries;
    ConflictMeaning(es, first.irq, flags);
    assert es[0] == first;
    forall p | 1 <= p < |es| ensures es[p].irq != first.irq {
      assert es[p] == entries[p - 1];
    }
  }

  /** Once an exclusive entry is on a line, every further request on that line is refused. */
  lemma ExclusiveLineIsClosed(entries: seq<Entry>, p: nat, flags: bv32)
    requires p < |entries| && entries[p].flags != INTR_IRQ_SHARED
    ensures Conflicts(entries, entries[p].irq, flags)
  {
    XorIsDifference(entries[p].flags);
    assert Clashes(entries[p], entries[p].irq, flags);
  }

  /** A line whose entries are all flagged shared accepts another shared request. */
  lemma SharedLineStaysOpen(entries: seq<Entry>, irq: nat)
    requires forall p :: 0 <= p < |entries| && entries[p].irq == irq ==> entries[p].flags == INTR_IRQ_SHARED
    ensures !Conflicts(entries, irq, INTR_IRQ_SHARED)
  {
    ConflictMeaning(entries, irq, INTR_IRQ_SHARED);
  }

  // ---------------------------------------------------------------------------
  // Dispatch
  // ---------------------------------------------------------------------------

  function CallOf(e: Entry): Call {
    Call(e.handler, e.irq, e.dev)
  }

  /** The calls made by the list walk for one signal: every entry on that line, in list order. */
  function Select(entries: seq<Entry>, sig: nat): seq<Call>
    decreases |entries|
  {
    if entries == [] then []
    else
      var last := entries[|entries| - 1];
      Select(entries[..|entries| - 1], sig) + (if last.irq == sig then [CallOf(last)] else [])
  }

  /** The list positions on line sig, in increasing order. */
  function Matches(entries: seq<Entry>, sig: nat): (ps: seq<nat>)
    ensures forall j :: 0 <= j < |ps| ==> ps[j] < |entries| && entries[ps[j]].irq == sig
    ensures forall j, k :: 0 <= j < k < |ps| ==> ps[j] < ps[k]
    ensures forall p :: 0 <= p < |entries| && entries[p].irq == sig ==> p in ps
    decreases |entries|
  {
    if entries == [] then []
    else
      var n := |entries| - 1;
      Matches(entries[..n], sig) + (if entries[n].irq == sig then [n] else [])
  }

  /**
   * The list walk calls exactly the entries on line sig, each once, in list
   * order: the j-th call is that of the j-th matching position.
   */
  lemma {:induction false} SelectIsMatches(entries: seq<Entry>, sig: nat)
    ensures |Select(entries, sig)| == |Matches(entries, sig)|
    ensures forall j :: 0 <= j < |Matches(entries, sig)| ==>
              Select(entries, sig)[j] == CallOf(entries[Matches(entries, sig)[j]])
    decreases |entries|
  {
    if entries != [] {
      var n := |entries| - 1;
      var front := entries[..n];
      SelectIsMatches(front, sig);
      forall j | 0 <= j < |Matches(front, sig)|
        ensures entries[Matches(front, sig)[j]] == front[Matches(front, sig)[j]]
      {
      }
    }
  }

  predicate IsTerminator(w: Wakeup) {
    w == WaitError || w == Signal(SIGHUP)
  }

  predicate Terminates(ws: seq<Wakeup>) {
    exists i :: 0 <= i < |ws| && IsTerminator(ws[i])
  }

  /**
   * The handler calls the dispatch loop makes for a sequence of wakeups: the
   * list walk for each signal, up to the first SIGHUP or sigwait error.
   */
  function Dispatch(entries: seq<Entry>, ws: seq<Wakeup>): seq<Call>
    decreases |ws|
  {
    if ws == [] || IsTerminator(ws[0]) then []
    else Select(entries, ws[0].sig) + Dispatch(entries, ws[1..])
  }

  /** A single non-SIGHUP signal calls exactly the list walk's selection. */
  lemma DispatchOne(entries: seq<Entry>, sig: nat)
    requires sig != SIGHUP
    ensures Dispatch(entries, [Signal(sig)]) == Select(entries, sig)
  {
  }

  /** Without a terminator, dispatching two batches one after the other is dispatching them together. */
  lemma {:induction false} DispatchConcat(entries: seq<Entry>, w1: seq<Wakeup>, w2: seq<Wakeup>)
    requires !Terminates(w1)
    ensures Dispatch(entries, w1 + w2) == Dispatch(entries, w1) + Dispatch(entries, w2)
    decreases |w1|
  {
    if w1 == [] {
      assert w1 + w2 == w2;
    } else {
      assert !IsTerminator(w1[0]);
      assert (w1 + w2)[1..] == w1[1..] + w2;
      assert !Terminates(w1[1..]) by {
        forall i | 0 <= i < |w1[1..]| ensures !IsTerminator(w1[1..][i]) {
          assert w1[1..][i] == w1[i + 1];
        }
      }
      DispatchConcat(entries, w1[1..], w2);
    }
  }

  /** A SIGHUP or a sigwait error ends the loop: nothing after it is dispatched. */
  lemma DispatchStopsAtTerminator(entries: seq<Entry>, w1: seq<Wakeup>, t: Wakeup, w2: seq<Wakeup>)
    requires !Terminates(w1) && IsTerminator(t)
    ensures Dispatch(entries, w1 + [t] + w2) == Dispatch(entries, w1)
  {
    assert w1 + [t] + w2 == w1 + ([t] + w2);
    DispatchConcat(entries, w1, [t] + w2);
  }

  lemma TerminatesStep(ws: seq<Wakeup>, i: nat)
    requires i < |ws|
    ensures Terminates(ws[..i + 1]) <==> Terminates(ws[..i]) || IsTerminator(ws[i])
  {
    var seen := ws[..i + 1];
    assert seen[i] == ws[i];
    forall k | 0 <= k < i ensures seen[k] == ws[..i][k] {
    }
  }

  lemma TerminatesPrefix(ws: seq<Wakeup>, i: nat)
    requires i <= |ws| && Terminates(ws[..i])
    ensures Terminates(ws)
  {
    var k :| 0 <= k < i && IsTerminator(ws[..i][k]);
    assert ws[..i][k] == ws[k];
  }

  /** The inner list walk of intr_thread for one signal. */
  method WalkList(entries: seq<Entry>, sig: nat) returns (trace: seq<Call>)
    ensures trace == Select(entries, sig)
  {
    trace := [];
    var j := 0;
    while j < |entries|
      invariant 0 <= j <= |entries|
      invariant trace == Select(entries[..j], sig)
    {
      assert entries[..j + 1][..j] == entries[..j];
      if entries[j].irq == sig {
        trace := trace + [CallOf(entries[j])];
      }
      j := j + 1;
    }
    assert entries[..|entries|] == entries;
  }

  /**
   * The loop of intr_thread over the wakeups it is given: sigwait, stop on an
   * error (break) or on SIGHUP (terminate = 1), otherwise walk the list and
   * call every entry on that line.
   */
  method ThreadLoop(entries: seq<Entry>, wakeups: seq<Wakeup>) returns (trace: seq<Call>, terminate: bool)
    ensures trace == Dispatch(entries, wakeups)
    ensures terminate == Terminates(wakeups)
  {
    trace, terminate := [], false;
    var i := 0;
    while !terminate && i < |wakeups|
      invariant 0 <= i <= |wakeups|
      invariant terminate == Terminates(wakeups[..i])
      invariant !terminate ==> trace + Dispatch(entries, wakeups[i..]) == Dispatch(entries, wakeups)
      invariant terminate ==> trace == Dispatch(entries, wakeups)
      decreases |wakeups| - i
    {
      var w := wakeups[i];
      TerminatesStep(wakeups, i);
      assert wakeups[i..][1..] == wakeups[i + 1..];
      if w.WaitError? || w.sig == SIGHUP {
        terminate := true;
      } else {
        var calls := WalkList(entries, w.sig);
        trace := trace + calls;
      }
      i := i + 1;
    }
    if terminate {
      TerminatesPrefix(wakeups, i);
    } else {
      assert wakeups[..i] == wakeups;
    }
  }

  // ---------------------------------------------------------------------------
  // The subsystem's state
  // ---------------------------------------------------------------------------

  /**
   * The static state of intr.c. started records that tid names a created
   * dispatch thread rather than the main thread; terminated that this
   * thread's loop has ended; pending holds raised lines not yet taken by
   * sigwait; calls is every handler invocation made so far.
   */
  class Controller {
    var irqs: seq<Entry>
    var sigmask: set<nat>
    var started: bool
    var terminated: bool
    var pending: seq<Wakeup>
    var calls: seq<Call>

    ghost predicate Valid()
      reads this
    {
      SharingDiscipline(irqs) && (terminated ==> started)
    }

    /** The zero-initialised statics before intr_init runs. */
    constructor ()
      ensures Valid()
      ensures irqs == [] && sigmask == {} && !started && !terminated && pending == [] && calls == []
    {
      irqs, sigmask, started, terminated, pending, calls := [], {}, false, false, [], [];
    }

    /** intr_init: tid becomes the main thread, the mask becomes exactly {SIGHUP}. */
    method Init() returns (r: int)
      requires Valid()
      modifies this
      ensures Valid() && r == 0
      ensures sigmask == {SIGHUP} && !started && !terminated
      ensures irqs == old(irqs) && pending == old(pending) && calls == old(calls)
    {
      started, terminated := false, false;
      sigmask := {};
      sigmask := sigmask + {SIGHUP};
      r := 0;
    }

    /**
     * intr_request_irq. allocOk is whether memory_alloc returns an entry.
     */
    method RequestIrq(irq: nat, handler: Handler, flags: bv32, name: string, dev: nat, allocOk: bool)
      returns (r: int)
      requires Valid()
      modifies this
      ensures Valid()
      ensures r == 0 || r == -1
      ensures r == 0 <==> !Conflicts(old(irqs), irq, flags) && allocOk
      ensures r == 0 ==> irqs == [Entry(irq, handler, flags, EntryName(name), dev)] + old(irqs)
                         && sigmask == old(sigmask) + {irq}
      ensures r == -1 ==> irqs == old(irqs) && sigmask == old(sigmask)
      ensures started == old(started) && terminated == old(terminated)
      ensures pending == old(pending) && calls == old(calls)
    {
      var conflict := FindConflict(irqs, irq, flags);
      if conflict {
        return -1;
      }
      if !allocOk {
        return -1;
      }
      var entry := Entry(irq, handler, flags, EntryName(name), dev);
      PrependKeepsDiscipline(irqs, entry);
      irqs := [entry] + irqs;
      sigmask := sigmask + {irq};
      r := 0;
    }

    /**
     * intr_run: platformOk is whether pthread_sigmask and pthread_create both
     * succeed; on success the dispatch thread exists and is ready.
     */
    method Run(platformOk: bool) returns (r: int)
      requires Valid()
      modifies this
      ensures Valid()
      ensures r == (if platformOk then 0 else -1)
      ensures started == (old(started) || platformOk)
      ensures terminated == (old(terminated) && !platformOk)
      ensures irqs == old(irqs) && sigmask == old(sigmask)
      ensures pending == old(pending) && calls == old(calls)
    {
      if !platformOk {
        return -1;
      }
      started, terminated := true, false;
      r := 0;
    }

    /** intr_raise_irq: the line is queued for the dispatch thread. */
    method Raise(irq: nat) returns (r: int)
      requires Valid()
      modifies this
      ensures Valid() && r == 0
      ensures pending == old(pending) + [Signal(irq)]
      ensures irqs == old(irqs) && sigmask == old(sigmask) && calls == old(calls)
      ensures started == old(started) && terminated == old(terminated)
    {
      pending := pending + [Signal(irq)];
      r := 0;
    }

    /**
     * The dispatch thread catching up: it takes every pending wakeup in order,
     * unless it was never created or has already left its loop.
     */
    method Service()
      requires Valid()
      modifies this
      ensures Valid()
      ensures irqs == old(irqs) && sigmask == old(sigmask) && started == old(started)
      ensures old(started) && !old(terminated) ==>
                calls == old(calls) + Dispatch(irqs, old(pending)) &&
                terminated == Terminates(old(pending)) && pending == []
      ensures !old(started) || old(terminated) ==>
                calls == old(calls) && terminated == old(terminated) && pending == old(pending)
    {
      if started && !terminated {
        var trace, stop := ThreadLoop(irqs, pending);
        calls := calls + trace;
        terminated := stop;
        pending := [];
      }
    }

    /**
     * intr_shutdown: nothing if the thread was never created; otherwise send
     * it SIGHUP and wait until it has left its loop.
     */
    method Shutdown()
      requires Valid()
      modifies this
      ensures Valid()
      ensures !old(started) ==> unchanged(this)
      ensures old(started) ==> terminated
      ensures old(started) && !old(terminated) ==>
                calls == old(calls) + Dispatch(irqs, old(pending) + [Signal(SIGHUP)]) && pending == []
      ensures old(started) && old(terminated) ==> calls == old(calls) && pending == old(pending) + [Signal(SIGHUP)]
      ensures irqs == old(irqs) && sigmask == old(sigmask) && started == old(started)
    {
      if !started {
        return;
      }
      pending := pending + [Signal(SIGHUP)];
      ghost var queued := pending;
      Service();
      assert IsTerminator(queued[|queued| - 1]);
    }
  }
}
