/** Two-slot durable values: a write never touches the newest valid slot. */
module DurableSlots {
  import opened Core

  const MANAGER_VERSION: nat := 1
  const U64_MAX: nat := 0xFFFF_FFFF_FFFF_FFFF

  /** A slot file; a torn write never passes its checksum. */
  datatype Slot<+T> = Missing | Torn | Written(version: nat, sequence: nat, value: T)

  /** Two slots, and the plain file older releases wrote. */
  datatype Files<+T> = Files(slot0: Slot<T>, slot1: Slot<T>, plain: Option<T>)

  predicate Readable<T>(s: Slot<T>) {
    s.Written? && s.version == MANAGER_VERSION
  }

  /** The readable slot with the highest sequence; the plain file when there is none. */
  function Value<T>(f: Files<T>): Option<T> {
    if Readable(f.slot0) && (!Readable(f.slot1) || f.slot1.sequence <= f.slot0.sequence) then Some(f.slot0.value)
    else if Readable(f.slot1) then Some(f.slot1.value)
    else f.plain
  }

  function SequenceOf<T>(s: Slot<T>): nat {
    if s.Written? then s.sequence else 0
  }

  function Newest<T>(f: Files<T>): nat {
    if SequenceOf(f.slot0) < SequenceOf(f.slot1) then SequenceOf(f.slot1) else SequenceOf(f.slot0)
  }

  /** The next sequence saturates at the top of its range. */
  function NextSequence<T>(f: Files<T>): nat {
    if Newest(f) < U64_MAX then Newest(f) + 1 else U64_MAX
  }

  function TargetSlot<T>(f: Files<T>): nat {
    NextSequence(f) % 2
  }

  function Put<T>(f: Files<T>, slot: nat, content: Slot<T>): Files<T> {
    if slot == 0 then f.(slot0 := content) else f.(slot1 := content)
  }

  /** How far one write got: not at all, past the truncation, or to the end. */
  datatype Fate = Untouched | TornWrite | Done

  datatype Attempt<+T> = Attempt(value: T, fate: Fate)

  function AfterWrite<T>(f: Files<T>, a: Attempt<T>): Files<T> {
    match a.fate
    case Untouched => f
    case TornWrite => Put(f, TargetSlot(f), Torn)
    case Done => Put(f, TargetSlot(f), Written(MANAGER_VERSION, NextSequence(f), a.value))
  }

  class DurableFile<T> {
    var files: Files<T>

    constructor (plain: Option<T>)
      ensures files == Files(Missing, Missing, plain)
    {
      files := Files(Missing, Missing, plain);
    }

    /** Truncate the older slot, write the envelope, sync; the process may die on the way. */
    method WriteAtomic(value: T, fate: Fate)
      modifies this
      ensures files == AfterWrite(old(files), Attempt(value, fate))
    {
      var newest := 0;
      var slots := [files.slot0, files.slot1];
      for i := 0 to 2
        invariant newest == if i == 0 then 0 else if i == 1 then SequenceOf(files.slot0) else Newest(files)
      {
        if slots[i].Written? && slots[i].sequence > newest {
          newest := slots[i].sequence;
        }
      }
      var sequence := if newest < U64_MAX then newest + 1 else U64_MAX;
      if fate == Untouched {
        return;
      }
      files := Put(files, sequence % 2, Torn);
      if fate == TornWrite {
        return;
      }
      files := Put(files, sequence % 2, Written(MANAGER_VERSION, sequence, value));
    }

    method Read() returns (value: Option<T>)
      ensures value == Value(files)
    {
      var best: Slot<T> := Missing;
      if Readable(files.slot0) {
        best := files.slot0;
      }
      if Readable(files.slot1) && (!best.Written? || best.sequence < files.slot1.sequence) {
        best := files.slot1;
      }
      value := if best.Written? then Some(best.value) else files.plain;
    }
  }

  // ----- Histories

  function AfterAll<T>(f: Files<T>, history: seq<Attempt<T>>): Files<T> {
    if history == [] then f else AfterWrite(AfterAll(f, history[..|history| - 1]), history[|history| - 1])
  }

  /** The value of the last attempt that reached its end. */
  function LastDone<T>(history: seq<Attempt<T>>): Option<T> {
    if history == [] then None
    else if history[|history| - 1].fate == Done then Some(history[|history| - 1].value)
    else LastDone(history[..|history| - 1])
  }

  ghost predicate InSlot<T>(f: Files<T>, parity: nat, s: Slot<T>) {
    if parity == 0 then f.slot0 == s else f.slot1 == s
  }

  /** The current value sits in the slot of its parity and outranks the other one. */
  ghost predicate Holds<T>(f: Files<T>, current: Option<T>, n: nat) {
    && (f.slot0.Written? ==> f.slot0.version == MANAGER_VERSION && f.slot0.sequence <= n && f.slot0.sequence % 2 == 0)
    && (f.slot1.Written? ==> f.slot1.version == MANAGER_VERSION && f.slot1.sequence <= n && f.slot1.sequence % 2 == 1)
    && (current.None? <==> n == 0)
    && (n == 0 ==> !f.slot0.Written? && !f.slot1.Written?)
    && (n > 0 ==> InSlot(f, n % 2, Written(MANAGER_VERSION, n, current.value)))
  }

  lemma HoldsValue<T>(f: Files<T>, current: Option<T>, n: nat)
    requires Holds(f, current, n)
    ensures Newest(f) == n && Value(f) == if current.Some? then current else f.plain
  {
  }

  lemma WriteHolds<T>(f: Files<T>, current: Option<T>, n: nat, a: Attempt<T>)
    requires Holds(f, current, n) && n < U64_MAX
    ensures if a.fate == Done then Holds(AfterWrite(f, a), Some(a.value), n + 1)
            else Holds(AfterWrite(f, a), current, n)
    ensures AfterWrite(f, a).plain == f.plain
  {
    HoldsValue(f, current, n);
  }

  lemma {:induction false} HistoryHolds<T>(plain: Option<T>, history: seq<Attempt<T>>) returns (n: nat)
    requires |history| < U64_MAX
    ensures n <= |history|
    ensures Holds(AfterAll(Files(Missing, Missing, plain), history), LastDone(history), n)
    ensures AfterAll(Files(Missing, Missing, plain), history).plain == plain
  {
    var start: Files<T> := Files(Missing, Missing, plain);
    if history == [] {
      n := 0;
    } else {
      var front, last := history[..|history| - 1], history[|history| - 1];
      n := HistoryHolds(plain, front);
      WriteHolds(AfterAll(start, front), LastDone(front), n, last);
      if last.fate == Done {
        n := n + 1;
      }
    }
  }

  /**
   * After any history of completed, torn and abandoned writes, reading gives the last value whose
   * write completed, or the plain file when none did.
   */
  lemma ReadsLastCompleted<T>(plain: Option<T>, history: seq<Attempt<T>>)
    requires |history| < U64_MAX
    ensures Value(AfterAll(Files(Missing, Missing, plain), history))
            == if LastDone(history).Some? then LastDone(history) else plain
  {
    var n := HistoryHolds(plain, history);
    HoldsValue(AfterAll(Files(Missing, Missing, plain), history), LastDone(history), n);
  }

  /** The newest valid slot is the one overwritten exactly when the sequence has saturated. */
  lemma OverwritesNewestExactly<T>(f: Files<T>, current: Option<T>, n: nat)
    requires Holds(f, current, n) && 0 < n <= U64_MAX
    ensures TargetSlot(f) == n % 2 <==> n == U64_MAX
  {
    HoldsValue(f, current, n);
  }

  /** At saturation a torn write loses the only current value. */
  lemma SaturationLoses()
    ensures exists f: Files<nat> :: Holds(f, Some(7), U64_MAX) && Value(AfterWrite(f, Attempt(8, TornWrite))) == None
  {
    var f: Files<nat> := Files(Missing, Written(MANAGER_VERSION, U64_MAX, 7), None);
    assert Holds(f, Some(7), U64_MAX);
    assert Value(AfterWrite(f, Attempt(8, TornWrite))) == None;
  }
}
