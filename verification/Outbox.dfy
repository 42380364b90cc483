/** The durable outbox: one contiguous interval of sequences, whatever is appended or pruned. */
module Outbox {
  import opened Core
  import opened Schema
  import opened GraphSpec
  import opened Replay

  const U64_MAX: nat := 0xFFFF_FFFF_FFFF_FFFF

  ghost predicate Consecutive(rows: seq<SequencedMutation>) {
    forall i :: 0 <= i < |rows| ==> rows[i].sequence == rows[0].sequence + i
  }

  /** The consumer's own check of a batch it has read. */
  method Validate(rows: seq<SequencedMutation>) returns (ok: bool)
    ensures ok <==> rows != [] && Consecutive(rows) && rows[|rows| - 1].sequence < U64_MAX
  {
    if rows == [] {
      return false;
    }
    var expected := rows[0].sequence;
    for i := 0 to |rows|
      invariant expected == rows[0].sequence + i
      invariant forall j :: 0 <= j < i ==> rows[j].sequence == rows[0].sequence + j
      invariant i > 0 ==> rows[i - 1].sequence < U64_MAX
    {
      if rows[i].sequence != expected {
        return false;
      }
      if expected >= U64_MAX {
        assert Consecutive(rows) ==> rows[|rows| - 1].sequence >= rows[i].sequence;
        return false;
      }
      expected := expected + 1;
    }
    return true;
  }

  /** Sequences run without a gap up to the high-water mark. */
  ghost predicate Contiguous(rows: seq<SequencedMutation>, mark: nat) {
    |rows| <= mark && forall i :: 0 <= i < |rows| ==> rows[i].sequence == mark - |rows| + 1 + i
  }

  /** Everything at or below this sequence has been pruned. */
  ghost function PrunedThrough(db: Db): int {
    db.sequenceMark - |db.outbox|
  }

  ghost predicate OutboxSound(db: Db) {
    && Contiguous(db.outbox, db.sequenceMark)
    && forall c :: c in db.consumers ==>
         PrunedThrough(db) <= db.consumers[c].lastSequence <= db.sequenceMark
  }

  /** How many rows of a contiguous outbox lie at or below a sequence. */
  ghost function CountThrough(rows: seq<SequencedMutation>, mark: nat, through: nat): nat
    requires |rows| <= mark
  {
    var pruned := mark - |rows|;
    if through <= pruned then 0 else if through >= mark then |rows| else through - pruned
  }

  lemma LastApart(rows: seq<SequencedMutation>, k: nat)
    requires k < |rows|
    ensures var front, last := rows[..|rows| - 1], rows[|rows| - 1];
      rows[k..] == front[k..] + [last] && rows[..k] == front[..k] && rows == front + [last]
  {
  }

  lemma {:induction false} ContiguousSplit(rows: seq<SequencedMutation>, mark: nat, through: nat)
    requires Contiguous(rows, mark)
    ensures RowsAfter(rows, through) == rows[CountThrough(rows, mark, through)..]
    ensures RowsThrough(rows, through) == rows[..CountThrough(rows, mark, through)]
    decreases |rows|
  {
    if rows != [] {
      var front, last := rows[..|rows| - 1], rows[|rows| - 1];
      ContiguousSplit(front, mark - 1, through);
      var k, n := CountThrough(front, mark - 1, through), CountThrough(rows, mark, through);
      assert last.sequence == mark;
      if through >= mark {
        assert k == |front| && n == |rows|;
        assert front[k..] == [] && front[..k] == front && rows[n..] == [] && rows[..n] == rows;
        LastApart(rows, 0);
        assert RowsAfter(rows, through) == [] + [];
      } else {
        assert k == n;
        LastApart(rows, k);
      }
    }
  }

  lemma {:induction false} WithoutPrefix(rows: seq<SequencedMutation>, mark: nat, k: nat)
    requires Contiguous(rows, mark) && k <= |rows|
    ensures Without(rows, set r | r in rows[..k] :: r.sequence) == rows[k..]
    decreases |rows|
  {
    if rows != [] {
      var front, last := rows[..|rows| - 1], rows[|rows| - 1];
      var doomed := set r | r in rows[..k] :: r.sequence;
      if k == |rows| {
        WithoutAll(rows, doomed);
      } else {
        assert front[..k] == rows[..k];
        WithoutPrefix(front, mark - 1, k);
        assert last.sequence !in doomed by {
          forall r | r in rows[..k] ensures r.sequence != last.sequence {
            var i :| 0 <= i < k && rows[..k][i] == r;
            assert rows[i].sequence < last.sequence;
          }
        }
        assert front[k..] + [last] == rows[k..];
      }
    }
  }

  lemma {:induction false} WithoutAll(rows: seq<SequencedMutation>, doomed: set<nat>)
    requires forall i :: 0 <= i < |rows| ==> rows[i].sequence in doomed
    ensures Without(rows, doomed) == []
  {
    if rows != [] {
      WithoutAll(rows[..|rows| - 1], doomed);
    }
  }

  lemma ContiguousSuffix(rows: seq<SequencedMutation>, mark: nat, k: nat)
    requires Contiguous(rows, mark) && k <= |rows|
    ensures Contiguous(rows[k..], mark)
  {
  }

  /** The reported latest sequence is the high-water mark, even when every row was pruned. */
  lemma LatestIsMark(db: Db)
    requires OutboxSound(db)
    ensures LatestSequence(db) == db.sequenceMark
  {
    var all := {db.sequenceMark} + Acks(db) + set r | r in db.outbox :: r.sequence;
    forall x | x in all ensures x <= db.sequenceMark {
      if x in set r | r in db.outbox :: r.sequence {
        var i :| 0 <= i < |db.outbox| && db.outbox[i].sequence == x;
      }
    }
    assert Max(all) <= db.sequenceMark;
  }

  /** A read from a position at or above the pruned point misses nothing. */
  lemma ReadIsSlice(db: Db, after: nat, limit: nat)
    requires OutboxSound(db) && PrunedThrough(db) <= after <= db.sequenceMark
    ensures var k := after - PrunedThrough(db);
      0 <= k <= |db.outbox| && ReadOutbox(db, after, limit) == Limit(db.outbox[k..], limit)
  {
    ContiguousSplit(db.outbox, db.sequenceMark, after);
  }

  /**
   * Every non-empty read of a registered consumer starts one after its acknowledgement and is
   * consecutive, so the consumer's validation accepts it.
   */
  lemma ConsumerReads(db: Db, consumer: string, limit: nat)
    requires OutboxSound(db) && consumer in db.consumers
    ensures var rows := ReadOutbox(db, db.consumers[consumer].lastSequence, limit);
      && Consecutive(rows)
      && (rows != [] ==> rows[0].sequence == db.consumers[consumer].lastSequence + 1
                         && rows[|rows| - 1].sequence <= db.sequenceMark)
      && (rows == [] <==> limit == 0 || db.consumers[consumer].lastSequence == db.sequenceMark)
  {
    ReadIsSlice(db, db.consumers[consumer].lastSequence, limit);
  }

  lemma UnreadIsSlice(rows: seq<SequencedMutation>, mark: nat, after: nat)
    requires Contiguous(rows, mark) && mark - |rows| <= after <= mark
    ensures RowsAfter(rows, after) == rows[after - (mark - |rows|)..]
  {
    ContiguousSplit(rows, mark, after);
  }

  /** Acknowledging `n` more rows leaves the rest unread. */
  lemma UnreadAdvances(rows: seq<SequencedMutation>, mark: nat, after: nat, n: nat)
    requires Contiguous(rows, mark) && mark - |rows| <= after && after + n <= mark
    ensures n <= |RowsAfter(rows, after)| && RowsAfter(rows, after + n) == RowsAfter(rows, after)[n..]
  {
    UnreadIsSlice(rows, mark, after);
    UnreadIsSlice(rows, mark, after + n);
  }

  /** Dropping rows at or below a position leaves what follows it. */
  lemma UnreadSurvivesDrop(rows: seq<SequencedMutation>, mark: nat, after: nat, k: nat)
    requires Contiguous(rows, mark) && k <= |rows| && mark - |rows| + k <= after <= mark
    ensures RowsAfter(rows[k..], after) == RowsAfter(rows, after)
  {
    ContiguousSuffix(rows, mark, k);
    UnreadIsSlice(rows, mark, after);
    UnreadIsSlice(rows[k..], mark, after);
  }

  /** Removing a prefix no consumer still needs. */
  lemma PruneKeeps(db: Db, k: nat)
    requires OutboxSound(db) && k <= |db.outbox|
    requires forall c :: c in db.consumers ==> PrunedThrough(db) + k <= db.consumers[c].lastSequence
    ensures var next := db.(outbox := db.outbox[k..]);
      && OutboxSound(next) && LatestSequence(next) == LatestSequence(db)
      && forall c, limit :: c in db.consumers ==>
           ReadOutbox(next, db.consumers[c].lastSequence, limit) == ReadOutbox(db, db.consumers[c].lastSequence, limit)
  {
    var next := db.(outbox := db.outbox[k..]);
    ContiguousSuffix(db.outbox, db.sequenceMark, k);
    LatestIsMark(db);
    LatestIsMark(next);
    forall c, limit | c in db.consumers
      ensures ReadOutbox(next, db.consumers[c].lastSequence, limit) ==
        ReadOutbox(db, db.consumers[c].lastSequence, limit)
    {
      var after := db.consumers[c].lastSequence;
      ReadIsSlice(db, after, limit);
      ReadIsSlice(next, after, limit);
      assert db.outbox[k..][after - PrunedThrough(next)..] == db.outbox[after - PrunedThrough(db)..];
    }
  }

  /** Both prune operations drop a prefix of the rows every registered consumer has acknowledged. */
  ghost predicate DropsConsumed(db: Db, next: Db, k: nat) {
    && k <= |db.outbox| && next == db.(outbox := db.outbox[k..])
    && forall c :: c in db.consumers ==> PrunedThrough(db) + k <= db.consumers[c].lastSequence
  }

  /** No registered consumer still needs the row; without any, the caller decides. */
  ghost predicate Prunable(db: Db, row: SequencedMutation, withoutConsumers: bool) {
    && (forall c :: c in db.consumers ==> row.sequence <= db.consumers[c].lastSequence)
    && (db.consumers == map[] ==> withoutConsumers)
  }

  /** The dropped prefix is the prunable rows among the first `maximum`, and no other. */
  ghost predicate DropsExactly(db: Db, k: nat, maximum: nat, withoutConsumers: bool) {
    forall i :: 0 <= i < |db.outbox| ==> (i < k <==> i < maximum && Prunable(db, db.outbox[i], withoutConsumers))
  }

  lemma AcksEmpty(db: Db)
    ensures Acks(db) == {} <==> db.consumers == map[]
  {
    if db.consumers != map[] {
      var c :| c in db.consumers;
      assert db.consumers[c].lastSequence in Acks(db);
    }
  }

  /** A row is prunable exactly when it lies at or below the safe position. */
  lemma PrunableThrough(db: Db, row: SequencedMutation, withoutConsumers: bool)
    requires OutboxSound(db) && row in db.outbox
    ensures var safe := SafeThrough(db, withoutConsumers);
      Prunable(db, row, withoutConsumers) <==> safe.Some? && row.sequence <= safe.value
  {
    AcksEmpty(db);
    if Acks(db) != {} {
      var least := Min(Acks(db));
      forall c | c in db.consumers ensures least <= db.consumers[c].lastSequence {
        assert db.consumers[c].lastSequence in Acks(db);
      }
    }
  }

  lemma PruneConsumedDrops(db: Db) returns (k: nat)
    requires OutboxSound(db)
    ensures DropsConsumed(db, PruneConsumed(db), k) && DropsExactly(db, k, |db.outbox|, false)
  {
    forall i | 0 <= i < |db.outbox|
      ensures Prunable(db, db.outbox[i], false) <==>
        SafeThrough(db, false).Some? && db.outbox[i].sequence <= SafeThrough(db, false).value
    {
      PrunableThrough(db, db.outbox[i], false);
    }
    k := 0;
    assert db.outbox[0..] == db.outbox;
    if db.consumers != map[] {
      assert Acks(db) != {} by {
        var c :| c in db.consumers;
        assert db.consumers[c].lastSequence in Acks(db);
      }
      var least := Min(Acks(db));
      ContiguousSplit(db.outbox, db.sequenceMark, least);
      k := CountThrough(db.outbox, db.sequenceMark, least);
      forall c | c in db.consumers ensures PrunedThrough(db) + k <= db.consumers[c].lastSequence {
        assert db.consumers[c].lastSequence in Acks(db);
      }
    }
  }

  lemma PruneBoundedDrops(db: Db, maximum: nat, withoutConsumers: bool) returns (k: nat)
    requires OutboxSound(db) && PruneBounded(db, maximum, withoutConsumers).Ok?
    ensures DropsConsumed(db, PruneBounded(db, maximum, withoutConsumers).value, k)
    ensures k <= maximum && DropsExactly(db, k, maximum, withoutConsumers)
  {
    forall i | 0 <= i < |db.outbox|
      ensures Prunable(db, db.outbox[i], withoutConsumers) <==>
        && SafeThrough(db, withoutConsumers).Some?
        && db.outbox[i].sequence <= SafeThrough(db, withoutConsumers).value
    {
      PrunableThrough(db, db.outbox[i], withoutConsumers);
    }
    k := 0;
    assert db.outbox[0..] == db.outbox;
    var safe := SafeThrough(db, withoutConsumers);
    if safe.Some? {
      ContiguousSplit(db.outbox, db.sequenceMark, safe.value);
      var all := CountThrough(db.outbox, db.sequenceMark, safe.value);
      k := if all <= maximum then all else maximum;
      assert Limit(RowsThrough(db.outbox, safe.value), maximum) == db.outbox[..k];
      WithoutPrefix(db.outbox, db.sequenceMark, k);
      forall c | c in db.consumers ensures PrunedThrough(db) + k <= db.consumers[c].lastSequence {
        assert db.consumers[c].lastSequence in Acks(db);
      }
    }
  }

  /**
   * A consumer may register anywhere up to the latest sequence. Its reads then cover everything
   * that follows exactly when it registered at or above the pruned point.
   */
  lemma RegistrationExact(db: Db, consumer: string, sequence: nat, indexGeneration: nat)
    requires OutboxSound(db) && consumer !in db.consumers
    ensures Acknowledge(db, consumer, sequence, indexGeneration).Ok? <==> sequence <= db.sequenceMark
    ensures var r := Acknowledge(db, consumer, sequence, indexGeneration);
      r.Ok? ==>
        && (OutboxSound(r.value) <==> PrunedThrough(db) <= sequence)
        && (|RowsAfter(db.outbox, sequence)| == db.sequenceMark - sequence <==> PrunedThrough(db) <= sequence)
  {
    LatestIsMark(db);
    ContiguousSplit(db.outbox, db.sequenceMark, sequence);
    var r := Acknowledge(db, consumer, sequence, indexGeneration);
    if r.Ok? && PrunedThrough(db) > sequence {
      assert r.value.consumers[consumer].lastSequence == sequence;
    }
  }

  /** A position is accepted exactly when it exists and does not move a known consumer backwards. */
  lemma AcknowledgeExact(db: Db, consumer: string, sequence: nat, indexGeneration: nat)
    requires OutboxSound(db)
    ensures var r := Acknowledge(db, consumer, sequence, indexGeneration);
      && (r.Ok? <==> sequence <= db.sequenceMark
                     && (consumer in db.consumers ==> db.consumers[consumer].lastSequence <= sequence))
      && (r.Ok? ==>
           r.value == db.(consumers := db.consumers[consumer := ConsumerCheckpoint(sequence, indexGeneration)]))
  {
    LatestIsMark(db);
  }

  /** A known consumer only moves forward within what it may read. */
  lemma AcknowledgeKeeps(db: Db, consumer: string, sequence: nat, indexGeneration: nat)
    requires OutboxSound(db) && Acknowledge(db, consumer, sequence, indexGeneration).Ok?
    requires consumer in db.consumers || PrunedThrough(db) <= sequence
    ensures OutboxSound(Acknowledge(db, consumer, sequence, indexGeneration).value)
    ensures LatestSequence(Acknowledge(db, consumer, sequence, indexGeneration).value) == LatestSequence(db)
  {
    LatestIsMark(db);
    LatestIsMark(Acknowledge(db, consumer, sequence, indexGeneration).value);
  }

  lemma AppendedKeeps(db: Db, next: Db, rows: seq<SequencedMutation>)
    requires OutboxSound(db) && next.consumers == db.consumers
    requires next.outbox == db.outbox + rows && next.sequenceMark == db.sequenceMark + |rows|
    requires forall i :: 0 <= i < |rows| ==> rows[i].sequence == db.sequenceMark + 1 + i
    ensures OutboxSound(next)
    ensures forall c :: c in db.consumers ==>
      RowsAfter(next.outbox, db.consumers[c].lastSequence) == RowsAfter(db.outbox, db.consumers[c].lastSequence) + rows
  {
    forall c | c in db.consumers
      ensures RowsAfter(next.outbox, db.consumers[c].lastSequence) ==
        RowsAfter(db.outbox, db.consumers[c].lastSequence) + rows
    {
      var after := db.consumers[c].lastSequence;
      ContiguousSplit(db.outbox, db.sequenceMark, after);
      ContiguousSplit(next.outbox, next.sequenceMark, after);
    }
  }
}
