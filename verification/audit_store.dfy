/**
 The Python audit store (src/quant_platform/audit.py): one table, one append-only
 object-store file of batches, one checkpoint file, used sequentially. An insert
 may raise and store nothing; or its commit may raise after the statement was
 executed, and then the row is in the open transaction, which later queries see
 and the next commit completes, while the caller learns only of the failure.
 */
module AuditStorage {
  import opened Common
  import opened AuditChain
  import opened AuditWriter

  datatype Digest = Digest(createdAt: string, checkpointHash: string)

  /** The table as this connection sees it, the files, and the fields of `AuditStore`. */
  datatype Store = Store(
    rows: seq<Event>,
    lastHash: string,
    buffer: seq<Event>,
    lastFlush: int,
    batches: seq<Manifest>,
    checkpoint: Option<Digest>)

  /** `__init__` on an existing table, with `_load_last_hash`. */
  function Open(rows: seq<Event>, now: int): Store {
    Store(rows, Head(rows), [], now, [], None)
  }

  datatype Entry = Entry(eventType: string, actor: string, payload: Json, createdIso: string, created: int)

  function Sealed(c: Crypto, s: Store, e: Entry): Event {
    c.Seal(e.eventType, e.actor, e.payload, e.createdIso, s.lastHash)
  }

  /** What becomes of the insert: the UNIQUE column refuses a repeated hash whatever else happens. */
  function WriteOutcome(c: Crypto, s: Store, e: Entry, o: Outcome): Outcome {
    if Sealed(c, s, e).eventHash in Hashes(s.rows) then Refused else o
  }

  function Flushed(c: Crypto, s: Store, now: int): Store {
    if |s.buffer| == 0 then s
    else s.(batches := s.batches + [ManifestOf(c, s.buffer, now)], buffer := [], lastFlush := now)
  }

  /** The event is stored, buffered, and the hash to continue from. */
  function Remembered(c: Crypto, s: Store, e: Entry): Store {
    var event := Sealed(c, s, e);
    s.(rows := s.rows + [event], buffer := s.buffer + [event], lastHash := event.eventHash)
  }

  function Appended(c: Crypto, interval: int, s: Store, e: Entry, o: Outcome, now: int): Store {
    match WriteOutcome(c, s, e, o)
    case Refused => s
    case LostAck => s.(rows := s.rows + [Sealed(c, s, e)])
    case Ack => if e.created - s.lastFlush >= interval then Flushed(c, Remembered(c, s, e), now) else Remembered(c, s, e)
  }

  function Checkpointed(s: Store, nowIso: string): Store {
    s.(checkpoint := Some(if |s.rows| == 0 then Digest(nowIso, GENESIS)
                          else Digest(s.rows[|s.rows| - 1].createdAt, Head(s.rows))))
  }

  datatype Op =
    | Append(entry: Entry, outcome: Outcome, now: int)
    | Flush(now: int)
    | MakeCheckpoint(nowIso: string)

  function Apply(c: Crypto, interval: int, s: Store, op: Op): Store {
    match op
    case Append(e, o, now) => Appended(c, interval, s, e, o, now)
    case Flush(now) => Flushed(c, s, now)
    case MakeCheckpoint(nowIso) => Checkpointed(s, nowIso)
  }

  function RunOps(c: Crypto, interval: int, s: Store, ops: seq<Op>): Store {
    if |ops| == 0 then s else Apply(c, interval, RunOps(c, interval, s, ops[..|ops| - 1]), ops[|ops| - 1])
  }

  lemma RunOpsSnoc(c: Crypto, interval: int, s: Store, ops: seq<Op>, op: Op)
    ensures RunOps(c, interval, s, ops + [op]) == Apply(c, interval, RunOps(c, interval, s, ops), op)
  {
    assert (ops + [op])[..|ops|] == ops;
  }

  /** The row is in the table and the caller was told otherwise. */
  predicate OpLoses(c: Crypto, s: Store, op: Op) {
    op.Append? && WriteOutcome(c, s, op.entry, op.outcome) == LostAck
  }

  predicate OpStores(c: Crypto, s: Store, op: Op) {
    op.Append? && WriteOutcome(c, s, op.entry, op.outcome) != Refused
  }

  // ---------- what every run keeps ----------

  function BatchEvents(batches: seq<Manifest>): seq<Event> {
    if |batches| == 0 then [] else BatchEvents(batches[..|batches| - 1]) + batches[|batches| - 1].events
  }

  /** The rows this process found, and those it knows it stored: the file, then the buffer. */
  function KeptRows(base: seq<Event>, s: Store): seq<Event> {
    base + BatchEvents(s.batches) + s.buffer
  }

  /** Batches are laid end to end from `start`: each begins with the hash the one before ended on. */
  ghost predicate Tiles(start: string, batches: seq<Manifest>) {
    |batches| > 0 ==>
      var n := |batches| - 1;
      && Tiles(start, batches[..n])
      && batches[n].startHash == (if n == 0 then start else batches[n - 1].endHash)
      && |batches[n].events| == batches[n].count > 0
      && batches[n].endHash == Head(batches[n].events)
  }

  /** The hash the file ends on. */
  function FileEnd(start: string, batches: seq<Manifest>): string {
    if |batches| == 0 then start else batches[|batches| - 1].endHash
  }

  /** What was stored knowingly continues the table found link by link, and its head is cached. */
  ghost predicate ChainInv(c: Crypto, base: seq<Event>, kept: seq<Event>, lastHash: string) {
    ChainedFrom(c, base, kept) && lastHash == Head(kept)
  }

  /** The batches tile the file up to the hash the buffer continues from. */
  ghost predicate FileInv(base: seq<Event>, batches: seq<Manifest>) {
    Tiles(Head(base), batches) && FileEnd(Head(base), batches) == Head(base + BatchEvents(batches))
  }

  ghost predicate StoreInv(c: Crypto, base: seq<Event>, s: Store) {
    ChainInv(c, base, KeptRows(base, s), s.lastHash) && FileInv(base, s.batches)
  }

  /** A flush moves the whole buffer into one batch that starts where the file ended. */
  lemma FlushConserves(c: Crypto, base: seq<Event>, buffer: seq<Event>, batches: seq<Manifest>, now: int)
    requires ChainedFrom(c, base, base + BatchEvents(batches) + buffer) && FileInv(base, batches) && |buffer| > 0
    ensures var batches' := batches + [ManifestOf(c, buffer, now)];
            && base + BatchEvents(batches') + [] == base + BatchEvents(batches) + buffer
            && FileInv(base, batches')
  {
    FirstOfBuffer(c, base, base + BatchEvents(batches), buffer);
    BatchAdded(base, batches, ManifestOf(c, buffer, now));
  }

  lemma BatchAdded(base: seq<Event>, batches: seq<Manifest>, m: Manifest)
    requires Tiles(Head(base), batches) && m.startHash == FileEnd(Head(base), batches)
    requires |m.events| == m.count > 0 && m.endHash == Head(m.events)
    ensures base + BatchEvents(batches + [m]) == base + BatchEvents(batches) + m.events
    ensures Tiles(Head(base), batches + [m])
    ensures FileEnd(Head(base), batches + [m]) == m.endHash
  {
    assert (batches + [m])[..|batches|] == batches;
  }

  lemma FirstOfBuffer(c: Crypto, base: seq<Event>, before: seq<Event>, buffer: seq<Event>)
    requires |buffer| > 0 && base <= before && ChainedFrom(c, base, before + buffer)
    ensures buffer[0].prevHash == Head(before)
    ensures Head(before + buffer) == Head(buffer)
  {
    ChainedAt(c, base, before + buffer, |before|);
    assert (before + buffer)[..|before|] == before;
  }

  lemma FlushKeeps(c: Crypto, base: seq<Event>, s: Store, now: int)
    requires StoreInv(c, base, s)
    ensures StoreInv(c, base, Flushed(c, s, now)) && |Flushed(c, s, now).buffer| == 0
    ensures KeptRows(base, Flushed(c, s, now)) == KeptRows(base, s)
  {
    if |s.buffer| > 0 {
      FlushConserves(c, base, s.buffer, s.batches, now);
    }
  }

  lemma KeepRow(c: Crypto, base: seq<Event>, s: Store, e: Entry)
    requires StoreInv(c, base, s)
    ensures var t := Remembered(c, s, e); KeptRows(base, t) == KeptRows(base, s) + [Sealed(c, s, e)] && StoreInv(c, base, t)
  {
    var event := Sealed(c, s, e);
    SealLinks(c, e.eventType, e.actor, e.payload, e.createdIso, s.lastHash);
    ChainedExtends(c, base, KeptRows(base, s));
    ChainedSnoc(c, base, KeptRows(base, s), event);
    assert base + BatchEvents(s.batches) + (s.buffer + [event]) == KeptRows(base, s) + [event];
  }

  /** One append: the kept rows grow by the sealed event exactly when the caller is told so. */
  lemma AppendKeeps(c: Crypto, interval: int, base: seq<Event>, s: Store, e: Entry, o: Outcome, now: int)
    requires StoreInv(c, base, s)
    ensures var t := Appended(c, interval, s, e, o, now);
            && StoreInv(c, base, t)
            && KeptRows(base, t) == KeptRows(base, s) + if WriteOutcome(c, s, e, o) == Ack then [Sealed(c, s, e)] else []
  {
    if WriteOutcome(c, s, e, o) == Ack {
      KeepRow(c, base, s, e);
      FlushKeeps(c, base, Remembered(c, s, e), now);
    } else {
      assert KeptRows(base, s) + [] == KeptRows(base, s);
    }
  }

  lemma OpKeeps(c: Crypto, interval: int, base: seq<Event>, s: Store, op: Op)
    requires StoreInv(c, base, s)
    ensures StoreInv(c, base, Apply(c, interval, s, op))
  {
    match op
    case Append(e, o, now) => AppendKeeps(c, interval, base, s, e, o, now);
    case Flush(now) => FlushKeeps(c, base, s, now);
    case MakeCheckpoint(_) =>
  }

  lemma OpenInv(c: Crypto, base: seq<Event>, now: int)
    ensures StoreInv(c, base, Open(base, now)) && KeptRows(base, Open(base, now)) == base
  {
    assert base + [] + [] == base;
  }

  /**
   After any run, whatever failed and whatever table was opened: the rows found, the
   file and the buffer laid end to end continue that table link by link, the cached
   hash is their head, and the batches tile the file. They verify exactly when the
   table found does.
   */
  lemma {:induction false} StoreRunKeeps(c: Crypto, interval: int, base: seq<Event>, now: int, ops: seq<Op>)
    ensures var t := RunOps(c, interval, Open(base, now), ops);
            StoreInv(c, base, t) && (c.Verifies(KeptRows(base, t)) <==> c.Verifies(base))
  {
    if |ops| > 0 {
      StoreRunKeeps(c, interval, base, now, ops[..|ops| - 1]);
      OpKeeps(c, interval, base, RunOps(c, interval, Open(base, now), ops[..|ops| - 1]), ops[|ops| - 1]);
    } else {
      OpenInv(c, base, now);
    }
    ChainedVerifiesIff(c, base, KeptRows(base, RunOps(c, interval, Open(base, now), ops)));
  }

  // ---------- the table, and what the process does not know of it ----------

  function Losses(c: Crypto, interval: int, s: Store, ops: seq<Op>): nat {
    if |ops| == 0 then 0
    else
      var p := ops[..|ops| - 1];
      Losses(c, interval, s, p) + if OpLoses(c, RunOps(c, interval, s, p), ops[|ops| - 1]) then 1 else 0
  }

  /** An insert lost its acknowledgement, and a row was stored after that. */
  predicate StoredAfterLoss(c: Crypto, interval: int, s: Store, ops: seq<Op>) {
    |ops| > 0 &&
    var p := ops[..|ops| - 1];
    || StoredAfterLoss(c, interval, s, p)
    || (Losses(c, interval, s, p) > 0 && OpStores(c, RunOps(c, interval, s, p), ops[|ops| - 1]))
  }

  /** The last row stored, if any, was acknowledged. */
  predicate LastStoreAcked(c: Crypto, interval: int, s: Store, ops: seq<Op>) {
    |ops| == 0 ||
    var p := ops[..|ops| - 1];
    var before := RunOps(c, interval, s, p);
    if OpStores(c, before, ops[|ops| - 1]) then !OpLoses(c, before, ops[|ops| - 1])
    else LastStoreAcked(c, interval, s, p)
  }

  /** One operation on table and cached head. */
  lemma OpOnTable(c: Crypto, interval: int, s: Store, op: Op)
    ensures var t := Apply(c, interval, s, op);
            && (!OpStores(c, s, op) ==> t.rows == s.rows && t.lastHash == s.lastHash)
            && (OpStores(c, s, op) ==>
                  && t.rows == s.rows + [Sealed(c, s, op.entry)]
                  && Sealed(c, s, op.entry).eventHash !in Hashes(s.rows)
                  && t.lastHash == if OpLoses(c, s, op) then s.lastHash else Sealed(c, s, op.entry).eventHash)
  {
  }

  lemma StoreOnTable(c: Crypto, s: Store, e: Entry)
    ensures c.Verifies(s.rows + [Sealed(c, s, e)]) <==> c.Verifies(s.rows) && s.lastHash == Head(s.rows)
    ensures Head(s.rows + [Sealed(c, s, e)]) == Sealed(c, s, e).eventHash
  {
    VerifiesSnoc(c, s.rows, Sealed(c, s, e));
  }

  /** The cached head is that of some row, or of none. */
  ghost predicate HeadKnown(rows: seq<Event>, lastHash: string) {
    lastHash == GENESIS || lastHash in Hashes(rows)
  }

  lemma HeadsDiffer(c: Crypto, s: Store, e: Entry)
    requires c.HexDigests() && HeadKnown(s.rows, s.lastHash)
    requires Sealed(c, s, e).eventHash !in Hashes(s.rows)
    ensures Sealed(c, s, e).eventHash != s.lastHash
  {
    assert |Sealed(c, s, e).eventHash| == 64 && |GENESIS| == 7;
  }

  lemma HashesSnoc(rows: seq<Event>, e: Event)
    ensures Hashes(rows + [e]) == Hashes(rows) + {e.eventHash}
  {
    forall h | h in Hashes(rows) ensures h in Hashes(rows + [e]) {
      var x :| x in rows && x.eventHash == h;
      assert x in rows + [e];
    }
    assert e in rows + [e];
  }

  lemma OpKeepsHeadKnown(c: Crypto, interval: int, s: Store, op: Op)
    requires HeadKnown(s.rows, s.lastHash)
    ensures var t := Apply(c, interval, s, op); HeadKnown(t.rows, t.lastHash)
  {
    OpOnTable(c, interval, s, op);
    if OpStores(c, s, op) {
      HashesSnoc(s.rows, Sealed(c, s, op.entry));
    }
  }

  lemma {:induction false} RunKeepsHeadKnown(c: Crypto, interval: int, base: seq<Event>, now: int, ops: seq<Op>)
    ensures var t := RunOps(c, interval, Open(base, now), ops); HeadKnown(t.rows, t.lastHash)
  {
    if |ops| > 0 {
      RunKeepsHeadKnown(c, interval, base, now, ops[..|ops| - 1]);
      OpKeepsHeadKnown(c, interval, RunOps(c, interval, Open(base, now), ops[..|ops| - 1]), ops[|ops| - 1]);
    } else if |base| > 0 {
      assert base[|base| - 1] in base;
    }
  }

  /**
   Over any run: the cached hash is the head of the table exactly when the last
   stored row was acknowledged.
   */
  lemma {:induction false} HeadIsCachedIff(c: Crypto, interval: int, base: seq<Event>, now: int, ops: seq<Op>)
    requires c.HexDigests()
    ensures var t := RunOps(c, interval, Open(base, now), ops);
            t.lastHash == Head(t.rows) <==> LastStoreAcked(c, interval, Open(base, now), ops)
  {
    if |ops| > 0 {
      var p, op := ops[..|ops| - 1], ops[|ops| - 1];
      var s := RunOps(c, interval, Open(base, now), p);
      HeadIsCachedIff(c, interval, base, now, p);
      RunKeepsHeadKnown(c, interval, base, now, p);
      OpOnTable(c, interval, s, op);
      if OpStores(c, s, op) {
        StoreOnTable(c, s, op.entry);
        HeadsDiffer(c, s, op.entry);
      }
    }
  }

  /**
   Over any run: the table verifies exactly when the one found does and nothing was
   stored after a lost acknowledgement.
   */
  lemma {:induction false} TableVerifiesIff(c: Crypto, interval: int, base: seq<Event>, now: int, ops: seq<Op>)
    requires c.HexDigests()
    ensures var s0 := Open(base, now);
            var t := RunOps(c, interval, s0, ops);
            && (c.Verifies(t.rows) <==> c.Verifies(base) && !StoredAfterLoss(c, interval, s0, ops))
            && (Losses(c, interval, s0, ops) > 0 && c.Verifies(t.rows) ==> t.lastHash != Head(t.rows))
            && (Losses(c, interval, s0, ops) == 0 ==> t.lastHash == Head(t.rows))
  {
    if |ops| > 0 {
      var p, op := ops[..|ops| - 1], ops[|ops| - 1];
      var s := RunOps(c, interval, Open(base, now), p);
      TableVerifiesIff(c, interval, base, now, p);
      RunKeepsHeadKnown(c, interval, base, now, p);
      OpOnTable(c, interval, s, op);
      if OpStores(c, s, op) {
        StoreOnTable(c, s, op.entry);
        HeadsDiffer(c, s, op.entry);
      }
    }
  }

  /** One operation grows table and kept rows alike, but for a loss. */
  lemma OpOnKept(c: Crypto, interval: int, base: seq<Event>, s: Store, op: Op)
    requires StoreInv(c, base, s)
    ensures var t := Apply(c, interval, s, op);
            var grown := |t.rows| - |s.rows|;
            && grown == |KeptRows(base, t)| - |KeptRows(base, s)| + (if OpLoses(c, s, op) then 1 else 0)
            && (s.rows == KeptRows(base, s) && !OpLoses(c, s, op) ==> t.rows == KeptRows(base, t))
  {
    OpOnTable(c, interval, s, op);
    match op
    case Append(e, o, at) => AppendKeeps(c, interval, base, s, e, o, at);
    case Flush(at) => FlushKeeps(c, base, s, at);
    case MakeCheckpoint(_) =>
  }

  /** Each loss leaves the table one row longer than what the process knows of; without one they are the same. */
  lemma {:induction false} KeptIsTableIff(c: Crypto, interval: int, base: seq<Event>, now: int, ops: seq<Op>)
    ensures var s0 := Open(base, now);
            var t := RunOps(c, interval, s0, ops);
            && |t.rows| == |KeptRows(base, t)| + Losses(c, interval, s0, ops)
            && (t.rows == KeptRows(base, t) <==> Losses(c, interval, s0, ops) == 0)
  {
    if |ops| > 0 {
      var p, op := ops[..|ops| - 1], ops[|ops| - 1];
      var s := RunOps(c, interval, Open(base, now), p);
      KeptIsTableIff(c, interval, base, now, p);
      StoreRunKeeps(c, interval, base, now, p);
      OpOnKept(c, interval, base, s, op);
    } else {
      OpenInv(c, base, now);
    }
  }

  // ---------- when the buffer is flushed ----------

  /** The acknowledged events since the last flush, with the times they were created at. */
  function Since(c: Crypto, interval: int, s0: Store, ops: seq<Op>): seq<(Event, int)> {
    if |ops| == 0 then []
    else
      var p, op := ops[..|ops| - 1], ops[|ops| - 1];
      var s := RunOps(c, interval, s0, p);
      if op.Flush? then []
      else if !op.Append? || WriteOutcome(c, s, op.entry, op.outcome) != Ack then Since(c, interval, s0, p)
      else if op.entry.created - s.lastFlush >= interval then []
      else Since(c, interval, s0, p) + [(Sealed(c, s, op.entry), op.entry.created)]
  }

  /** One operation on the buffer: a flush empties it, a due append with it, and any other acknowledged append adds its event. */
  lemma OpOnBuffer(c: Crypto, interval: int, s: Store, op: Op)
    ensures var t := Apply(c, interval, s, op);
            var kept := op.Append? && WriteOutcome(c, s, op.entry, op.outcome) == Ack;
            var due := kept && op.entry.created - s.lastFlush >= interval;
            && (op.Flush? ==> t.buffer == [] && t.lastFlush == (if |s.buffer| > 0 then op.now else s.lastFlush))
            && (due ==>
                  && t.buffer == [] && t.lastFlush == op.now
                  && t.batches == s.batches + [ManifestOf(c, s.buffer + [Sealed(c, s, op.entry)], op.now)])
            && (kept && !due ==> t.buffer == s.buffer + [Sealed(c, s, op.entry)])
            && (!op.Flush? && !kept ==> t.buffer == s.buffer)
            && (!op.Flush? && !due ==> t.lastFlush == s.lastFlush && t.batches == s.batches)
  {
  }

  /**
   Over any run the buffer holds exactly the events acknowledged since the last flush,
   and each was created less than the interval after it.
   */
  lemma {:induction false} BufferIsRecent(c: Crypto, interval: int, base: seq<Event>, now: int, ops: seq<Op>)
    ensures var since, t := Since(c, interval, Open(base, now), ops), RunOps(c, interval, Open(base, now), ops);
            t.buffer == EventsOf(since) && AllRecent(since, t.lastFlush, interval)
  {
    if |ops| > 0 {
      var p, op := ops[..|ops| - 1], ops[|ops| - 1];
      var s := RunOps(c, interval, Open(base, now), p);
      BufferIsRecent(c, interval, base, now, p);
      OpOnBuffer(c, interval, s, op);
      if op.Append? {
        EventsSnoc(Since(c, interval, Open(base, now), p), (Sealed(c, s, op.entry), op.entry.created));
      }
    }
  }

  // ---------- the UNIQUE column ----------

  ghost predicate UniqueTable(rows: seq<Event>) {
    |rows| > 0 ==>
      var n := |rows| - 1;
      UniqueTable(rows[..n]) && rows[n].eventHash !in Hashes(rows[..n]) && rows[n].eventHash != GENESIS
  }

  lemma UniqueSnoc(rows: seq<Event>, e: Event)
    requires UniqueTable(rows) && e.eventHash !in Hashes(rows) && e.eventHash != GENESIS
    ensures UniqueTable(rows + [e])
  {
    assert (rows + [e])[..|rows|] == rows;
  }

  /** A longer table has another head. */
  lemma HeadMoves(rows: seq<Event>, m: nat)
    requires UniqueTable(rows) && m < |rows|
    ensures Head(rows[..m]) != Head(rows)
  {
    var n := |rows| - 1;
    if m > 0 {
      assert rows[..m][m - 1] == rows[..n][m - 1];
      assert rows[m - 1] in rows[..n];
    }
  }

  lemma {:induction false} RunKeepsUnique(c: Crypto, interval: int, s: Store, ops: seq<Op>)
    requires c.HexDigests() && UniqueTable(s.rows)
    ensures UniqueTable(RunOps(c, interval, s, ops).rows)
  {
    if |ops| > 0 {
      var p, op := ops[..|ops| - 1], ops[|ops| - 1];
      var t := RunOps(c, interval, s, p);
      RunKeepsUnique(c, interval, s, p);
      OpOnTable(c, interval, t, op);
      if OpStores(c, t, op) {
        assert |Sealed(c, t, op.entry).eventHash| == 64 && |GENESIS| == 7;
        UniqueSnoc(t.rows, Sealed(c, t, op.entry));
      }
    }
  }

  /**
   Closing rolls back what was never committed. Whatever prefix of the table is left,
   the reopened store continues it link by link; and that prefix verifies wherever
   the table found did and nothing was stored after a lost acknowledgement.
   */
  lemma ReopenContinues(c: Crypto, interval: int, base: seq<Event>, now: int, ops: seq<Op>, left: nat, later: int, more: seq<Op>)
    requires c.HexDigests() && left <= |RunOps(c, interval, Open(base, now), ops).rows|
    ensures var rows := RunOps(c, interval, Open(base, now), ops).rows[..left];
            var t := RunOps(c, interval, Open(rows, later), more);
            && StoreInv(c, rows, t)
            && (c.Verifies(base) && !StoredAfterLoss(c, interval, Open(base, now), ops) ==> c.Verifies(KeptRows(rows, t)))
  {
    var rows := RunOps(c, interval, Open(base, now), ops).rows;
    TableVerifiesIff(c, interval, base, now, ops);
    StoreRunKeeps(c, interval, rows[..left], later, more);
    if c.Verifies(rows) {
      VerifiesPrefix(c, rows, left);
    }
  }

  // ---------- the object ----------

  class AuditStore {
    const crypto: Crypto
    const flushInterval: int
    var rows: seq<Event>
    var lastEventHash: string
    var buffer: seq<Event>
    var lastFlushAt: int
    var objectStore: seq<Manifest>
    var checkpoint: Option<Digest>

    function State(): Store
      reads this
    {
      Store(rows, lastEventHash, buffer, lastFlushAt, objectStore, checkpoint)
    }

    constructor (crypto: Crypto, flushInterval: int, rows: seq<Event>, now: int)
      ensures this.crypto == crypto && this.flushInterval == flushInterval
      ensures State() == Open(rows, now)
    {
      this.crypto, this.flushInterval := crypto, flushInterval;
      this.rows, lastFlushAt := rows, now;
      buffer, objectStore, checkpoint := [], [], None;
      lastEventHash := GENESIS;
      new;
      if |rows| > 0 {
        lastEventHash := rows[|rows| - 1].eventHash;
      }
    }

    /** `append`; `o` says what becomes of the insert, None that the call raised. */
    method Append(e: Entry, o: Outcome, now: int) returns (r: Option<Event>)
      modifies this
      ensures State() == Appended(crypto, flushInterval, old(State()), e, o, now)
      ensures r.Some? <==> WriteOutcome(crypto, old(State()), e, o) == Ack
      ensures r.Some? ==>
                && r.value == crypto.Seal(e.eventType, e.actor, e.payload, e.createdIso, old(lastEventHash))
                && rows == old(rows) + [r.value] && lastEventHash == r.value.eventHash
                && (if e.created - old(lastFlushAt) >= flushInterval then
                      && buffer == [] && lastFlushAt == now
                      && objectStore == old(objectStore) + [ManifestOf(crypto, old(buffer) + [r.value], now)]
                    else
                      buffer == old(buffer) + [r.value] && lastFlushAt == old(lastFlushAt) && objectStore == old(objectStore))
    {
      var event := crypto.Seal(e.eventType, e.actor, e.payload, e.createdIso, lastEventHash);
      if o.Refused? || event.eventHash in Hashes(rows) {
        return None;
      }
      rows := rows + [event];
      if o.LostAck? {
        return None;
      }
      buffer := buffer + [event];
      lastEventHash := event.eventHash;
      if e.created - lastFlushAt >= flushInterval {
        FlushObjectStore(now);
      }
      return Some(event);
    }

    /** `flush_object_store`. */
    method FlushObjectStore(now: int)
      modifies this
      ensures State() == Flushed(crypto, old(State()), now)
    {
      if |buffer| == 0 {
        return;
      }
      objectStore := objectStore + [ManifestOf(crypto, buffer, now)];
      buffer := [];
      lastFlushAt := now;
    }

    /** `create_checkpoint`: names the newest row of the table, not the cached hash. */
    method CreateCheckpoint(nowIso: string) returns (d: Digest)
      modifies this
      ensures State() == Checkpointed(old(State()), nowIso)
      ensures checkpoint == Some(d) && d.checkpointHash == Head(rows)
      ensures d.createdAt == if |rows| == 0 then nowIso else rows[|rows| - 1].createdAt
    {
      if |rows| == 0 {
        d := Digest(nowIso, GENESIS);
      } else {
        d := Digest(rows[|rows| - 1].createdAt, rows[|rows| - 1].eventHash);
      }
      checkpoint := Some(d);
    }

    /** `verify_chain` on the stored table. */
    method Verify() returns (v: Verification)
      ensures v.Valid? <==> crypto.Verifies(rows)
      ensures v.Valid? ==> v.count == |rows| && v.lastHash == Head(rows)
    {
      v := VerifyChain(crypto, rows);
    }
  }
}
