/**
 The Rust audit writer (rust/vps1-serving/src/audit.rs) as a step system. The
 state mutex is held from `Lock` until the phase is Idle again, every awaited
 call is a step of its own, and each of them may be acknowledged, refused, or
 carried out with its acknowledgement lost.
 */
module AuditWriter {
  import opened Common
  import opened AuditChain

  datatype Outcome = Ack | Refused | LostAck

  datatype Manifest = Manifest(
    createdAt: int,
    startHash: string,
    endHash: string,
    count: nat,
    aggregateHash: string,
    events: seq<Event>)

  datatype Checkpoint = Checkpoint(createdAt: int, checkpointHash: string, count: nat)

  datatype Config = Config(crypto: Crypto, flushInterval: int)

  /** Where the holder of the mutex stands: the call it is waiting for. */
  datatype Phase =
    | Idle
    | Inserting(event: Event, created: int)
    | Archiving(manifest: Manifest)
    | Pointing(checkpoint: Checkpoint)
    | Dating(checkpoint: Checkpoint)

  /**
   The table, the fields of `AuditState`, what has been put in the archive by
   this process, and two things only the proofs speak of: `kept`, the rows this
   process found and those whose storing it was told of, and `mark`, the length
   of that when the last flush completed (or the process started).
   */
  datatype Writer = Writer(
    rows: seq<Event>,
    lastHash: string,
    buffered: seq<Event>,
    lastFlush: int,
    manifests: seq<Manifest>,
    latest: Option<Checkpoint>,
    dated: seq<Checkpoint>,
    kept: seq<Event>,
    mark: nat,
    phase: Phase)

  datatype Label =
    | Lock(eventType: string, actor: string, payload: Json, createdIso: string, created: int)
    | Insert(outcome: Outcome, now: int)
    | PutManifest(outcome: Outcome)
    | PutLatest(outcome: Outcome)
    | PutDated(outcome: Outcome)

  function JoinHashes(events: seq<Event>): string {
    if |events| == 0 then ""
    else if |events| == 1 then events[0].eventHash
    else JoinHashes(events[..|events| - 1]) + "|" + events[|events| - 1].eventHash
  }

  function ManifestOf(c: Crypto, buffered: seq<Event>, now: int): Manifest
    requires |buffered| > 0
  {
    Manifest(now, buffered[0].prevHash, Head(buffered), |buffered|, c.hash(JoinHashes(buffered)), buffered)
  }

  function CheckpointOf(m: Manifest): Checkpoint {
    Checkpoint(m.createdAt, m.endHash, m.count)
  }

  /** `new`: the head is reloaded from the table, the buffer starts empty. */
  function Start(rows: seq<Event>, now: int): Writer {
    Writer(rows, Head(rows), [], now, [], None, [], rows, |rows|, Idle)
  }

  // ---------- steps ----------

  /** The event_hash column is UNIQUE, so a repeated hash is refused whatever else happens. */
  function InsertOutcome(s: Writer, o: Outcome): Outcome
    requires s.phase.Inserting?
  {
    if s.phase.event.eventHash in Hashes(s.rows) then Refused else o
  }

  function InsertStep(cfg: Config, s: Writer, o: Outcome, now: int): Writer
    requires s.phase.Inserting?
  {
    var e := s.phase.event;
    match InsertOutcome(s, o)
    case Refused => s.(phase := Idle)
    case LostAck => s.(rows := s.rows + [e], phase := Idle)
    case Ack =>
      s.(rows := s.rows + [e], lastHash := e.eventHash, buffered := s.buffered + [e], kept := s.kept + [e],
         phase := if s.phase.created - s.lastFlush >= cfg.flushInterval
                  then Archiving(ManifestOf(cfg.crypto, s.buffered + [e], now)) else Idle)
  }

  function ManifestStep(s: Writer, o: Outcome): Writer
    requires s.phase.Archiving?
  {
    var m := s.phase.manifest;
    s.(manifests := if o.Refused? then s.manifests else s.manifests + [m],
       phase := if o.Ack? then Pointing(CheckpointOf(m)) else Idle)
  }

  function LatestStep(s: Writer, o: Outcome): Writer
    requires s.phase.Pointing?
  {
    var cp := s.phase.checkpoint;
    s.(latest := if o.Refused? then s.latest else Some(cp), phase := if o.Ack? then Dating(cp) else Idle)
  }

  function DatedStep(s: Writer, o: Outcome): Writer
    requires s.phase.Dating?
  {
    var cp := s.phase.checkpoint;
    var t := s.(dated := if o.Refused? then s.dated else s.dated + [cp], phase := Idle);
    if o.Ack? then t.(buffered := [], lastFlush := cp.createdAt, mark := |s.kept|) else t
  }

  /** One step; a label whose call nobody is waiting for leaves the state alone. */
  function Step(cfg: Config, s: Writer, l: Label): Writer {
    match (l, s.phase)
    case (Lock(eventType, actor, payload, createdIso, created), Idle) =>
      s.(phase := Inserting(cfg.crypto.Seal(eventType, actor, payload, createdIso, s.lastHash), created))
    case (Insert(o, now), Inserting(_, _)) => InsertStep(cfg, s, o, now)
    case (PutManifest(o), Archiving(_)) => ManifestStep(s, o)
    case (PutLatest(o), Pointing(_)) => LatestStep(s, o)
    case (PutDated(o), Dating(_)) => DatedStep(s, o)
    case _ => s
  }

  function Run(cfg: Config, s: Writer, labels: seq<Label>): Writer {
    if |labels| == 0 then s else Step(cfg, Run(cfg, s, labels[..|labels| - 1]), labels[|labels| - 1])
  }

  lemma {:induction false} RunConcat(cfg: Config, s: Writer, k: seq<Label>, l: seq<Label>)
    ensures Run(cfg, s, k + l) == Run(cfg, Run(cfg, s, k), l)
  {
    if |l| == 0 {
      assert k + l == k;
    } else {
      RunConcat(cfg, s, k, l[..|l| - 1]);
      assert (k + l)[..|k + l| - 1] == k + l[..|l| - 1];
    }
  }

  lemma RunTwo(cfg: Config, s: Writer, a: Label, b: Label)
    ensures Run(cfg, s, [a, b]) == Step(cfg, Step(cfg, s, a), b)
  {
    assert [a, b][..1] == [a];
    assert [a][..0] == [];
    assert Run(cfg, s, [a]) == Step(cfg, Run(cfg, s, []), a);
  }

  lemma StepAppends(cfg: Config, s: Writer, l: Label)
    ensures s.rows <= Step(cfg, s, l).rows
  {
  }

  /** The table is append-only. */
  lemma {:induction false} RowsExtend(cfg: Config, s: Writer, labels: seq<Label>, i: nat)
    requires i <= |labels|
    ensures Run(cfg, s, labels[..i]).rows <= Run(cfg, s, labels).rows
  {
    if i < |labels| {
      var p := labels[..|labels| - 1];
      RowsExtend(cfg, s, p, i);
      assert p[..i] == labels[..i];
      StepAppends(cfg, Run(cfg, s, p), labels[|labels| - 1]);
    } else {
      assert labels[..i] == labels;
    }
  }

  // ---------- the chain ----------

  /** The insert answers "failed" although the row is in the table. */
  predicate Loses(s: Writer, l: Label) {
    l.Insert? && s.phase.Inserting? && InsertOutcome(s, l.outcome) == LostAck
  }

  predicate Stores(s: Writer, l: Label) {
    l.Insert? && s.phase.Inserting? && InsertOutcome(s, l.outcome) != Refused
  }

  ghost predicate LosesAt(cfg: Config, s: Writer, labels: seq<Label>, k: nat)
    requires k < |labels|
  {
    Loses(Run(cfg, s, labels[..k]), labels[k])
  }

  ghost predicate StoresAt(cfg: Config, s: Writer, labels: seq<Label>, k: nat)
    requires k < |labels|
  {
    Stores(Run(cfg, s, labels[..k]), labels[k])
  }

  ghost predicate LosesSome(cfg: Config, s: Writer, labels: seq<Label>) {
    exists k :: 0 <= k < |labels| && LosesAt(cfg, s, labels, k)
  }

  /** A row is stored at some point after an acknowledgement was lost. */
  ghost predicate StoresAfterLoss(cfg: Config, s: Writer, labels: seq<Label>) {
    exists i, j :: 0 <= i < j < |labels| && LosesAt(cfg, s, labels, i) && StoresAt(cfg, s, labels, j)
  }

  /** The writer's head is the table's head, and an event in flight continues from it. */
  ghost predicate InStep(c: Crypto, s: Writer) {
    && c.Verifies(s.rows) && s.lastHash == Head(s.rows)
    && (s.phase.Inserting? ==> c.Links(s.phase.event, s.lastHash))
  }

  /** The table is one row ahead of the writer. */
  ghost predicate Lagging(c: Crypto, s: Writer) {
    && c.Verifies(s.rows) && s.lastHash != Head(s.rows)
    && (s.phase.Inserting? ==> c.Links(s.phase.event, s.lastHash))
  }

  /** Storing a row: the table still verifies, and its head moves to the new row. */
  lemma StoredRow(c: Crypto, rows: seq<Event>, e: Event)
    requires c.HexDigests() && c.Verifies(rows) && c.Links(e, Head(rows)) && e.eventHash !in Hashes(rows)
    ensures c.Verifies(rows + [e]) && Head(rows + [e]) == e.eventHash != Head(rows)
  {
    VerifiesSnoc(c, rows, e);
    assert |e.eventHash| == 64 && |GENESIS| == 7;
    if |rows| > 0 {
      assert rows[|rows| - 1] in rows;
    }
  }

  lemma StepInStep(cfg: Config, s: Writer, l: Label)
    requires InStep(cfg.crypto, s) && cfg.crypto.HexDigests()
    ensures !Loses(s, l) ==> InStep(cfg.crypto, Step(cfg, s, l))
    ensures Loses(s, l) ==> Lagging(cfg.crypto, Step(cfg, s, l))
  {
    if l.Insert? && s.phase.Inserting? {
      if InsertOutcome(s, l.outcome) != Refused {
        StoredRow(cfg.crypto, s.rows, s.phase.event);
      }
    } else if l.Lock? && s.phase.Idle? {
      SealLinks(cfg.crypto, l.eventType, l.actor, l.payload, l.createdIso, s.lastHash);
    } else {
      KeepsChain(cfg, s, l);
    }
  }

  lemma KeepsChain(cfg: Config, s: Writer, l: Label)
    requires !(l.Insert? && s.phase.Inserting?) && !(l.Lock? && s.phase.Idle?)
    ensures var t := Step(cfg, s, l);
            t.rows == s.rows && t.kept == s.kept && t.lastHash == s.lastHash && (t.phase.Inserting? ==> t.phase == s.phase)
  {
  }

  lemma StepLagging(cfg: Config, s: Writer, l: Label)
    requires Lagging(cfg.crypto, s)
    ensures !Stores(s, l) ==> Lagging(cfg.crypto, Step(cfg, s, l))
    ensures Stores(s, l) ==> !cfg.crypto.Verifies(Step(cfg, s, l).rows)
  {
    if l.Insert? && s.phase.Inserting? {
      VerifiesSnoc(cfg.crypto, s.rows, s.phase.event);
    }
  }

  lemma StepBroken(cfg: Config, s: Writer, l: Label)
    requires !cfg.crypto.Verifies(s.rows)
    ensures !cfg.crypto.Verifies(Step(cfg, s, l).rows)
  {
    if l.Insert? && s.phase.Inserting? {
      VerifiesSnoc(cfg.crypto, s.rows, s.phase.event);
    }
  }

  lemma PrefixPoints(cfg: Config, s: Writer, labels: seq<Label>)
    requires |labels| > 0
    ensures var p := labels[..|labels| - 1];
            && (LosesSome(cfg, s, labels) <==> LosesSome(cfg, s, p) || LosesAt(cfg, s, labels, |p|))
            && (StoresAfterLoss(cfg, s, labels) <==>
                StoresAfterLoss(cfg, s, p) || (LosesSome(cfg, s, p) && StoresAt(cfg, s, labels, |p|)))
  {
    PrefixLoses(cfg, s, labels);
    PrefixStores(cfg, s, labels);
  }

  lemma PrefixLoses(cfg: Config, s: Writer, labels: seq<Label>)
    requires |labels| > 0
    ensures var p := labels[..|labels| - 1];
            LosesSome(cfg, s, labels) <==> LosesSome(cfg, s, p) || LosesAt(cfg, s, labels, |p|)
  {
    var p := labels[..|labels| - 1];
    forall k | 0 <= k < |p| ensures LosesAt(cfg, s, labels, k) == LosesAt(cfg, s, p, k) {
      SamePoint(cfg, s, labels, p, k);
    }
  }

  lemma PrefixStores(cfg: Config, s: Writer, labels: seq<Label>)
    requires |labels| > 0
    ensures var p := labels[..|labels| - 1];
            StoresAfterLoss(cfg, s, labels) <==>
            StoresAfterLoss(cfg, s, p) || (LosesSome(cfg, s, p) && StoresAt(cfg, s, labels, |p|))
  {
    var p := labels[..|labels| - 1];
    forall k | 0 <= k < |p|
      ensures LosesAt(cfg, s, labels, k) == LosesAt(cfg, s, p, k)
      ensures StoresAt(cfg, s, labels, k) == StoresAt(cfg, s, p, k)
    {
      SamePoint(cfg, s, labels, p, k);
    }
  }

  lemma SamePoint(cfg: Config, s: Writer, labels: seq<Label>, p: seq<Label>, k: nat)
    requires p <= labels && k < |p|
    ensures LosesAt(cfg, s, labels, k) == LosesAt(cfg, s, p, k)
    ensures StoresAt(cfg, s, labels, k) == StoresAt(cfg, s, p, k)
  {
    assert labels[..k] == p[..k];
  }

  /**
   Whatever the interleaving and the faults: as long as no insert loses its
   acknowledgement the writer is in step with a table that verifies; after the
   first loss it lags by one row; and the table stops verifying exactly when
   another row is stored after that.
   */
  lemma {:induction false} ChainVerifiesIff(cfg: Config, s: Writer, labels: seq<Label>)
    requires cfg.crypto.HexDigests() && InStep(cfg.crypto, s)
    ensures var t := Run(cfg, s, labels);
            && (cfg.crypto.Verifies(t.rows) <==> !StoresAfterLoss(cfg, s, labels))
            && (!LosesSome(cfg, s, labels) ==> InStep(cfg.crypto, t))
            && (LosesSome(cfg, s, labels) && !StoresAfterLoss(cfg, s, labels) ==> Lagging(cfg.crypto, t))
  {
    if |labels| > 0 {
      var p, l := labels[..|labels| - 1], labels[|labels| - 1];
      ChainVerifiesIff(cfg, s, p);
      PrefixPoints(cfg, s, labels);
      var t := Run(cfg, s, p);
      assert LosesAt(cfg, s, labels, |p|) == Loses(t, l);
      assert StoresAt(cfg, s, labels, |p|) == Stores(t, l);
      if StoresAfterLoss(cfg, s, p) {
        StepBroken(cfg, t, l);
      } else if LosesSome(cfg, s, p) {
        StepLagging(cfg, t, l);
      } else {
        StepInStep(cfg, t, l);
      }
    }
  }

  /**
   Whatever was lost, and whatever table was found: what the process knows of
   continues that table link by link, its head is cached, and the event in flight
   continues it.
   */
  ghost predicate KeepsChained(c: Crypto, base: seq<Event>, kept: seq<Event>, lastHash: string, phase: Phase) {
    ChainedFrom(c, base, kept) && lastHash == Head(kept) && (phase.Inserting? ==> c.Links(phase.event, lastHash))
  }

  lemma StepKeepsChained(cfg: Config, base: seq<Event>, s: Writer, l: Label)
    requires KeepsChained(cfg.crypto, base, s.kept, s.lastHash, s.phase)
    ensures var t := Step(cfg, s, l); KeepsChained(cfg.crypto, base, t.kept, t.lastHash, t.phase)
  {
    if l.Insert? && s.phase.Inserting? {
      InsertKeepsChained(cfg, base, s, l.outcome, l.now);
    } else if l.Lock? && s.phase.Idle? {
      SealLinks(cfg.crypto, l.eventType, l.actor, l.payload, l.createdIso, s.lastHash);
    } else {
      KeepsChain(cfg, s, l);
    }
  }

  lemma InsertKeepsChained(cfg: Config, base: seq<Event>, s: Writer, o: Outcome, now: int)
    requires KeepsChained(cfg.crypto, base, s.kept, s.lastHash, s.phase) && s.phase.Inserting?
    ensures var t := InsertStep(cfg, s, o, now); KeepsChained(cfg.crypto, base, t.kept, t.lastHash, t.phase)
  {
    ChainedExtends(cfg.crypto, base, s.kept);
    ChainedSnoc(cfg.crypto, base, s.kept, s.phase.event);
  }

  /** `new` puts the writer in step with any table that verifies, so a restart also ends a lag. */
  lemma StartInStep(c: Crypto, rows: seq<Event>, now: int)
    ensures InStep(c, Start(rows, now)) <==> c.Verifies(rows)
  {
  }

  datatype AuditStatus = AuditStatus(valid: bool, lastHash: string)

  /** What `status` answers when its first query sees `first` and its second `second`. */
  function StatusOf(c: Crypto, first: seq<Event>, second: seq<Event>): AuditStatus {
    AuditStatus(c.Verifies(first), Head(second))
  }

  /**
   From process start, over whatever table it found: the rows verify exactly when
   those found do and nothing was stored after a lost acknowledgement.
   */
  lemma RowsVerifyIff(cfg: Config, base: seq<Event>, now: int, labels: seq<Label>)
    requires cfg.crypto.HexDigests()
    ensures var s := Start(base, now);
            cfg.crypto.Verifies(Run(cfg, s, labels).rows) <==> cfg.crypto.Verifies(base) && !StoresAfterLoss(cfg, s, labels)
  {
    if cfg.crypto.Verifies(base) {
      ChainVerifiesIff(cfg, Start(base, now), labels);
    } else {
      RowsExtend(cfg, Start(base, now), labels, 0);
      if cfg.crypto.Verifies(Run(cfg, Start(base, now), labels).rows) {
        VerifiedPrefix(cfg.crypto, base, Run(cfg, Start(base, now), labels).rows);
      }
    }
  }

  /**
   `status` reads the rows at one point of a run and the head at a later one,
   without the mutex. It answers valid exactly when the table found verifies and by
   its first query nothing had been stored after a lost acknowledgement; the head is
   that of a table that extends the rows checked, and verifies under the same
   condition at its own time.
   */
  lemma StatusIsConsistent(cfg: Config, base: seq<Event>, now: int, labels: seq<Label>, i: nat, j: nat)
    requires cfg.crypto.HexDigests()
    requires i <= j <= |labels|
    ensures var s := Start(base, now);
            var first, second := Run(cfg, s, labels[..i]).rows, Run(cfg, s, labels[..j]).rows;
            var status := StatusOf(cfg.crypto, first, second);
            && (status.valid <==> cfg.crypto.Verifies(base) && !StoresAfterLoss(cfg, s, labels[..i]))
            && status.lastHash == Head(second) && first <= second
            && (cfg.crypto.Verifies(second) <==> cfg.crypto.Verifies(base) && !StoresAfterLoss(cfg, s, labels[..j]))
            && (cfg.crypto.Verifies(second) ==> status.valid)
  {
    var s := Start(base, now);
    RowsVerifyIff(cfg, base, now, labels[..i]);
    RowsVerifyIff(cfg, base, now, labels[..j]);
    assert labels[..j][..i] == labels[..i];
    RowsExtend(cfg, s, labels[..j], i);
    if cfg.crypto.Verifies(Run(cfg, s, labels[..j]).rows) {
      VerifiedPrefix(cfg.crypto, Run(cfg, s, labels[..i]).rows, Run(cfg, s, labels[..j]).rows);
    }
  }

  lemma VerifiedPrefix(c: Crypto, first: seq<Event>, last: seq<Event>)
    requires first <= last && c.Verifies(last)
    ensures c.Verifies(first)
  {
    VerifiesPrefix(c, last, |first|);
    assert last[..|first|] == first;
  }

  // ---------- the archive ----------

  /** A manifest lists a stretch of the table and names the hashes at its two ends. */
  ghost predicate Covers(rows: seq<Event>, m: Manifest, lo: nat) {
    && |m.events| > 0 && lo + |m.events| <= |rows|
    && m.events == rows[lo..lo + |m.events|]
    && m.startHash == Head(rows[..lo]) && m.endHash == Head(rows[..lo + |m.events|])
    && m.count == |m.events|
  }

  ghost predicate IsStretch(rows: seq<Event>, m: Manifest) {
    exists lo: nat :: Covers(rows, m, lo)
  }

  /** A manifest continues its predecessor, or repeats it from the same start with more events. */
  ghost predicate Follows(m: Manifest, m': Manifest) {
    m'.startHash == m.endHash || (m'.startHash == m.startHash && m.events < m'.events)
  }

  ghost predicate Archived(manifests: seq<Manifest>, cp: Checkpoint) {
    exists m <- manifests :: cp.checkpointHash == m.endHash && cp.count == m.count
  }

  ghost predicate InSomeManifest(manifests: seq<Manifest>, e: Event) {
    exists m <- manifests :: e in m.events
  }

  /** `buffered` is what has been stored since the last completed flush. */
  ghost predicate BufferIsSuffix(base: seq<Event>, rows: seq<Event>, buffered: seq<Event>, mark: nat) {
    base <= rows && |base| <= mark <= |rows| && buffered == rows[mark..]
  }

  /** Every row this process stored before the mark is in some archived manifest. */
  ghost predicate CoveredUpTo(base: seq<Event>, rows: seq<Event>, mark: nat, manifests: seq<Manifest>) {
    mark <= |rows| && forall i :: |base| <= i < mark ==> InSomeManifest(manifests, rows[i])
  }

  /** Each manifest is a stretch of the table; the first starts where this process did, the others follow on. */
  ghost predicate Linked(base: seq<Event>, rows: seq<Event>, manifests: seq<Manifest>) {
    |manifests| > 0 ==>
      var n := |manifests| - 1;
      && Linked(base, rows, manifests[..n])
      && IsStretch(rows, manifests[n])
      && (if n == 0 then manifests[n].startHash == Head(base) else Follows(manifests[n - 1], manifests[n]))
  }

  ghost predicate ManifestChain(base: seq<Event>, rows: seq<Event>, mark: nat, manifests: seq<Manifest>) {
    Linked(base, rows, manifests) && (|manifests| == 0 ==> mark == |base|)
  }

  ghost predicate CheckpointsArchived(manifests: seq<Manifest>, latest: Option<Checkpoint>, dated: seq<Checkpoint>) {
    && (forall i :: 0 <= i < |dated| ==> Archived(manifests, dated[i]))
    && (latest.Some? ==> Archived(manifests, latest.value))
  }

  /** How the newest manifest relates to the buffer: complete up to the mark, or a partial flush of a prefix of it. */
  ghost predicate LastManifest(rows: seq<Event>, buffered: seq<Event>, mark: nat, manifests: seq<Manifest>, grown: bool) {
    mark <= |rows|
    && (|manifests| > 0 ==>
          var m := manifests[|manifests| - 1];
          || m.endHash == Head(rows[..mark])
          || (m.startHash == Head(rows[..mark]) && m.events <= buffered && (grown ==> m.events < buffered)))
  }

  /** The manifest just put is the one of the whole buffer, and the checkpoint being put names its end. */
  ghost predicate Published(c: Crypto, buffered: seq<Event>, manifests: seq<Manifest>, cp: Checkpoint) {
    && |manifests| > 0 && |buffered| > 0
    && manifests[|manifests| - 1] == ManifestOf(c, buffered, cp.createdAt)
    && cp == CheckpointOf(manifests[|manifests| - 1])
  }

  ghost predicate PhaseInv(c: Crypto, buffered: seq<Event>, manifests: seq<Manifest>, phase: Phase) {
    match phase
    case Archiving(m) => |buffered| > 0 && m == ManifestOf(c, buffered, m.createdAt)
    case Pointing(cp) => Published(c, buffered, manifests, cp)
    case Dating(cp) => Published(c, buffered, manifests, cp)
    case _ => true
  }

  ghost predicate PutInv(c: Crypto, base: seq<Event>, s: Writer) {
    && BufferIsSuffix(base, s.kept, s.buffered, s.mark)
    && CoveredUpTo(base, s.kept, s.mark, s.manifests)
    && ManifestChain(base, s.kept, s.mark, s.manifests)
    && CheckpointsArchived(s.manifests, s.latest, s.dated)
    && LastManifest(s.kept, s.buffered, s.mark, s.manifests, s.phase.Archiving?)
    && PhaseInv(c, s.buffered, s.manifests, s.phase)
  }

  ghost predicate ArchiveInv(c: Crypto, base: seq<Event>, s: Writer) {
    KeepsChained(c, base, s.kept, s.lastHash, s.phase) && PutInv(c, base, s)
  }

  lemma StretchGrows(rows: seq<Event>, e: Event, m: Manifest)
    requires IsStretch(rows, m)
    ensures IsStretch(rows + [e], m)
  {
    var lo: nat :| Covers(rows, m, lo);
    assert (rows + [e])[..lo] == rows[..lo];
    assert (rows + [e])[..lo + |m.events|] == rows[..lo + |m.events|];
    assert Covers(rows + [e], m, lo);
  }

  lemma {:induction false} LinkedGrows(base: seq<Event>, rows: seq<Event>, e: Event, manifests: seq<Manifest>)
    requires Linked(base, rows, manifests)
    ensures Linked(base, rows + [e], manifests)
  {
    if |manifests| > 0 {
      LinkedGrows(base, rows, e, manifests[..|manifests| - 1]);
      StretchGrows(rows, e, manifests[|manifests| - 1]);
    }
  }

  /** The chain of manifests, read one by one. */
  lemma {:induction false} LinkedAt(base: seq<Event>, rows: seq<Event>, manifests: seq<Manifest>, i: nat)
    requires Linked(base, rows, manifests) && i < |manifests|
    ensures IsStretch(rows, manifests[i])
    ensures if i == 0 then manifests[i].startHash == Head(base) else Follows(manifests[i - 1], manifests[i])
  {
    if i < |manifests| - 1 {
      LinkedAt(base, rows, manifests[..|manifests| - 1], i);
    }
  }

  lemma LastGrows(rows: seq<Event>, buffered: seq<Event>, e: Event, mark: nat, manifests: seq<Manifest>)
    requires LastManifest(rows, buffered, mark, manifests, false)
    ensures LastManifest(rows + [e], buffered + [e], mark, manifests, true)
  {
    assert (rows + [e])[..mark] == rows[..mark];
  }

  lemma InsertKeepsArchive(cfg: Config, base: seq<Event>, s: Writer, o: Outcome, now: int)
    requires PutInv(cfg.crypto, base, s)
    requires s.phase.Inserting?
    ensures PutInv(cfg.crypto, base, InsertStep(cfg, s, o, now))
  {
    if InsertOutcome(s, o) == Ack {
      var e := s.phase.event;
      assert (s.kept + [e])[s.mark..] == s.buffered + [e];
      LinkedGrows(base, s.kept, e, s.manifests);
      LastGrows(s.kept, s.buffered, e, s.mark, s.manifests);
    }
  }

  /** The manifest of the buffer is a stretch of the table from the mark to its end, and follows the newest one. */
  lemma NewManifest(c: Crypto, base: seq<Event>, rows: seq<Event>, buffered: seq<Event>, mark: nat,
                    manifests: seq<Manifest>, now: int)
    requires ChainedFrom(c, base, rows) && BufferIsSuffix(base, rows, buffered, mark) && |buffered| > 0
    requires LastManifest(rows, buffered, mark, manifests, true)
    ensures var m := ManifestOf(c, buffered, now);
            && IsStretch(rows, m) && m.startHash == Head(rows[..mark])
            && (|manifests| > 0 ==> Follows(manifests[|manifests| - 1], m))
  {
    ChainedAt(c, base, rows, mark);
    assert buffered[0] == rows[mark];
    assert rows[..|rows|] == rows;
    assert Head(buffered) == Head(rows);
    assert Covers(rows, ManifestOf(c, buffered, now), mark);
  }

  lemma MoreManifests(base: seq<Event>, rows: seq<Event>, mark: nat, s: seq<Manifest>, m: Manifest,
                      latest: Option<Checkpoint>, dated: seq<Checkpoint>)
    requires CoveredUpTo(base, rows, mark, s) && CheckpointsArchived(s, latest, dated)
    ensures CoveredUpTo(base, rows, mark, s + [m]) && CheckpointsArchived(s + [m], latest, dated)
  {
    assert forall n <- s :: n in s + [m];
    assert forall e :: InSomeManifest(s, e) ==> InSomeManifest(s + [m], e);
    assert forall cp :: Archived(s, cp) ==> Archived(s + [m], cp);
  }

  lemma ChainExtends(base: seq<Event>, rows: seq<Event>, mark: nat, s: seq<Manifest>, m: Manifest)
    requires ManifestChain(base, rows, mark, s) && mark <= |rows| && base <= rows
    requires IsStretch(rows, m) && m.startHash == Head(rows[..mark])
    requires |s| > 0 ==> Follows(s[|s| - 1], m)
    ensures ManifestChain(base, rows, mark, s + [m])
  {
    LinkedSnoc(base, rows, s, m);
    assert |s| == 0 ==> rows[..mark] == base;
  }

  lemma LinkedSnoc(base: seq<Event>, rows: seq<Event>, s: seq<Manifest>, m: Manifest)
    requires Linked(base, rows, s) && IsStretch(rows, m)
    ensures Linked(base, rows, s + [m]) <==> if |s| == 0 then m.startHash == Head(base) else Follows(s[|s| - 1], m)
  {
    assert (s + [m])[..|s|] == s;
  }

  lemma NewIsLast(c: Crypto, rows: seq<Event>, buffered: seq<Event>, mark: nat, s: seq<Manifest>, m: Manifest)
    requires mark <= |rows| && |buffered| > 0 && m == ManifestOf(c, buffered, m.createdAt)
    requires m.startHash == Head(rows[..mark])
    ensures LastManifest(rows, buffered, mark, s + [m], false)
    ensures Published(c, buffered, s + [m], CheckpointOf(m))
  {
    assert (s + [m])[|s|] == m;
  }

  lemma ManifestStored(c: Crypto, base: seq<Event>, rows: seq<Event>, buffered: seq<Event>, mark: nat,
                       s: seq<Manifest>, m: Manifest)
    requires ChainedFrom(c, base, rows) && BufferIsSuffix(base, rows, buffered, mark) && |buffered| > 0
    requires ManifestChain(base, rows, mark, s) && LastManifest(rows, buffered, mark, s, true)
    requires m == ManifestOf(c, buffered, m.createdAt)
    ensures ManifestChain(base, rows, mark, s + [m])
    ensures LastManifest(rows, buffered, mark, s + [m], false)
    ensures Published(c, buffered, s + [m], CheckpointOf(m))
  {
    NewManifest(c, base, rows, buffered, mark, s, m.createdAt);
    ChainExtends(base, rows, mark, s, m);
    NewIsLast(c, rows, buffered, mark, s, m);
  }

  lemma ManifestKeepsArchive(c: Crypto, base: seq<Event>, s: Writer, o: Outcome)
    requires PutInv(c, base, s) && ChainedFrom(c, base, s.kept) && s.phase.Archiving?
    ensures PutInv(c, base, ManifestStep(s, o))
  {
    if !o.Refused? {
      var m := s.phase.manifest;
      ManifestStored(c, base, s.kept, s.buffered, s.mark, s.manifests, m);
      MoreManifests(base, s.kept, s.mark, s.manifests, m, s.latest, s.dated);
    }
  }

  lemma PublishedIsArchived(c: Crypto, buffered: seq<Event>, manifests: seq<Manifest>, cp: Checkpoint)
    requires Published(c, buffered, manifests, cp)
    ensures Archived(manifests, cp)
  {
    assert manifests[|manifests| - 1] in manifests;
  }

  lemma LatestKeepsArchive(c: Crypto, base: seq<Event>, s: Writer, o: Outcome)
    requires PutInv(c, base, s) && s.phase.Pointing?
    ensures PutInv(c, base, LatestStep(s, o))
  {
    PublishedIsArchived(c, s.buffered, s.manifests, s.phase.checkpoint);
  }

  /** A flush that completes leaves no row of this process uncovered. */
  lemma FlushCovers(c: Crypto, base: seq<Event>, rows: seq<Event>, buffered: seq<Event>, mark: nat,
                    manifests: seq<Manifest>, cp: Checkpoint)
    requires BufferIsSuffix(base, rows, buffered, mark) && CoveredUpTo(base, rows, mark, manifests)
    requires Published(c, buffered, manifests, cp)
    ensures CoveredUpTo(base, rows, |rows|, manifests)
    ensures manifests[|manifests| - 1].endHash == Head(rows)
  {
    var last := manifests[|manifests| - 1];
    forall i | |base| <= i < |rows| ensures InSomeManifest(manifests, rows[i]) {
      if i >= mark {
        assert rows[i] == buffered[i - mark];
        assert rows[i] in last.events && last in manifests;
      }
    }
    assert Head(buffered) == Head(rows);
  }

  lemma MoreDated(manifests: seq<Manifest>, latest: Option<Checkpoint>, dated: seq<Checkpoint>, cp: Checkpoint)
    requires CheckpointsArchived(manifests, latest, dated) && Archived(manifests, cp)
    ensures CheckpointsArchived(manifests, latest, dated + [cp])
  {
  }

  lemma DatedKeepsArchive(c: Crypto, base: seq<Event>, s: Writer, o: Outcome)
    requires PutInv(c, base, s) && s.phase.Dating?
    ensures PutInv(c, base, DatedStep(s, o))
  {
    PublishedIsArchived(c, s.buffered, s.manifests, s.phase.checkpoint);
    MoreDated(s.manifests, s.latest, s.dated, s.phase.checkpoint);
    if o.Ack? {
      FlushCompletes(c, base, s.kept, s.buffered, s.mark, s.manifests, s.phase.checkpoint);
    }
  }

  /** The buffer emptied and the mark moved to the end. */
  lemma FlushCompletes(c: Crypto, base: seq<Event>, kept: seq<Event>, buffered: seq<Event>, mark: nat,
                       manifests: seq<Manifest>, cp: Checkpoint)
    requires BufferIsSuffix(base, kept, buffered, mark) && CoveredUpTo(base, kept, mark, manifests)
    requires ManifestChain(base, kept, mark, manifests) && Published(c, buffered, manifests, cp)
    ensures BufferIsSuffix(base, kept, [], |kept|) && CoveredUpTo(base, kept, |kept|, manifests)
    ensures ManifestChain(base, kept, |kept|, manifests) && LastManifest(kept, [], |kept|, manifests, false)
  {
    FlushCovers(c, base, kept, buffered, mark, manifests, cp);
    assert kept[..|kept|] == kept;
  }

  lemma StepKeepsArchive(cfg: Config, base: seq<Event>, s: Writer, l: Label)
    requires ArchiveInv(cfg.crypto, base, s)
    ensures ArchiveInv(cfg.crypto, base, Step(cfg, s, l))
  {
    StepKeepsChained(cfg, base, s, l);
    StepKeepsPuts(cfg, base, s, l);
  }

  lemma StepKeepsPuts(cfg: Config, base: seq<Event>, s: Writer, l: Label)
    requires PutInv(cfg.crypto, base, s) && ChainedFrom(cfg.crypto, base, s.kept)
    ensures PutInv(cfg.crypto, base, Step(cfg, s, l))
  {
    match (l, s.phase)
    case (Insert(o, now), Inserting(_, _)) => InsertKeepsArchive(cfg, base, s, o, now);
    case (PutManifest(o), Archiving(_)) => ManifestKeepsArchive(cfg.crypto, base, s, o);
    case (PutLatest(o), Pointing(_)) => LatestKeepsArchive(cfg.crypto, base, s, o);
    case (PutDated(o), Dating(_)) => DatedKeepsArchive(cfg.crypto, base, s, o);
    case _ =>
  }

  /**
   In every interleaving, whatever is refused or loses its acknowledgement, the
   whole archive invariant holds of the kept rows from process start on.
   */
  lemma {:induction false} ArchiveHolds(cfg: Config, base: seq<Event>, now: int, labels: seq<Label>)
    ensures ArchiveInv(cfg.crypto, base, Run(cfg, Start(base, now), labels))
  {
    if |labels| > 0 {
      var p := labels[..|labels| - 1];
      ArchiveHolds(cfg, base, now, p);
      StepKeepsArchive(cfg, base, Run(cfg, Start(base, now), p), labels[|labels| - 1]);
    }
  }

  /** No kept row is ever missing from both the archive and the buffer. */
  lemma NothingLost(cfg: Config, base: seq<Event>, now: int, labels: seq<Label>, i: nat)
    requires |base| <= i < |Run(cfg, Start(base, now), labels).kept|
    ensures var s := Run(cfg, Start(base, now), labels);
            s.kept[i] in s.buffered || InSomeManifest(s.manifests, s.kept[i])
  {
    ArchiveHolds(cfg, base, now, labels);
    var s := Run(cfg, Start(base, now), labels);
    KeptIsSomewhere(base, s.kept, s.buffered, s.mark, s.manifests, i);
  }

  lemma KeptIsSomewhere(base: seq<Event>, kept: seq<Event>, buffered: seq<Event>, mark: nat, manifests: seq<Manifest>, i: nat)
    requires BufferIsSuffix(base, kept, buffered, mark) && CoveredUpTo(base, kept, mark, manifests)
    requires |base| <= i < |kept|
    ensures kept[i] in buffered || InSomeManifest(manifests, kept[i])
  {
    if i >= mark {
      assert kept[i] == buffered[i - mark];
    }
  }

  // ---------- rows that escape the archive ----------

  /** Kept rows are rows of the table; they are all of them as long as no insert loses its acknowledgement. */
  lemma {:induction false} KeptAreRows(cfg: Config, base: seq<Event>, now: int, labels: seq<Label>)
    ensures var s := Run(cfg, Start(base, now), labels);
            (forall e <- s.kept :: e in s.rows) && (!LosesSome(cfg, Start(base, now), labels) ==> s.kept == s.rows)
  {
    if |labels| > 0 {
      var p := labels[..|labels| - 1];
      KeptAreRows(cfg, base, now, p);
      PrefixPoints(cfg, Start(base, now), labels);
      assert LosesAt(cfg, Start(base, now), labels, |p|) == Loses(Run(cfg, Start(base, now), p), labels[|p|]);
      StepKeepsKept(cfg, Run(cfg, Start(base, now), p), labels[|labels| - 1]);
    }
  }

  lemma StepKeepsKept(cfg: Config, s: Writer, l: Label)
    ensures var t := Step(cfg, s, l);
            && ((forall e <- s.kept :: e in s.rows) ==> forall e <- t.kept :: e in t.rows)
            && (s.kept == s.rows && !Loses(s, l) ==> t.kept == t.rows)
  {
  }

  /** A row of the table that the process does not know it stored. */
  ghost predicate Escaped(rows: seq<Event>, kept: seq<Event>, e: Event) {
    e in rows && e.eventHash !in Hashes(kept)
  }

  lemma StepKeepsEscaped(cfg: Config, s: Writer, l: Label, e: Event)
    requires Escaped(s.rows, s.kept, e)
    ensures var t := Step(cfg, s, l); Escaped(t.rows, t.kept, e)
  {
    if l.Insert? && s.phase.Inserting? && InsertOutcome(s, l.outcome) == Ack {
      assert e.eventHash in Hashes(s.rows);
    }
  }

  /** A row whose insert lost its acknowledgement stays escaped, whatever happens afterwards. */
  lemma {:induction false} EscapedForGood(cfg: Config, base: seq<Event>, now: int, labels: seq<Label>, k: nat)
    requires k < |labels| && LosesAt(cfg, Start(base, now), labels, k)
    ensures var before, t := Run(cfg, Start(base, now), labels[..k]), Run(cfg, Start(base, now), labels);
            && |before.rows| < |t.rows| && t.rows[|before.rows|] == before.phase.event
            && Escaped(t.rows, t.kept, before.phase.event)
  {
    var s0, p, l := Start(base, now), labels[..|labels| - 1], labels[|labels| - 1];
    var s := Run(cfg, s0, p);
    if k < |p| {
      SamePoint(cfg, s0, labels, p, k);
      assert labels[..k] == p[..k];
      EscapedForGood(cfg, base, now, p, k);
      StepAppends(cfg, s, l);
      StepKeepsEscaped(cfg, s, l, Run(cfg, s0, p[..k]).phase.event);
    } else {
      KeptAreRows(cfg, base, now, p);
      assert labels[..k] == p;
      assert s.phase.event in Step(cfg, s, l).rows;
    }
  }

  lemma EscapedIsNowhere(c: Crypto, base: seq<Event>, s: Writer, e: Event)
    requires ArchiveInv(c, base, s) && Escaped(s.rows, s.kept, e)
    ensures e !in s.buffered && !InSomeManifest(s.manifests, e)
  {
    NotYetSeen(base, s.kept, s.buffered, s.mark, s.manifests, e);
  }

  /**
   Over any run: each insert that lost its acknowledgement left a row in the table
   that is neither buffered nor in any manifest, then or at any later time.
   */
  lemma LostInsertEscapesArchive(cfg: Config, base: seq<Event>, now: int, labels: seq<Label>, k: nat)
    requires k < |labels| && LosesAt(cfg, Start(base, now), labels, k)
    ensures var before, t := Run(cfg, Start(base, now), labels[..k]), Run(cfg, Start(base, now), labels);
            && |base| <= |before.rows| < |t.rows|
            && t.rows[|before.rows|] !in t.buffered && !InSomeManifest(t.manifests, t.rows[|before.rows|])
  {
    EscapedForGood(cfg, base, now, labels, k);
    ArchiveHolds(cfg, base, now, labels);
    RowsExtend(cfg, Start(base, now), labels[..k], 0);
    var t := Run(cfg, Start(base, now), labels);
    EscapedIsNowhere(cfg.crypto, base, t, Run(cfg, Start(base, now), labels[..k]).phase.event);
  }

  ghost predicate EverythingArchived(base: seq<Event>, s: Writer) {
    forall i :: |base| <= i < |s.rows| ==> s.rows[i] in s.buffered || InSomeManifest(s.manifests, s.rows[i])
  }

  /** All rows stored since start are buffered or archived exactly when no insert has lost its acknowledgement. */
  lemma EverythingArchivedIff(cfg: Config, base: seq<Event>, now: int, labels: seq<Label>)
    ensures EverythingArchived(base, Run(cfg, Start(base, now), labels)) <==> !LosesSome(cfg, Start(base, now), labels)
  {
    var s := Run(cfg, Start(base, now), labels);
    if LosesSome(cfg, Start(base, now), labels) {
      var k :| 0 <= k < |labels| && LosesAt(cfg, Start(base, now), labels, k);
      LostInsertEscapesArchive(cfg, base, now, labels, k);
    } else {
      KeptAreRows(cfg, base, now, labels);
      forall i | |base| <= i < |s.rows| ensures s.rows[i] in s.buffered || InSomeManifest(s.manifests, s.rows[i]) {
        NothingLost(cfg, base, now, labels, i);
      }
    }
  }

  lemma NotYetSeen(base: seq<Event>, rows: seq<Event>, buffered: seq<Event>, mark: nat, manifests: seq<Manifest>, e: Event)
    requires BufferIsSuffix(base, rows, buffered, mark) && ManifestChain(base, rows, mark, manifests)
    requires e.eventHash !in Hashes(rows)
    ensures e !in buffered && !InSomeManifest(manifests, e)
  {
    assert e !in rows;
    forall i | 0 <= i < |manifests| ensures e !in manifests[i].events {
      LinkedAt(base, rows, manifests, i);
    }
  }

  // ---------- when the buffer is flushed ----------

  /** The last of the three puts is acknowledged. */
  predicate Completes(s: Writer, l: Label) {
    l.PutDated? && s.phase.Dating? && l.outcome.Ack?
  }

  /** A put is refused, or its acknowledgement lost. */
  predicate PutFails(s: Writer, l: Label) {
    || (l.PutManifest? && s.phase.Archiving? && !l.outcome.Ack?)
    || (l.PutLatest? && s.phase.Pointing? && !l.outcome.Ack?)
    || (l.PutDated? && s.phase.Dating? && !l.outcome.Ack?)
  }

  predicate Keeps(s: Writer, l: Label) {
    l.Insert? && s.phase.Inserting? && InsertOutcome(s, l.outcome) == Ack
  }

  /** The acknowledged events since the last completed flush, with the times they were created at. */
  function Since(cfg: Config, s0: Writer, labels: seq<Label>): seq<(Event, int)> {
    if |labels| == 0 then []
    else
      var p, l := labels[..|labels| - 1], labels[|labels| - 1];
      var s := Run(cfg, s0, p);
      if Completes(s, l) then []
      else if Keeps(s, l) then Since(cfg, s0, p) + [(s.phase.event, s.phase.created)]
      else Since(cfg, s0, p)
  }

  /** The time of the last completed flush; the start before any. */
  function LastCompleted(cfg: Config, s0: Writer, labels: seq<Label>): int {
    if |labels| == 0 then s0.lastFlush
    else
      var p, l := labels[..|labels| - 1], labels[|labels| - 1];
      if Completes(Run(cfg, s0, p), l) then Run(cfg, s0, p).phase.checkpoint.createdAt else LastCompleted(cfg, s0, p)
  }

  predicate FailedSince(cfg: Config, s0: Writer, labels: seq<Label>) {
    |labels| > 0 &&
    var p, l := labels[..|labels| - 1], labels[|labels| - 1];
    !Completes(Run(cfg, s0, p), l) && (PutFails(Run(cfg, s0, p), l) || FailedSince(cfg, s0, p))
  }

  function EventsOf(since: seq<(Event, int)>): seq<Event> {
    if |since| == 0 then [] else EventsOf(since[..|since| - 1]) + [since[|since| - 1].0]
  }

  /** Over any run the buffer holds exactly the events acknowledged since the three puts of a flush last succeeded, in order. */
  lemma {:induction false} BufferIsSince(cfg: Config, base: seq<Event>, now: int, labels: seq<Label>)
    ensures var t := Run(cfg, Start(base, now), labels);
            && t.buffered == EventsOf(Since(cfg, Start(base, now), labels))
            && t.lastFlush == LastCompleted(cfg, Start(base, now), labels)
  {
    if |labels| > 0 {
      var p, l := labels[..|labels| - 1], labels[|labels| - 1];
      var s := Run(cfg, Start(base, now), p);
      BufferIsSince(cfg, base, now, p);
      StepBuffers(cfg, s, l);
      if Keeps(s, l) {
        EventsSnoc(Since(cfg, Start(base, now), p), (s.phase.event, s.phase.created));
      }
    }
  }

  lemma EventsSnoc(since: seq<(Event, int)>, x: (Event, int))
    ensures EventsOf(since + [x]) == EventsOf(since) + [x.0]
  {
    assert (since + [x])[..|since|] == since;
  }

  lemma StepBuffers(cfg: Config, s: Writer, l: Label)
    ensures var t := Step(cfg, s, l);
            && (Completes(s, l) ==> t.buffered == [] && t.lastFlush == s.phase.checkpoint.createdAt)
            && (Keeps(s, l) ==> t.buffered == s.buffered + [s.phase.event] && t.lastFlush == s.lastFlush)
            && (!Completes(s, l) && !Keeps(s, l) ==> t.buffered == s.buffered && t.lastFlush == s.lastFlush)
  {
  }

  /** Nothing in it is as old as the interval, counted from `lastFlush`. */
  ghost predicate AllRecent(since: seq<(Event, int)>, lastFlush: int, interval: int) {
    forall k :: 0 <= k < |since| ==> since[k].1 - lastFlush < interval
  }

  /** What the mutex is held for: a flush, or something else. */
  predicate Flushing(phase: Phase) {
    phase.Archiving? || phase.Pointing? || phase.Dating?
  }

  /** A flush begins exactly on keeping an event that is at least the interval past the last completed one. */
  lemma FlushBeginsIff(cfg: Config, s: Writer, l: Label)
    requires !Flushing(s.phase)
    ensures var t := Step(cfg, s, l);
            && (Flushing(t.phase) <==> Keeps(s, l) && s.phase.created - s.lastFlush >= cfg.flushInterval)
            && (Flushing(t.phase) ==> t.phase.Archiving? && t.phase.manifest.createdAt == l.now && t.phase.manifest.events == t.buffered)
  {
  }

  /**
   Over any run: unless a put has failed since the last completed flush, whenever no
   flush is under way every buffered event was created less than the interval after it.
   */
  lemma {:induction false} BufferIsRecent(cfg: Config, base: seq<Event>, now: int, labels: seq<Label>)
    requires !FailedSince(cfg, Start(base, now), labels) && !Flushing(Run(cfg, Start(base, now), labels).phase)
    ensures AllRecent(Since(cfg, Start(base, now), labels), Run(cfg, Start(base, now), labels).lastFlush, cfg.flushInterval)
  {
    if |labels| > 0 {
      var p, l := labels[..|labels| - 1], labels[|labels| - 1];
      var s := Run(cfg, Start(base, now), p);
      StepBuffers(cfg, s, l);
      if !Completes(s, l) {
        PutsEndOrGoOn(cfg, s, l);
        BufferIsRecent(cfg, base, now, p);
        FlushBeginsIff(cfg, s, l);
      }
    }
  }

  /** A flush under way ends only by completing or by a failed put. */
  lemma PutsEndOrGoOn(cfg: Config, s: Writer, l: Label)
    ensures Flushing(s.phase) && !Flushing(Step(cfg, s, l).phase) ==> Completes(s, l) || PutFails(s, l)
  {
  }

  /** How many dated checkpoints were stored, acknowledged or not. */
  function DatedPuts(cfg: Config, s0: Writer, labels: seq<Label>): nat {
    if |labels| == 0 then 0
    else
      var p, l := labels[..|labels| - 1], labels[|labels| - 1];
      DatedPuts(cfg, s0, p) + if l.PutDated? && Run(cfg, s0, p).phase.Dating? && !l.outcome.Refused? then 1 else 0
  }

  /** Over any run there are as many of them in the archive as were stored. */
  lemma {:induction false} DatedAreStored(cfg: Config, base: seq<Event>, now: int, labels: seq<Label>)
    ensures |Run(cfg, Start(base, now), labels).dated| == DatedPuts(cfg, Start(base, now), labels)
  {
    if |labels| > 0 {
      DatedAreStored(cfg, base, now, labels[..|labels| - 1]);
    }
  }

  /** The dated checkpoint is put after the latest one: wherever there is a dated one, there is a latest. */
  lemma {:induction false} LatestComesFirst(cfg: Config, base: seq<Event>, now: int, labels: seq<Label>)
    ensures var t := Run(cfg, Start(base, now), labels);
            (|t.dated| > 0 ==> t.latest.Some?) && (t.phase.Dating? ==> t.latest == Some(t.phase.checkpoint))
  {
    if |labels| > 0 {
      LatestComesFirst(cfg, base, now, labels[..|labels| - 1]);
      StepKeepsLatest(cfg, Run(cfg, Start(base, now), labels[..|labels| - 1]), labels[|labels| - 1]);
    }
  }

  lemma StepKeepsLatest(cfg: Config, s: Writer, l: Label)
    requires (|s.dated| > 0 ==> s.latest.Some?) && (s.phase.Dating? ==> s.latest == Some(s.phase.checkpoint))
    ensures var t := Step(cfg, s, l);
            (|t.dated| > 0 ==> t.latest.Some?) && (t.phase.Dating? ==> t.latest == Some(t.phase.checkpoint))
  {
  }

  // ---------- what a manifest commits to ----------

  ghost predicate SealedManifest(c: Crypto, m: Manifest) {
    |m.events| > 0 && m.aggregateHash == c.hash(JoinHashes(m.events))
  }

  ghost predicate SealedWriter(c: Crypto, manifests: seq<Manifest>, phase: Phase) {
    (forall m <- manifests :: SealedManifest(c, m)) && (phase.Archiving? ==> SealedManifest(c, phase.manifest))
  }

  /** Whatever fails, every manifest in the archive carries the aggregate of its own events. */
  lemma {:induction false} ManifestsSealed(cfg: Config, base: seq<Event>, now: int, labels: seq<Label>)
    ensures var s := Run(cfg, Start(base, now), labels); SealedWriter(cfg.crypto, s.manifests, s.phase)
  {
    if |labels| > 0 {
      var p := labels[..|labels| - 1];
      ManifestsSealed(cfg, base, now, p);
      StepKeepsSealed(cfg, Run(cfg, Start(base, now), p), labels[|labels| - 1]);
    }
  }

  lemma StepKeepsSealed(cfg: Config, s: Writer, l: Label)
    requires SealedWriter(cfg.crypto, s.manifests, s.phase)
    ensures var t := Step(cfg, s, l); SealedWriter(cfg.crypto, t.manifests, t.phase)
  {
  }

  /** Events as they stand in a verified table. */
  ghost predicate Sound(c: Crypto, e: Event) {
    SplitsUniquely(e) && BarFree(e.prevHash) && BarFree(e.eventHash) && c.Links(e, e.prevHash)
  }

  ghost predicate AllSound(c: Crypto, events: seq<Event>) {
    forall k :: 0 <= k < |events| ==> Sound(c, events[k])
  }

  lemma VerifiedIsSound(c: Crypto, rows: seq<Event>)
    requires c.HexDigests() && c.Verifies(rows) && AllSplit(rows)
    ensures AllSound(c, rows)
  {
    forall k | 0 <= k < |rows| ensures Sound(c, rows[k]) {
      VerifiesAt(c, rows, k);
      VerifiesPrefix(c, rows, k);
      HeadShape(c, rows[..k]);
      assert rows[k] in rows;
    }
  }

  lemma StretchIsSound(c: Crypto, rows: seq<Event>, m: Manifest)
    requires AllSound(c, rows) && IsStretch(rows, m)
    ensures AllSound(c, m.events)
  {
    var lo: nat :| Covers(rows, m, lo);
    forall k | 0 <= k < |m.events| ensures Sound(c, m.events[k]) {
      assert m.events[k] == rows[lo + k];
    }
  }

  /** So AggregateCommits applies to any manifests that runs of the writer have archived. */
  lemma ArchivedIsSound(cfg: Config, base: seq<Event>, now: int, labels: seq<Label>, i: nat)
    requires cfg.crypto.HexDigests() && cfg.crypto.Verifies(base)
    requires AllSplit(Run(cfg, Start(base, now), labels).rows)
    requires i < |Run(cfg, Start(base, now), labels).manifests|
    ensures var m := Run(cfg, Start(base, now), labels).manifests[i];
            SealedManifest(cfg.crypto, m) && AllSound(cfg.crypto, m.events)
  {
    var s := Run(cfg, Start(base, now), labels);
    ArchiveHolds(cfg, base, now, labels);
    ManifestsSealed(cfg, base, now, labels);
    KeptAreRows(cfg, base, now, labels);
    ChainedVerifiesIff(cfg.crypto, base, s.kept);
    VerifiedIsSound(cfg.crypto, s.kept);
    LinkedAt(base, s.kept, s.manifests, i);
    StretchIsSound(cfg.crypto, s.kept, s.manifests[i]);
  }

  lemma JoinLast(events: seq<Event>)
    requires |events| > 1
    ensures var n := |events| - 1; JoinHashes(events) == JoinHashes(events[..n]) + "|" + events[n].eventHash
  {
  }

  /** The joined hashes determine the list of them. */
  lemma {:induction false} JoinDetermines(a: seq<Event>, b: seq<Event>)
    requires |a| > 0 && |b| > 0 && JoinHashes(a) == JoinHashes(b)
    requires forall k :: 0 <= k < |a| ==> BarFree(a[k].eventHash)
    requires forall k :: 0 <= k < |b| ==> BarFree(b[k].eventHash)
    ensures |a| == |b| && forall k :: 0 <= k < |a| ==> a[k].eventHash == b[k].eventHash
  {
    if |a| > 1 && |b| > 1 {
      var a', d := a[..|a| - 1], a[|a| - 1];
      var b', e := b[..|b| - 1], b[|b| - 1];
      JoinLast(a);
      JoinLast(b);
      LastField(JoinHashes(a'), JoinHashes(b'), d.eventHash, e.eventHash);
      JoinDetermines(a', b');
    } else if |a| > 1 {
      JoinHasBar(a);
    } else if |b| > 1 {
      JoinHasBar(b);
    }
  }

  lemma JoinHasBar(events: seq<Event>)
    requires |events| > 1
    ensures !BarFree(JoinHashes(events))
  {
    JoinLast(events);
    assert JoinHashes(events)[|JoinHashes(events[..|events| - 1])|] == '|';
  }

  /**
   The aggregate hash of a manifest commits to its events: two manifests of rows
   from verified tables that carry the same one list the same rows, or a collision
   can be held up, of their joined texts or of two of their rows.
   */
  lemma AggregateCommits(c: Crypto, m: Manifest, m': Manifest)
    requires SealedManifest(c, m) && SealedManifest(c, m') && m.aggregateHash == m'.aggregateHash
    requires AllSound(c, m.events) && AllSound(c, m'.events)
    ensures SameRows(c, m.events, m'.events)
            || c.Collide(JoinHashes(m.events), JoinHashes(m'.events)) || TablesCollide(c, m.events, m'.events)
  {
    if JoinHashes(m.events) == JoinHashes(m'.events) && !TablesCollide(c, m.events, m'.events) {
      JoinDetermines(m.events, m'.events);
      forall k | 0 <= k < |m.events| ensures SameRow(c, m.events[k], m'.events[k]) {
        HashCommits(c, m.events[k], m'.events[k]);
        assert m.events[k] in m.events && m'.events[k] in m'.events;
      }
    }
  }
}
