/**
 `PostgresS3AuditWriter` and the two stores it writes to, as objects. Each method
 takes what the clock and the awaited calls answer as arguments; its contract is
 a run of the step system in AuditWriter, so everything proved of runs holds of
 any sequence of calls.
 */
module PostgresS3Writer {
  import opened Common
  import opened AuditChain
  import opened AuditWriter

  /** The audit_events table behind `AuditRepository`. */
  class AuditRepository {
    var rows: seq<Event>

    constructor (rows: seq<Event>)
      ensures this.rows == rows
    {
      this.rows := rows;
    }

    method LastEventHash() returns (h: Option<string>)
      ensures h == if |rows| == 0 then None else Some(Head(rows))
    {
      h := if |rows| == 0 then None else Some(rows[|rows| - 1].eventHash);
    }

    /** True only when the row was stored and the client was told so. */
    method InsertEvent(event: Event, outcome: Outcome) returns (ok: bool)
      modifies this
      ensures var o := if event.eventHash in Hashes(old(rows)) then Refused else outcome;
              ok == o.Ack? && rows == if o.Refused? then old(rows) else old(rows) + [event]
    {
      if event.eventHash in Hashes(rows) || outcome.Refused? {
        return false;
      }
      rows := rows + [event];
      ok := outcome.Ack?;
    }
  }

  /** The object store behind `AuditArchiveStore`, as far as this process has written to it. */
  class AuditArchive {
    var manifests: seq<Manifest>
    var latest: Option<Checkpoint>
    var dated: seq<Checkpoint>

    constructor ()
      ensures manifests == [] && latest == None && dated == []
    {
      manifests, latest, dated := [], None, [];
    }

    method PutManifest(m: Manifest, outcome: Outcome) returns (ok: bool)
      modifies this
      ensures ok == outcome.Ack?
      ensures manifests == if outcome.Refused? then old(manifests) else old(manifests) + [m]
      ensures latest == old(latest) && dated == old(dated)
    {
      if !outcome.Refused? {
        manifests := manifests + [m];
      }
      ok := outcome.Ack?;
    }

    method PutLatest(cp: Checkpoint, outcome: Outcome) returns (ok: bool)
      modifies this
      ensures ok == outcome.Ack?
      ensures latest == if outcome.Refused? then old(latest) else Some(cp)
      ensures manifests == old(manifests) && dated == old(dated)
    {
      if !outcome.Refused? {
        latest := Some(cp);
      }
      ok := outcome.Ack?;
    }

    method PutDated(cp: Checkpoint, outcome: Outcome) returns (ok: bool)
      modifies this
      ensures ok == outcome.Ack?
      ensures dated == if outcome.Refused? then old(dated) else old(dated) + [cp]
      ensures manifests == old(manifests) && latest == old(latest)
    {
      if !outcome.Refused? {
        dated := dated + [cp];
      }
      ok := outcome.Ack?;
    }
  }

  /** What the four awaited calls of one `write_event` answer, should they be made. */
  datatype Answers = Answers(insert: Outcome, manifest: Outcome, latest: Outcome, dated: Outcome)

  function FlushLabels(a: Answers): seq<Label> {
    [PutManifest(a.manifest), PutLatest(a.latest), PutDated(a.dated)]
  }

  lemma RunThree(cfg: Config, s: Writer, a: Label, b: Label, c: Label)
    ensures Run(cfg, s, [a, b, c]) == Step(cfg, Step(cfg, Step(cfg, s, a), b), c)
  {
    assert [a, b, c][..2] == [a, b];
    assert [a, b][..1] == [a];
    assert [a][..0] == [];
    assert Run(cfg, s, [a]) == Step(cfg, Run(cfg, s, []), a);
    assert Run(cfg, s, [a, b]) == Step(cfg, Run(cfg, s, [a]), b);
  }

  /** The state once the event sealed under the mutex has been inserted, or not. */
  function Inserted(cfg: Config, s: Writer, event: Event, created: int, o: Outcome, now: int): Writer {
    InsertStep(cfg, s.(phase := Inserting(event, created)), o, now)
  }

  /** One undisturbed call of `write_event`, label by label: the puts take place only if the insert made a flush due. */
  lemma RunOfWrite(cfg: Config, s: Writer, eventType: string, actor: string, payload: Json, createdIso: string, created: int,
                   now: int, a: Answers)
    requires s.phase.Idle?
    ensures var event := cfg.crypto.Seal(eventType, actor, payload, createdIso, s.lastHash);
            var t := Inserted(cfg, s, event, created, a.insert, now);
            Run(cfg, s, [Lock(eventType, actor, payload, createdIso, created), Insert(a.insert, now)] + FlushLabels(a))
            == if t.phase.Archiving? then Run(cfg, t, FlushLabels(a)) else t
  {
    var lock, insert := Lock(eventType, actor, payload, createdIso, created), Insert(a.insert, now);
    var event := cfg.crypto.Seal(eventType, actor, payload, createdIso, s.lastHash);
    var t := Inserted(cfg, s, event, created, a.insert, now);
    RunConcat(cfg, s, [lock, insert], FlushLabels(a));
    RunTwo(cfg, s, lock, insert);
    if t.phase.Idle? {
      IdleFlush(cfg, t, a);
    }
  }

  lemma IdleFlush(cfg: Config, s: Writer, a: Answers)
    requires s.phase.Idle?
    ensures Run(cfg, s, FlushLabels(a)) == s
  {
    RunThree(cfg, s, PutManifest(a.manifest), PutLatest(a.latest), PutDated(a.dated));
  }

  /** Three puts of a flush, given up at the first that is not acknowledged. */
  function AfterPuts(s: Writer, a: Answers): Writer
    requires s.phase.Archiving?
  {
    var m := ManifestStep(s, a.manifest);
    if !a.manifest.Ack? then m
    else
      var l := LatestStep(m, a.latest);
      if !a.latest.Ack? then l else DatedStep(l, a.dated)
  }

  lemma RunOfFlush(cfg: Config, s: Writer, a: Answers)
    requires s.phase.Archiving?
    ensures Run(cfg, s, FlushLabels(a)) == AfterPuts(s, a)
  {
    RunThree(cfg, s, PutManifest(a.manifest), PutLatest(a.latest), PutDated(a.dated));
  }

  class PostgresS3AuditWriter {
    const cfg: Config
    const repo: AuditRepository
    const archive: AuditArchive
    var lastHash: string
    var buffered: seq<Event>
    var lastFlushUnix: int
    ghost var kept: seq<Event>
    ghost var mark: nat

    /** The state the step system speaks of, while this process stands at `phase`. */
    ghost function At(phase: Phase): Writer
      reads this, repo, archive
    {
      Writer(repo.rows, lastHash, buffered, lastFlushUnix, archive.manifests, archive.latest, archive.dated, kept, mark, phase)
    }

    constructor (cfg: Config, repo: AuditRepository, archive: AuditArchive, now: int)
      requires archive.manifests == [] && archive.latest == None && archive.dated == []
      ensures this.cfg == cfg && this.repo == repo && this.archive == archive
      ensures At(Idle) == Start(repo.rows, now)
    {
      this.cfg, this.repo, this.archive := cfg, repo, archive;
      new;
      var last := repo.LastEventHash();
      lastHash := if last.Some? then last.value else GENESIS;
      buffered := [];
      lastFlushUnix := now;
      kept, mark := repo.rows, |repo.rows|;
    }

    /** `flush_buffer_locked`: three puts in order, giving up at the first that is not acknowledged. */
    method FlushBufferLocked(now: int, answers: Answers) returns (ok: bool)
      modifies this, archive
      ensures lastHash == old(lastHash) && kept == old(kept)
      ensures |old(buffered)| == 0 ==> ok && At(Idle) == old(At(Idle))
      ensures |old(buffered)| > 0 ==>
                var started := old(At(Archiving(ManifestOf(cfg.crypto, buffered, now))));
                && At(Idle) == Run(cfg, started, FlushLabels(answers))
                && ok == (answers.manifest.Ack? && answers.latest.Ack? && answers.dated.Ack?)
      ensures |old(buffered)| > 0 && ok ==>
                var checkpoint := Checkpoint(now, Head(old(buffered)), |old(buffered)|);
                && buffered == [] && lastFlushUnix == now
                && archive.manifests == old(archive.manifests) + [ManifestOf(cfg.crypto, old(buffered), now)]
                && archive.latest == Some(checkpoint) && archive.dated == old(archive.dated) + [checkpoint]
    {
      if |buffered| == 0 {
        return true;
      }
      var manifest := ManifestOf(cfg.crypto, buffered, now);
      ghost var started := At(Archiving(manifest));
      RunOfFlush(cfg, started, answers);
      ok := archive.PutManifest(manifest, answers.manifest);
      if !ok {
        return;
      }
      var checkpoint := Checkpoint(now, manifest.endHash, |buffered|);
      ok := archive.PutLatest(checkpoint, answers.latest);
      if !ok {
        return;
      }
      ok := archive.PutDated(checkpoint, answers.dated);
      if !ok {
        return;
      }
      buffered := [];
      lastFlushUnix := now;
      mark := |kept|;
    }

    /** `write_event`, from taking the mutex to giving it back. */
    method WriteEvent(eventType: string, actor: string, payload: Json, createdIso: string, created: int,
                      now: int, answers: Answers)
      returns (r: Option<string>)
      modifies this, repo, archive
      ensures var lock := Lock(eventType, actor, payload, createdIso, created);
              At(Idle) == Run(cfg, old(At(Idle)), [lock, Insert(answers.insert, now)] + FlushLabels(answers))
      ensures r.Some? ==>
                && |repo.rows| == |old(repo.rows)| + 1 && lastHash == r.value == Head(repo.rows)
                && repo.rows == old(repo.rows) + [cfg.crypto.Seal(eventType, actor, payload, createdIso, old(lastHash))]
      ensures var event := cfg.crypto.Seal(eventType, actor, payload, createdIso, old(lastHash));
              answers == Answers(Ack, Ack, Ack, Ack) && event.eventHash !in Hashes(old(repo.rows)) ==>
                && r == Some(event.eventHash)
                && (if created - old(lastFlushUnix) >= cfg.flushInterval then
                      var checkpoint := Checkpoint(now, event.eventHash, |old(buffered)| + 1);
                      && buffered == [] && lastFlushUnix == now
                      && archive.manifests == old(archive.manifests) + [ManifestOf(cfg.crypto, old(buffered) + [event], now)]
                      && archive.latest == Some(checkpoint) && archive.dated == old(archive.dated) + [checkpoint]
                    else
                      && buffered == old(buffered) + [event] && lastFlushUnix == old(lastFlushUnix)
                      && archive.manifests == old(archive.manifests) && archive.latest == old(archive.latest)
                      && archive.dated == old(archive.dated))
    {
      RunOfWrite(cfg, At(Idle), eventType, actor, payload, createdIso, created, now, answers);
      var event := cfg.crypto.Seal(eventType, actor, payload, createdIso, lastHash);
      var ok := repo.InsertEvent(event, answers.insert);
      if !ok {
        return None;
      }
      lastHash := event.eventHash;
      buffered := buffered + [event];
      kept := kept + [event];
      if created - lastFlushUnix >= cfg.flushInterval {
        var flushed := FlushBufferLocked(now, answers);
        if !flushed {
          return None;
        }
      }
      return Some(event.eventHash);
    }

    /** The first half of `status`: read the rows and verify them. The mutex is not taken. */
    method VerifyRows() returns (valid: bool)
      ensures valid <==> cfg.crypto.Verifies(repo.rows)
    {
      valid := VerifyChainRows(cfg.crypto, repo.rows);
    }

    /**
     The second half, after any calls others may have made since `first` was read:
     the answer is the one StatusIsConsistent speaks of.
     */
    method FinishStatus(valid: bool, ghost first: seq<Event>) returns (status: AuditStatus)
      requires valid <==> cfg.crypto.Verifies(first)
      ensures status == StatusOf(cfg.crypto, first, repo.rows)
    {
      var last := repo.LastEventHash();
      status := AuditStatus(valid, if last.Some? then last.value else GENESIS);
    }
  }
}
