/**
 Concrete runs on which a property one would expect of the code does not hold. The
 exact condition for each is proved beside the code it is about; here it is shown
 to fail at an input.
 */
module Shortfalls {
  import opened Common
  import opened AuditChain
  import AuditWriter
  import opened AuditStorage
  import opened KillSwitches
  import opened Service
  import Focus
  import FocusClient
  import WalkForward
  import NewsIntel

  // ---------- the audit chain ----------

  lemma OneRow(c: Crypto, e: Event)
    requires c.Links(e, GENESIS)
    ensures c.Verifies([e])
  {
    VerifiesSnoc(c, [], e);
    assert [] + [e] == [e] && c.Verifies([]);
  }

  lemma TwoReadings(c: Crypto, d: Event, e: Event)
    requires c.Links(d, GENESIS) && e != d && e == d.(eventType := e.eventType, actor := e.actor)
    requires d.eventType + "|" + d.actor == e.eventType + "|" + e.actor
    ensures UndetectedRelabelling(c, [d], [e])
  {
    SameLabelSameText(c, e, d);
    OneRow(c, d);
    OneRow(c, e);
    assert [d][0 := e] == [e];
    ReplacedIsUndetected(c, [d], 0, e);
  }

  /** `a|b` under `c` reads the same as `a` under `b|c`. */
  lemma BarInTypeIsAmbiguous(c: Crypto, payload: Json, createdAt: string)
    ensures var d := c.Seal("a|b", "c", payload, createdAt, GENESIS);
            UndetectedRelabelling(c, [d], [d.(eventType := "a", actor := "b|c")])
  {
    var d := c.Seal("a|b", "c", payload, createdAt, GENESIS);
    SealLinks(c, "a|b", "c", payload, createdAt, GENESIS);
    assert "a|b" + "|" + "c" == "a" + "|" + "b|c";
    assert |"a|b"| == 3 && |"a"| == 1;
    TwoReadings(c, d, d.(eventType := "a", actor := "b|c"));
  }

  /** On an empty table: one insert stored but reported as failed, and one more event, after which the chain is broken. */
  lemma LostInsertBreaksChain(cfg: AuditWriter.Config, payload: Json, now: int)
    requires cfg.crypto.HexDigests()
    requires cfg.crypto.Seal("a", "x", payload, "t", GENESIS).eventHash != cfg.crypto.Seal("b", "x", payload, "t", GENESIS).eventHash
    ensures var labels := [AuditWriter.Lock("a", "x", payload, "t", now), AuditWriter.Insert(AuditWriter.LostAck, now)]
                          + [AuditWriter.Lock("b", "x", payload, "t", now), AuditWriter.Insert(AuditWriter.Ack, now)];
            !cfg.crypto.Verifies(AuditWriter.Run(cfg, AuditWriter.Start([], now), labels).rows)
  {
    var c, s0 := cfg.crypto, AuditWriter.Start([], now);
    var lock, insert := AuditWriter.Lock("a", "x", payload, "t", now), AuditWriter.Insert(AuditWriter.LostAck, now);
    var lock', insert' := AuditWriter.Lock("b", "x", payload, "t", now), AuditWriter.Insert(AuditWriter.Ack, now);
    var d, e := c.Seal("a", "x", payload, "t", GENESIS), c.Seal("b", "x", payload, "t", GENESIS);
    AuditWriter.RunTwo(cfg, s0, lock, insert);
    var s := AuditWriter.Run(cfg, s0, [lock, insert]);
    assert s.rows == [d] && s.lastHash == GENESIS && s.phase.Idle?;
    AuditWriter.RunConcat(cfg, s0, [lock, insert], [lock', insert']);
    AuditWriter.RunTwo(cfg, s, lock', insert');
    assert e.eventHash !in Hashes([d]);
    assert AuditWriter.Run(cfg, s, [lock', insert']).rows == [d] + [e];
    NotOnTop(c, d, e);
  }

  lemma NotOnTop(c: Crypto, d: Event, e: Event)
    requires c.HexDigests() && c.Links(d, GENESIS) && e.prevHash == GENESIS
    ensures !c.Verifies([d] + [e])
  {
    VerifiesSnoc(c, [d], e);
    assert |d.eventHash| == 64 && |GENESIS| == 7;
  }

  /** The same of the Python store: a commit that raises after the statement, and one more append. */
  lemma LostCommitBreaksChain(c: Crypto, interval: int, d: Entry, e: Entry, now: int)
    requires c.HexDigests() && Sealed(c, Open([], now), d).eventHash != Sealed(c, Open([], now), e).eventHash
    ensures !c.Verifies(RunOps(c, interval, Open([], now), [Append(d, AuditWriter.LostAck, now), Append(e, AuditWriter.Ack, now)]).rows)
  {
    var s0 := Open([], now);
    var first, second := Append(d, AuditWriter.LostAck, now), Append(e, AuditWriter.Ack, now);
    var s1 := Apply(c, interval, s0, first);
    RunOpsSnoc(c, interval, s0, [], first);
    RunOpsSnoc(c, interval, s0, [first], second);
    assert [] + [first] == [first] && [first] + [second] == [first, second];
    assert RunOps(c, interval, s0, []) == s0;
    OpOnTable(c, interval, s0, first);
    OpOnTable(c, interval, s1, second);
    HashesSnoc([], Sealed(c, s0, d));
    HeadsDiffer(c, s0, d);
    StoreOnTable(c, s1, e);
  }

  // ---------- the kill switch ----------

  /** A request by one operator, who names nobody else. */
  function Change(cfg: ServiceConfig, action: string, env: Env): Request {
    Request(SetKillSwitch(action, "reason", cfg.signReason("reason"), [], "ops", "ops-admin", "111111"), env)
  }

  lemma ChangeAccepted(cfg: ServiceConfig, action: string, env: Env)
    requires !cfg.isSpace('1') && action in {"soft_on", "soft_off", "hard_on"}
    ensures AcceptedChange(cfg, Change(cfg, action, env).call)
    ensures LevelOf(action) == Some(if action == "soft_on" then Soft else if action == "hard_on" then Hard else Off)
  {
    assert Strip(cfg.isSpace, "111111") == "111111";
    assert "soft_on"[..7] == "soft_on" && |"soft_on"| == 7 && |"soft_off"| == 8 && "hard_on"[0] == 'h' && "soft_on"[0] == 's';
    assert action != "hard_off" by {
      assert "hard_off"[0] == 'h' && |"hard_off"| == 8;
    }
  }

  lemma AskedTwo(cfg: ServiceConfig, q: Request, r: Request)
    ensures AskedLevel(cfg, [q, r]) == if AcceptedChange(cfg, r.call) then LevelOf(r.call.action).value else AskedLevel(cfg, [q])
    ensures AskedLevel(cfg, [q]) == if AcceptedChange(cfg, q.call) then LevelOf(q.call.action).value else Off
  {
    assert [q, r][..1] == [q] && [q][..0] == [];
    assert AskedLevel(cfg, []) == Off;
  }

  /** `hard_on`, then `soft_off` with no approver at all: the switch is OFF. */
  lemma OneOperatorClearsHard(cfg: ServiceConfig, base: seq<Event>, now: int, env: Env)
    requires !cfg.isSpace('1')
    ensures After(cfg, Boot(base, now), [Change(cfg, "hard_on", env)]).level == Hard
    ensures After(cfg, Boot(base, now), [Change(cfg, "hard_on", env), Change(cfg, "soft_off", env)]).level == Off
    ensures !TwoPeople(cfg.isSpace, Change(cfg, "soft_off", env).call.approvers)
  {
    var q, r := Change(cfg, "hard_on", env), Change(cfg, "soft_off", env);
    ChangeAccepted(cfg, "hard_on", env);
    ChangeAccepted(cfg, "soft_off", env);
    AskedTwo(cfg, q, r);
    LevelIsAsked(cfg, base, now, [q]);
    LevelIsAsked(cfg, base, now, [q, r]);
  }

  lemma RefusedIsNotWritten(cfg: ServiceConfig, s: Svc, r: Request)
    requires r.env.outcome.Refused?
    ensures !Written(cfg, s, r)
  {
  }

  lemma WrittenOne(cfg: ServiceConfig, s: Svc, r: Request)
    requires !Written(cfg, s, r)
    ensures WrittenLevel(cfg, s, [r]) == Off
  {
    assert [r][..0] == [];
    assert WrittenLevel(cfg, s, []) == Off && After(cfg, s, []) == s;
  }

  lemma OneIsAsked(cfg: ServiceConfig, base: seq<Event>, now: int, r: Request)
    requires AcceptedChange(cfg, r.call)
    ensures After(cfg, Boot(base, now), [r]).level == LevelOf(r.call.action).value
  {
    LevelIsAsked(cfg, base, now, [r]);
  }

  lemma OneIsNotLogged(cfg: ServiceConfig, base: seq<Event>, now: int, r: Request)
    requires Apart(r) && r.env.outcome.Refused?
    ensures LoggedLevel(After(cfg, Boot(base, now), [r]).store.rows, |base|) == LevelName(Off)
  {
    RefusedIsNotWritten(cfg, Boot(base, now), r);
    WrittenOne(cfg, Boot(base, now), r);
    LogIsWritten(cfg, base, now, [r]);
  }

  /** `hard_on` while the database refuses the insert: HARD, with a log that says off. */
  lemma UnloggedChange(cfg: ServiceConfig, base: seq<Event>, now: int, env: Env)
    requires !cfg.isSpace('1') && env.outcome.Refused?
    ensures var s := After(cfg, Boot(base, now), [Change(cfg, "hard_on", env)]);
            s.level == Hard && LoggedLevel(s.store.rows, |base|) == LevelName(Off)
  {
    ChangeAccepted(cfg, "hard_on", env);
    OneIsAsked(cfg, base, now, Change(cfg, "hard_on", env));
    OneIsNotLogged(cfg, base, now, Change(cfg, "hard_on", env));
  }

  /** One accepted change, refused by the database of an empty table: the switch moves and the table stays empty. */
  lemma OneOnEmptyTable(cfg: ServiceConfig, now: int, r: Request)
    requires AcceptedChange(cfg, r.call) && r.env.outcome.Refused?
    ensures var s := After(cfg, Boot([], now), [r]); s.level == LevelOf(r.call.action).value && s.store.rows == []
  {
    OneIsAsked(cfg, [], now, r);
    AfterTwo(cfg, Boot([], now), r, r);
    HandleAppends(cfg, Boot([], now), r);
    RefusedIsNotWritten(cfg, Boot([], now), r);
  }

  /** Then a valid prediction that is logged as blocked, under a log that says off. */
  lemma BlockedUnderOff(cfg: ServiceConfig, now: int, ml: MlOutput, first: Env, second: Env)
    requires !cfg.isSpace('1') && first.outcome.Refused? && second.outcome.Ack?
    ensures !LogAllowed(After(cfg, Boot([], now), [Change(cfg, "hard_on", first), Ask(cfg, ml, second)]).store.rows, 0)
  {
    var q, r := Change(cfg, "hard_on", first), Ask(cfg, ml, second);
    var s := After(cfg, Boot([], now), [q]);
    ChangeAccepted(cfg, "hard_on", first);
    OneOnEmptyTable(cfg, now, q);
    AskIsValid(cfg, ml, second);
    AfterTwo(cfg, Boot([], now), q, r);
    FirstRowIsWritten(cfg, s, r);
    RowInLogIff(cfg, 0, s, r, Off);
  }

  lemma FirstRowIsWritten(cfg: ServiceConfig, s: Svc, r: Request)
    requires s.store.rows == [] && r.call.Predict? && !r.env.outcome.Refused?
    ensures Written(cfg, s, r)
  {
    PlanKeepsTable(cfg, s, r);
  }

  // ---------- predictions ----------

  /** A prediction on the configured features. */
  function Ask(cfg: ServiceConfig, ml: MlOutput, env: Env): Request {
    Request(Predict(map name | name in cfg.expectedFeatures :: 0.0, cfg.staleAfter, "v1", "user", ml), env)
  }

  lemma AskIsValid(cfg: ServiceConfig, ml: MlOutput, env: Env)
    ensures FeatureStatus(cfg, Ask(cfg, ml, env).call.features, Ask(cfg, ml, env).call.age) == "valid"
  {
    assert Ask(cfg, ml, env).call.features.Keys == cfg.expectedFeatures;
  }

  lemma AfterTwo(cfg: ServiceConfig, s: Svc, q: Request, r: Request)
    ensures After(cfg, s, [q]) == Handle(cfg, s, q).0
    ensures After(cfg, s, [q, r]) == Handle(cfg, Handle(cfg, s, q).0, r).0
    ensures Replies(cfg, s, [q, r]) == [Handle(cfg, s, q).1, Handle(cfg, Handle(cfg, s, q).0, r).1]
  {
    assert [q, r][..1] == [q] && [q][..0] == [];
    assert After(cfg, s, []) == s && Replies(cfg, s, []) == [];
    assert Replies(cfg, s, [q]) == [Handle(cfg, s, q).1];
  }

  /** After a first prediction and a `soft_on`: that prediction is remembered, made with the switch off, and a further one would replay it. */
  lemma AskThenSoft(cfg: ServiceConfig, now: int, ml: MlOutput, first: Env, second: Env, third: Env)
    requires !cfg.isSpace('1')
    ensures var q, r := Ask(cfg, ml, first), Change(cfg, "soft_on", second);
            var p := Computed(cfg, Boot([], now), q.call);
            var s := After(cfg, Boot([], now), [q, r]);
            && s.level == Soft && s.lastGood == Some(p) && !p.body.killSwitchActive && Signed(cfg, p)
            && Computes(cfg, Boot([], now), q.call) && !Computes(cfg, s, r.call)
            && PlanOf(cfg, s, Ask(cfg, ml, third)).reply == Replayed(AsReplay(p))
  {
    var q, r := Ask(cfg, ml, first), Change(cfg, "soft_on", second);
    AskIsValid(cfg, ml, first);
    AskIsValid(cfg, ml, third);
    AfterTwo(cfg, Boot([], now), q, r);
    HandleRemembers(cfg, Boot([], now), q);
    HandleRemembers(cfg, Handle(cfg, Boot([], now), q).0, r);
    ChangeAccepted(cfg, "soft_on", second);
    HandleMovesLevel(cfg, Handle(cfg, Boot([], now), q).0, r);
  }

  /** So a third call, if acknowledged, is answered with the replay. */
  lemma AskAgain(cfg: ServiceConfig, now: int, ml: MlOutput, first: Env, second: Env, third: Env)
    requires !cfg.isSpace('1')
    requires Acked(cfg, After(cfg, Boot([], now), [Ask(cfg, ml, first), Change(cfg, "soft_on", second)]), Ask(cfg, ml, third))
    ensures var s := After(cfg, Boot([], now), [Ask(cfg, ml, first), Change(cfg, "soft_on", second)]);
            Handle(cfg, s, Ask(cfg, ml, third)).1 == Replayed(AsReplay(Computed(cfg, Boot([], now), Ask(cfg, ml, first).call)))
  {
    AskThenSoft(cfg, now, ml, first, second, third);
    HandleAppends(cfg, After(cfg, Boot([], now), [Ask(cfg, ml, first), Change(cfg, "soft_on", second)]), Ask(cfg, ml, third));
  }

  /** A prediction with the switch off, `soft_on`, another prediction: the replay is not signed as sent. */
  lemma UnsignedReplay(cfg: ServiceConfig, now: int, ml: MlOutput, first: Env, second: Env, third: Env)
    requires !cfg.isSpace('1')
    requires Acked(cfg, After(cfg, Boot([], now), [Ask(cfg, ml, first), Change(cfg, "soft_on", second)]), Ask(cfg, ml, third))
    requires var p := Computed(cfg, Boot([], now), Ask(cfg, ml, first).call); Distinguishes(cfg, p.body, AsReplay(p).body)
    ensures var s := After(cfg, Boot([], now), [Ask(cfg, ml, first), Change(cfg, "soft_on", second)]);
            var reply := Handle(cfg, s, Ask(cfg, ml, third)).1;
            reply.Replayed? && !Signed(cfg, reply.prediction)
  {
    AskThenSoft(cfg, now, ml, first, second, third);
    AskAgain(cfg, now, ml, first, second, third);
    ReplaySignedIff(cfg, Computed(cfg, Boot([], now), Ask(cfg, ml, first).call));
  }

  /** The same, with the first insert refused: what is replayed was never served. */
  lemma UnservedReplay(cfg: ServiceConfig, now: int, ml: MlOutput, first: Env, second: Env, third: Env)
    requires !cfg.isSpace('1') && first.outcome.Refused?
    requires Acked(cfg, After(cfg, Boot([], now), [Ask(cfg, ml, first), Change(cfg, "soft_on", second)]), Ask(cfg, ml, third))
    ensures var run := [Ask(cfg, ml, first), Change(cfg, "soft_on", second)];
            && Handle(cfg, After(cfg, Boot([], now), run), Ask(cfg, ml, third)).1.Replayed?
            && LastServed(Replies(cfg, Boot([], now), run)) == None
  {
    var q, r := Ask(cfg, ml, first), Change(cfg, "soft_on", second);
    AskAgain(cfg, now, ml, first, second, third);
    AskThenSoft(cfg, now, ml, first, second, third);
    AfterTwo(cfg, Boot([], now), q, r);
    HandleAppends(cfg, Boot([], now), q);
    HandleRemembers(cfg, Handle(cfg, Boot([], now), q).0, r);
    NobodyServed(Replies(cfg, Boot([], now), [q, r]));
  }

  lemma {:induction false} NobodyServed(replies: seq<Reply>)
    requires forall k :: 0 <= k < |replies| ==> !replies[k].Served?
    ensures LastServed(replies) == None
  {
    if |replies| > 0 {
      NobodyServed(replies[..|replies| - 1]);
    }
  }

  /** One event whose commit raises after the statement, and a prediction: its checkpoint is not the hash its row continues from. */
  lemma StrayCheckpoint(cfg: ServiceConfig, now: int, actor: string, payload: Json, ml: MlOutput, first: Env, second: Env)
    requires cfg.crypto.HexDigests() && first.outcome.LostAck?
    ensures var s := After(cfg, Boot([], now), [Request(Record("note", actor, payload), first)]);
            var reply := PlanOf(cfg, s, Ask(cfg, ml, second)).reply;
            reply.Served? && reply.prediction.body.auditChainCheckpoint != s.store.lastHash
  {
    var r := Request(Record("note", actor, payload), first);
    var s := After(cfg, Boot([], now), [r]);
    AfterTwo(cfg, Boot([], now), r, r);
    AskIsValid(cfg, ml, second);
    assert s.store.lastHash == GENESIS && |Head(s.store.rows)| == 64;
    PlanRemembers(cfg, s, Ask(cfg, ml, second));
  }

  // ---------- the Focus queue ----------

  /** Two signals on the radar, the first one selected, the queue holding nothing but requests for it. */
  ghost predicate OnlyA(s: Focus.System, n: nat) {
    && |s.queue| == n == |s.accepted|
    && (forall i :: 0 <= i < n ==> s.accepted[i] == Focus.Req("A", "5d"))
    && s.ui.signals == ["A", "B"] && s.ui.selected == 0 && s.ui.timeframe == "5d"
    && !s.ui.locked && !s.ui.editing && (n > 0 ==> s.ui.onFocus)
  }

  lemma EnterAsksA(s: Focus.System, n: nat)
    requires OnlyA(s, n) && n < Focus.QUEUE_CAPACITY
    ensures OnlyA(Focus.Step(s, Focus.Press(Focus.Enter)), n + 1)
  {
    var t := Focus.Step(s, Focus.Press(Focus.Enter));
    assert t.accepted == s.accepted + [Focus.Req("A", "5d")];
  }

  /** `f` pressed `n` times before the worker gets to run. */
  lemma {:induction false} EnterFills(n: nat)
    requires n <= Focus.QUEUE_CAPACITY
    ensures OnlyA(Focus.Run(Focus.Start(["A", "B"]), FocusClient.Repeat(Focus.Press(Focus.Enter), n)), n)
  {
    if n > 0 {
      EnterFills(n - 1);
      var labels := FocusClient.Repeat(Focus.Press(Focus.Enter), n);
      assert labels[..|labels| - 1] == FocusClient.Repeat(Focus.Press(Focus.Enter), n - 1);
      EnterAsksA(Focus.Run(Focus.Start(["A", "B"]), labels[..|labels| - 1]), n - 1);
    }
  }

  /** The client once `f` has been pressed until the queue was full, and then `]`. */
  function Dropped(): Focus.System {
    Focus.Step(Focus.Run(Focus.Start(["A", "B"]), FocusClient.Repeat(Focus.Press(Focus.Enter), Focus.QUEUE_CAPACITY)),
               Focus.Press(Focus.NextSymbol))
  }

  /** The screen names B; every request accepted is for A. */
  lemma DroppedState()
    ensures var s := Dropped();
            && Focus.Inv(s) && s.ui.symbol == "B" && s.ui.loading && |s.accepted| > 0
            && s.accepted[|s.accepted| - 1] == Focus.Req("A", "5d")
  {
    var labels := FocusClient.Repeat(Focus.Press(Focus.Enter), Focus.QUEUE_CAPACITY);
    var before := Focus.Run(Focus.Start(["A", "B"]), labels);
    EnterFills(Focus.QUEUE_CAPACITY);
    Focus.FocusNeverHangs(["A", "B"], labels);
    Focus.PressKeeps(before, Focus.NextSymbol);
    NextIsDropped(before);
  }

  lemma NextIsDropped(before: Focus.System)
    requires |before.queue| == Focus.QUEUE_CAPACITY
    requires before.ui.signals == ["A", "B"] && before.ui.selected == 0 && before.ui.onFocus && !before.ui.locked && !before.ui.editing
    ensures var s := Focus.Step(before, Focus.Press(Focus.NextSymbol));
            s.ui.symbol == "B" && s.ui.loading && s.accepted == before.accepted
  {
  }

  ghost predicate LastAnsweredA(s: Focus.System) {
    && |s.answered| > 0 && s.answered[|s.answered| - 1] < |s.accepted|
    && s.accepted[s.answered[|s.answered| - 1]] == Focus.Req("A", "5d")
  }

  /** On every continuation without another key, the last answer, once all is quiet, is for A. */
  lemma DroppedKey(rest: seq<Focus.Label>)
    requires Focus.KeyFree(rest) && Focus.Quiescent(Focus.Run(Dropped(), rest))
    ensures Dropped().ui.symbol == "B" && LastAnsweredA(Focus.Run(Dropped(), rest))
  {
    DroppedState();
    Focus.QuietKeepsAccepted(Dropped(), rest);
    Focus.QuietAnswersLast(Focus.Run(Dropped(), rest));
  }

  /** And there is such a continuation. */
  lemma DroppedKeySettles() returns (rest: seq<Focus.Label>)
    ensures Focus.KeyFree(rest) && Focus.Quiescent(Focus.Run(Dropped(), rest))
  {
    DroppedState();
    rest := Focus.LoadingClears(Dropped(), true, None);
  }

  // ---------- loops that need their callers ----------

  /** Six predictions, folds of five and an embargo of minus one: the fold loop does not end. */
  lemma NegativeEmbargoLoops(k: nat)
    ensures WalkForward.IdxAt(6, 5, -1, k) < 6
  {
    WalkForward.RunsForeverIff(6, 5, -1);
  }

  /** One event and a limit of zero: an empty page, and a cursor back to where it came from. */
  lemma ZeroLimitStalls(en: NewsIntel.Engine, e: NewsIntel.Summary)
    requires en.ParsesDecimals()
    ensures var page := NewsIntel.ListPage(en, [e], 0, "");
            page.items == [] && page.nextCursor != "" && NewsIntel.OffsetOf(en, page.nextCursor) == 0
  {
    NewsIntel.ZeroLimitNeverAdvancesIff(en, [e], "");
  }
}
