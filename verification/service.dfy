/**
 `PlatformService` (src/quant_platform/service.py): prediction, kill switch and
 audit log as one state machine over whole runs of mixed calls. Each call is
 given what its environment answers: the clock readings and what becomes of the
 database insert.
 */
module Service {
  import opened Common
  import opened AuditChain
  import opened AuditWriter
  import opened AuditStorage
  import opened KillSwitches

  /** The fields of a prediction that come from the decision-support engine. */
  datatype MlOutput = MlOutput(confidence: real, regime: string, rest: Json)

  /** Everything that is signed. */
  datatype Body = Body(
    score: real,
    modelVersion: string,
    disclaimerHash: string,
    restriction: string,
    killSwitchActive: bool,
    auditChainCheckpoint: string,
    jurisdictionPrimary: string,
    jurisdictionBackup: string,
    featureContractStatus: string,
    ml: MlOutput)

  datatype Prediction = Prediction(body: Body, signature: string)

  datatype ServiceConfig = ServiceConfig(
    crypto: Crypto,
    flushInterval: int,
    expectedFeatures: set<string>,
    staleAfter: int,
    disclaimerHash: string,
    jurisdictionPrimary: string,
    jurisdictionBackup: string,
    score: map<string, real> -> real,
    signBody: Body -> string,
    signReason: string -> string,
    isSpace: char -> bool)

  datatype Env = Env(createdIso: string, created: int, now: int, nowIso: string, outcome: Outcome)

  datatype Call =
    | Predict(features: map<string, real>, age: int, modelVersion: string, actor: string, ml: MlOutput)
    | SetKillSwitch(action: string, reason: string, reasonSignature: string, approvers: seq<string>,
                    actor: string, role: string, mfaToken: string)
    | OpsAudit
    | Record(eventType: string, actor: string, payload: Json)  // any other endpoint that appends one event

  datatype Request = Request(call: Call, env: Env)

  datatype Reply =
    | Served(prediction: Prediction)
    | Replayed(prediction: Prediction)
    | Rejected(status: string)
    | Blocked
    | Changed(level: KillLevel, reason: string)
    | Denied(why: string)
    | Report(valid: bool, lastHash: string, buffered: nat)
    | Recorded
    | AuditFailed

  datatype Svc = Svc(level: KillLevel, reason: string, lastGood: Option<Prediction>, store: Store)

  const SERVED := "prediction_served"
  const REPLAY := "prediction_soft_kill_replay"
  const BLOCKED := "prediction_blocked"
  const REJECTED := "prediction_rejected"
  const CHANGED := "kill_switch_changed"

  /** The event types that `predict` and `set_kill_switch` keep for themselves. */
  const RESERVED := {SERVED, REPLAY, BLOCKED, REJECTED, CHANGED}

  // ---------- the transitions ----------

  function FeatureStatus(cfg: ServiceConfig, features: map<string, real>, age: int): string {
    if age > cfg.staleAfter then "stale"
    else if features.Keys == cfg.expectedFeatures then "valid"
    else "mismatch"
  }

  /** What a call is about to do: the state before the write, the event to append, the answer if that is acknowledged. */
  datatype Plan = Plan(next: Svc, entry: Option<Entry>, reply: Reply)

  function EntryOf(env: Env, eventType: string, actor: string, payload: Json): Entry {
    Entry(eventType, actor, payload, env.createdIso, env.created)
  }

  function Compute(cfg: ServiceConfig, s: Svc, call: Call, checkpoint: string): Prediction
    requires call.Predict?
  {
    var body := Body(cfg.score(call.features), call.modelVersion, cfg.disclaimerHash, "decision-support-only",
                     s.level != Off, checkpoint, cfg.jurisdictionPrimary, cfg.jurisdictionBackup, "valid", call.ml);
    Prediction(body, cfg.signBody(body))
  }

  function AsReplay(p: Prediction): Prediction {
    p.(body := p.body.(killSwitchActive := true))
  }

  function ServedPayload(call: Call, p: Prediction): Json
    requires call.Predict?
  {
    Obj(map["model_version" := Str(call.modelVersion), "score" := Num(p.body.score),
            "confidence" := Num(p.body.ml.confidence), "regime" := Str(p.body.ml.regime)])
  }

  function PredictPlan(cfg: ServiceConfig, s: Svc, call: Call, env: Env): Plan
    requires call.Predict?
  {
    var status := FeatureStatus(cfg, call.features, call.age);
    if status != "valid" then
      Plan(s, Some(EntryOf(env, REJECTED, call.actor, Obj(map["reason" := Str("feature_contract"), "status" := Str(status)]))),
           Rejected(status))
    else if s.level == Hard then
      Plan(s, Some(EntryOf(env, BLOCKED, call.actor, Obj(map["reason" := Str("hard_kill_switch")]))), Blocked)
    else if s.level == Soft && s.lastGood.Some? then
      var p := AsReplay(s.lastGood.value);
      Plan(s, Some(EntryOf(env, REPLAY, call.actor, Obj(map["model_version" := Str(p.body.modelVersion)]))), Replayed(p))
    else
      var t := s.(store := Checkpointed(s.store, env.nowIso));
      var p := Compute(cfg, s, call, t.store.checkpoint.value.checkpointHash);
      Plan(t.(lastGood := Some(p)), Some(EntryOf(env, SERVED, call.actor, ServedPayload(call, p))), Served(p))
  }

  /** The level an action asks for; None for an action that does not exist. */
  function LevelOf(action: string): Option<KillLevel> {
    if action == "soft_on" then Some(Soft)
    else if action == "hard_on" then Some(Hard)
    else if action == "soft_off" || action == "hard_off" then Some(Off)
    else None
  }

  /** The checks in the order they are made; None when the change goes ahead. */
  function Refusal(cfg: ServiceConfig, call: Call): Option<string>
    requires call.SetKillSwitch?
  {
    if call.role != "ops-admin" then Some("rbac_denied")
    else if |Strip(cfg.isSpace, call.mfaToken)| < 6 then Some("mfa_required")
    else if cfg.signReason(call.reason) != call.reasonSignature then Some("invalid_reason_signature")
    else if LevelOf(call.action).None? then Some("unsupported_action")
    else if call.action == "hard_off" && |Approving(cfg.isSpace, call.approvers)| < 2 then Some("two_person_approval")
    else None
  }

  function Strs(items: seq<string>): seq<Json> {
    if |items| == 0 then [] else Strs(items[..|items| - 1]) + [Str(items[|items| - 1])]
  }

  function ChangePayload(action: string, reason: string, level: KillLevel, approvers: seq<string>): Json {
    Obj(map["action" := Str(action), "reason" := Str(reason), "result_level" := Str(LevelName(level)),
            "approvers" := Arr(Strs(approvers))])
  }

  function KillPlan(cfg: ServiceConfig, s: Svc, call: Call, env: Env): Plan
    requires call.SetKillSwitch?
  {
    var refusal := Refusal(cfg, call);
    if refusal.Some? then Plan(s, None, Denied(refusal.value))
    else
      var level := LevelOf(call.action).value;
      Plan(s.(level := level, reason := call.reason),
           Some(EntryOf(env, CHANGED, call.actor, ChangePayload(call.action, call.reason, level, call.approvers))),
           Changed(level, call.reason))
  }

  function OpsPlan(cfg: ServiceConfig, s: Svc, env: Env): Plan {
    var t := s.(store := Checkpointed(Flushed(cfg.crypto, s.store, env.now), env.nowIso));
    Plan(t, None, Report(cfg.crypto.Verifies(t.store.rows),
                         if cfg.crypto.Verifies(t.store.rows) then Head(t.store.rows) else GENESIS,
                         |t.store.buffer|))
  }

  function PlanOf(cfg: ServiceConfig, s: Svc, r: Request): Plan {
    match r.call
    case Predict(_, _, _, _, _) => PredictPlan(cfg, s, r.call, r.env)
    case SetKillSwitch(_, _, _, _, _, _, _) => KillPlan(cfg, s, r.call, r.env)
    case OpsAudit => OpsPlan(cfg, s, r.env)
    case Record(eventType, actor, payload) => Plan(s, Some(EntryOf(r.env, eventType, actor, payload)), Recorded)
  }

  /** What becomes of the planned insert; a plan without one stores nothing. */
  function Fate(cfg: ServiceConfig, plan: Plan, o: Outcome): Outcome {
    if plan.entry.None? then Refused else WriteOutcome(cfg.crypto, plan.next.store, plan.entry.value, o)
  }

  /** Append the event and answer; the caller of an append that raises gets the failure and nothing else. */
  function Commit(cfg: ServiceConfig, plan: Plan, env: Env): (Svc, Reply) {
    if plan.entry.None? then (plan.next, plan.reply)
    else
      (plan.next.(store := Appended(cfg.crypto, cfg.flushInterval, plan.next.store, plan.entry.value, env.outcome, env.now)),
       if Fate(cfg, plan, env.outcome) == Ack then plan.reply else AuditFailed)
  }

  function Handle(cfg: ServiceConfig, s: Svc, r: Request): (Svc, Reply) {
    Commit(cfg, PlanOf(cfg, s, r), r.env)
  }

  /** The call stores a row, whether or not it is told so. */
  predicate Written(cfg: ServiceConfig, s: Svc, r: Request) {
    Fate(cfg, PlanOf(cfg, s, r), r.env.outcome) != Refused
  }

  /** The call stores a row and is told so. */
  predicate Acked(cfg: ServiceConfig, s: Svc, r: Request) {
    Fate(cfg, PlanOf(cfg, s, r), r.env.outcome) == Ack
  }

  function Boot(rows: seq<Event>, now: int): Svc {
    Svc(Off, "", None, Open(rows, now))
  }

  function After(cfg: ServiceConfig, s: Svc, rs: seq<Request>): Svc {
    if |rs| == 0 then s else Handle(cfg, After(cfg, s, rs[..|rs| - 1]), rs[|rs| - 1]).0
  }

  function Replies(cfg: ServiceConfig, s: Svc, rs: seq<Request>): (replies: seq<Reply>)
    ensures |replies| == |rs|
  {
    if |rs| == 0 then []
    else Replies(cfg, s, rs[..|rs| - 1]) + [Handle(cfg, After(cfg, s, rs[..|rs| - 1]), rs[|rs| - 1]).1]
  }

  // ---------- one call ----------

  /** The event type under which a call is logged, given what it means to answer. */
  function EventTypeOf(call: Call, r: Reply): string {
    if call.Record? then call.eventType
    else match r
      case Served(_) => SERVED
      case Replayed(_) => REPLAY
      case Blocked => BLOCKED
      case Changed(_, _) => CHANGED
      case _ => REJECTED
  }

  function ActorOf(call: Call): string {
    if call.OpsAudit? then "" else call.actor
  }

  /** Before the write neither the table nor the cached hash moves, and what is to be logged is named for the answer. */
  lemma PlanKeepsTable(cfg: ServiceConfig, s: Svc, r: Request)
    ensures var plan := PlanOf(cfg, s, r);
            && plan.next.store.rows == s.store.rows && plan.next.store.lastHash == s.store.lastHash
            && (plan.entry.Some? ==>
                  && plan.entry.value.eventType == EventTypeOf(r.call, plan.reply)
                  && plan.entry.value.actor == ActorOf(r.call))
            && (r.call.Predict? || r.call.Record? ==> plan.entry.Some?)
            && plan.reply != AuditFailed
  {
  }

  lemma CommitRows(cfg: ServiceConfig, plan: Plan, env: Env)
    ensures var (t, reply) := Commit(cfg, plan, env);
            && t == plan.next.(store := t.store)
            && t.store.rows == plan.next.store.rows
                               + (if Fate(cfg, plan, env.outcome) == Refused then []
                                  else [Sealed(cfg.crypto, plan.next.store, plan.entry.value)])
            && reply == (if plan.entry.Some? && Fate(cfg, plan, env.outcome) != Ack then AuditFailed else plan.reply)
  {
  }

  /** The row a call stores, if it stores one. */
  function RowOf(cfg: ServiceConfig, s: Svc, r: Request): (e: Event)
    requires Written(cfg, s, r)
    ensures e.eventType == EventTypeOf(r.call, PlanOf(cfg, s, r).reply) && e.actor == ActorOf(r.call)
    ensures e.prevHash == s.store.lastHash && e.payload == PlanOf(cfg, s, r).entry.value.payload
  {
    PlanKeepsTable(cfg, s, r);
    Sealed(cfg.crypto, s.store, PlanOf(cfg, s, r).entry.value)
  }

  /**
   Every call: it appends its one row exactly when the insert stores it, under the
   type and actor that belong to its answer, linked to the cached hash; and gives
   that answer exactly when the insert was acknowledged or there was none.
   */
  lemma HandleAppends(cfg: ServiceConfig, s: Svc, r: Request)
    ensures var (t, reply) := Handle(cfg, s, r);
            && t.store.rows == s.store.rows + (if Written(cfg, s, r) then [RowOf(cfg, s, r)] else [])
            && reply == (if PlanOf(cfg, s, r).entry.Some? && !Acked(cfg, s, r) then AuditFailed else PlanOf(cfg, s, r).reply)
  {
    PlanKeepsTable(cfg, s, r);
    CommitRows(cfg, PlanOf(cfg, s, r), r.env);
  }

  /** A prediction always has a row to write, and the kill switch decides which. */
  lemma PredictObeysSwitch(cfg: ServiceConfig, s: Svc, call: Call, env: Env)
    requires call.Predict?
    ensures var plan := PredictPlan(cfg, s, call, env);
            && plan.entry.Some? && plan.next.level == s.level
            && (plan.reply.Served? ==> s.level != Hard)
            && (plan.reply.Replayed? ==> s.level == Soft)
            && (plan.reply.Blocked? ==> s.level == Hard)
            && (plan.reply.Served? || plan.reply.Replayed? || plan.reply.Blocked? || plan.reply.Rejected?)
  {
  }

  /**
   Whoever gets past the feature contract sent exactly the configured features, and
   the configuration was not out of date; everyone else is told which of the two failed.
   */
  lemma RejectedIff(cfg: ServiceConfig, s: Svc, call: Call, env: Env)
    requires call.Predict?
    ensures var reply := PredictPlan(cfg, s, call, env).reply;
            var exact := forall name :: name in call.features <==> name in cfg.expectedFeatures;
            && (!reply.Rejected? <==> call.age <= cfg.staleAfter && exact)
            && (reply == Rejected("stale") <==> call.age > cfg.staleAfter)
            && (reply == Rejected("mismatch") <==> call.age <= cfg.staleAfter && !exact)
  {
    assert call.features.Keys == cfg.expectedFeatures <==>
           forall name :: name in call.features <==> name in cfg.expectedFeatures;
    assert |"stale"| == 5 == |"valid"| && "stale"[0] == 's' && "valid"[0] == 'v' && |"mismatch"| == 8;
  }

  /**
   A served payload names, as its checkpoint, the hash its own audit event continues
   from, exactly when the cached hash is the head of the table.
   */
  lemma CheckpointIsPrevHashIff(cfg: ServiceConfig, s: Svc, r: Request)
    requires r.call.Predict? && PlanOf(cfg, s, r).reply.Served? && Written(cfg, s, r)
    ensures RowOf(cfg, s, r).prevHash == PlanOf(cfg, s, r).reply.prediction.body.auditChainCheckpoint
            <==> s.store.lastHash == Head(s.store.rows)
  {
  }

  predicate AcceptedChange(cfg: ServiceConfig, call: Call) {
    call.SetKillSwitch? && Refusal(cfg, call).None?
  }

  /** Who may move the switch, and with what. */
  ghost predicate MayChange(cfg: ServiceConfig, call: Call)
    requires call.SetKillSwitch?
  {
    && call.role == "ops-admin" && |Strip(cfg.isSpace, call.mfaToken)| >= 6
    && cfg.signReason(call.reason) == call.reasonSignature
    && call.action in {"soft_on", "soft_off", "hard_on", "hard_off"}
    && (call.action == "hard_off" ==> TwoPeople(cfg.isSpace, call.approvers))
  }

  lemma ActionsDiffer()
    ensures "soft_on" != "soft_off" && "soft_on" != "hard_on" && "soft_on" != "hard_off"
    ensures "soft_off" != "hard_on" && "soft_off" != "hard_off" && "hard_on" != "hard_off"
  {
    assert |"soft_on"| == 7 == |"hard_on"| && |"soft_off"| == 8 == |"hard_off"|;
    assert "soft_on"[0] == 's' == "soft_off"[0] && "hard_on"[0] == 'h' == "hard_off"[0];
  }

  lemma AcceptedChangeIff(cfg: ServiceConfig, call: Call)
    requires call.SetKillSwitch?
    ensures AcceptedChange(cfg, call) <==> MayChange(cfg, call)
  {
    TwoPersonRule(cfg.isSpace, call.approvers);
  }

  /**
   Every request is answered by the first of the conditions it fails, in this order;
   and one that fails none by the level its action stands for.
   */
  lemma DeniedIff(cfg: ServiceConfig, s: Svc, call: Call, env: Env)
    requires call.SetKillSwitch?
    ensures var reply := KillPlan(cfg, s, call, env).reply;
            var admin := call.role == "ops-admin";
            var token := |Strip(cfg.isSpace, call.mfaToken)| >= 6;
            var signed := cfg.signReason(call.reason) == call.reasonSignature;
            var known := call.action in {"soft_on", "soft_off", "hard_on", "hard_off"};
            var alone := call.action == "hard_off" && !TwoPeople(cfg.isSpace, call.approvers);
            && (reply == Denied("rbac_denied") <==> !admin)
            && (reply == Denied("mfa_required") <==> admin && !token)
            && (reply == Denied("invalid_reason_signature") <==> admin && token && !signed)
            && (reply == Denied("unsupported_action") <==> admin && token && signed && !known)
            && (reply == Denied("two_person_approval") <==> admin && token && signed && alone)
            && (!reply.Denied? <==> MayChange(cfg, call))
            && (reply == Changed(Soft, call.reason) <==> MayChange(cfg, call) && call.action == "soft_on")
            && (reply == Changed(Hard, call.reason) <==> MayChange(cfg, call) && call.action == "hard_on")
            && (reply == Changed(Off, call.reason) <==> MayChange(cfg, call) && call.action in {"soft_off", "hard_off"})
  {
    TwoPersonRule(cfg.isSpace, call.approvers);
    ActionsDiffer();
    assert "rbac_denied"[0] == 'r' && "mfa_required"[0] == 'm' && "invalid_reason_signature"[0] == 'i';
    assert "unsupported_action"[0] == 'u' && "two_person_approval"[0] == 't';
  }

  /** A refused request changes nothing at all: not the switch, not the log. */
  lemma RefusedChangesNothing(cfg: ServiceConfig, s: Svc, call: Call, env: Env)
    requires call.SetKillSwitch?
    ensures var (t, reply) := Commit(cfg, KillPlan(cfg, s, call, env), env);
            && (reply.Denied? <==> !AcceptedChange(cfg, call))
            && (reply.Denied? ==> t == s)
            && (AcceptedChange(cfg, call) && call.action == "hard_off" ==> TwoPeople(cfg.isSpace, call.approvers))
  {
    TwoPersonRule(cfg.isSpace, call.approvers);
  }

  /**
   Every accepted change sets the level it asks for, whatever the level was. So HARD
   is left by any accepted action but `hard_on`, and left without two different
   approvers exactly by an accepted `soft_on` or `soft_off` that names fewer.
   */
  lemma LeavesHardIff(cfg: ServiceConfig, s: Svc, call: Call, env: Env)
    requires call.SetKillSwitch? && s.level == Hard
    ensures var t := KillPlan(cfg, s, call, env).next;
            && (t.level != Hard <==> AcceptedChange(cfg, call) && call.action != "hard_on")
            && (t.level != Hard && !TwoPeople(cfg.isSpace, call.approvers) <==>
                && AcceptedChange(cfg, call) && (call.action == "soft_on" || call.action == "soft_off")
                && !TwoPeople(cfg.isSpace, call.approvers))
  {
    TwoPersonRule(cfg.isSpace, call.approvers);
  }

  // ---------- whole runs: the store ----------

  /** The store operations of one call before its append. */
  function Prelude(cfg: ServiceConfig, s: Svc, r: Request): seq<Op> {
    if r.call.OpsAudit? then [Flush(r.env.now), MakeCheckpoint(r.env.nowIso)]
    else if Computes(cfg, s, r.call) then [MakeCheckpoint(r.env.nowIso)]
    else []
  }

  function OpsOf(cfg: ServiceConfig, s: Svc, r: Request): seq<Op> {
    var plan := PlanOf(cfg, s, r);
    Prelude(cfg, s, r) + if plan.entry.Some? then [Append(plan.entry.value, r.env.outcome, r.env.now)] else []
  }

  /** All store operations of a run of calls, in order. */
  function StoreOps(cfg: ServiceConfig, s: Svc, rs: seq<Request>): seq<Op> {
    if |rs| == 0 then []
    else
      var p := rs[..|rs| - 1];
      StoreOps(cfg, s, p) + OpsOf(cfg, After(cfg, s, p), rs[|rs| - 1])
  }

  lemma PlanRunsPrelude(cfg: ServiceConfig, s0: Store, ops: seq<Op>, s: Svc, r: Request)
    requires s.store == RunOps(cfg.crypto, cfg.flushInterval, s0, ops)
    ensures PlanOf(cfg, s, r).next.store == RunOps(cfg.crypto, cfg.flushInterval, s0, ops + Prelude(cfg, s, r))
  {
    var c, n := cfg.crypto, cfg.flushInterval;
    if r.call.OpsAudit? {
      var flush, mark := Flush(r.env.now), MakeCheckpoint(r.env.nowIso);
      RunOpsSnoc(c, n, s0, ops, flush);
      RunOpsSnoc(c, n, s0, ops + [flush], mark);
      assert ops + [flush] + [mark] == ops + [flush, mark];
    } else if Computes(cfg, s, r.call) {
      RunOpsSnoc(c, n, s0, ops, MakeCheckpoint(r.env.nowIso));
    } else {
      assert ops + [] == ops;
    }
  }

  lemma CommitRunsAppend(cfg: ServiceConfig, s0: Store, ops: seq<Op>, plan: Plan, env: Env)
    requires plan.next.store == RunOps(cfg.crypto, cfg.flushInterval, s0, ops)
    ensures var tail := if plan.entry.Some? then [Append(plan.entry.value, env.outcome, env.now)] else [];
            Commit(cfg, plan, env).0.store == RunOps(cfg.crypto, cfg.flushInterval, s0, ops + tail)
  {
    if plan.entry.Some? {
      RunOpsSnoc(cfg.crypto, cfg.flushInterval, s0, ops, Append(plan.entry.value, env.outcome, env.now));
    } else {
      assert ops + [] == ops;
    }
  }

  lemma HandleRunsOps(cfg: ServiceConfig, s0: Store, ops: seq<Op>, s: Svc, r: Request)
    requires s.store == RunOps(cfg.crypto, cfg.flushInterval, s0, ops)
    ensures Handle(cfg, s, r).0.store == RunOps(cfg.crypto, cfg.flushInterval, s0, ops + OpsOf(cfg, s, r))
  {
    var plan := PlanOf(cfg, s, r);
    PlanRunsPrelude(cfg, s0, ops, s, r);
    CommitRunsAppend(cfg, s0, ops + Prelude(cfg, s, r), plan, r.env);
    var tail := if plan.entry.Some? then [Append(plan.entry.value, r.env.outcome, r.env.now)] else [];
    assert ops + Prelude(cfg, s, r) + tail == ops + OpsOf(cfg, s, r);
  }

  /** A run of the service is a run of its store, so all that holds of those runs holds of these. */
  lemma {:induction false} ServiceRunsStore(cfg: ServiceConfig, base: seq<Event>, now: int, rs: seq<Request>)
    ensures After(cfg, Boot(base, now), rs).store
         == RunOps(cfg.crypto, cfg.flushInterval, Open(base, now), StoreOps(cfg, Boot(base, now), rs))
  {
    if |rs| > 0 {
      var p := rs[..|rs| - 1];
      ServiceRunsStore(cfg, base, now, p);
      HandleRunsOps(cfg, Open(base, now), StoreOps(cfg, Boot(base, now), p), After(cfg, Boot(base, now), p), rs[|rs| - 1]);
    }
  }

  /**
   After any run of calls, whatever failed and whatever table was found: what the
   process knows it stored continues that table link by link with the cached hash as
   its head; the log as a whole verifies exactly when the table found does and nothing
   was stored after a lost acknowledgement.
   */
  lemma RunKeepsStore(cfg: ServiceConfig, base: seq<Event>, now: int, rs: seq<Request>)
    requires cfg.crypto.HexDigests()
    ensures var s := After(cfg, Boot(base, now), rs);
            var ops := StoreOps(cfg, Boot(base, now), rs);
            && StoreInv(cfg.crypto, base, s.store)
            && (cfg.crypto.Verifies(s.store.rows) <==> Unbroken(cfg, base, now, rs))
            && (s.store.rows == KeptRows(base, s.store) <==> Losses(cfg.crypto, cfg.flushInterval, Open(base, now), ops) == 0)
  {
    var ops := StoreOps(cfg, Boot(base, now), rs);
    ServiceRunsStore(cfg, base, now, rs);
    StoreRunKeeps(cfg.crypto, cfg.flushInterval, base, now, ops);
    TableVerifiesIff(cfg.crypto, cfg.flushInterval, base, now, ops);
    KeptIsTableIff(cfg.crypto, cfg.flushInterval, base, now, ops);
  }

  /** The table found verifies, and no call stored a row after one whose acknowledgement was lost. */
  predicate Unbroken(cfg: ServiceConfig, base: seq<Event>, now: int, rs: seq<Request>) {
    && cfg.crypto.Verifies(base)
    && !StoredAfterLoss(cfg.crypto, cfg.flushInterval, Open(base, now), StoreOps(cfg, Boot(base, now), rs))
  }

  /** Over any run, the next served payload names its own previous hash exactly when the last stored row was acknowledged. */
  lemma ServedCheckpointIff(cfg: ServiceConfig, base: seq<Event>, now: int, rs: seq<Request>, r: Request)
    requires cfg.crypto.HexDigests() && r.call.Predict?
    requires PlanOf(cfg, After(cfg, Boot(base, now), rs), r).reply.Served? && Written(cfg, After(cfg, Boot(base, now), rs), r)
    ensures var s := After(cfg, Boot(base, now), rs);
            RowOf(cfg, s, r).prevHash == PlanOf(cfg, s, r).reply.prediction.body.auditChainCheckpoint
            <==> LastStoreAcked(cfg.crypto, cfg.flushInterval, Open(base, now), StoreOps(cfg, Boot(base, now), rs))
  {
    ServiceRunsStore(cfg, base, now, rs);
    HeadIsCachedIff(cfg.crypto, cfg.flushInterval, base, now, StoreOps(cfg, Boot(base, now), rs));
    CheckpointIsPrevHashIff(cfg, After(cfg, Boot(base, now), rs), r);
  }

  /**
   `ops_audit` at any time: it reports a valid chain and its head exactly when the
   table found verifies and nothing was stored after a lost acknowledgement, leaves
   nothing buffered, and by then the file holds every row this process knows it stored.
   */
  lemma OpsAuditReports(cfg: ServiceConfig, base: seq<Event>, now: int, rs: seq<Request>, env: Env)
    requires cfg.crypto.HexDigests()
    ensures var s := After(cfg, Boot(base, now), rs);
            var plan := OpsPlan(cfg, s, env);
            && plan.reply == (if Unbroken(cfg, base, now, rs) then Report(true, Head(s.store.rows), 0) else Report(false, GENESIS, 0))
            && plan.next.store.rows == s.store.rows
            && KeptRows(base, s.store) == base + BatchEvents(plan.next.store.batches)
            && plan.next.store.checkpoint.Some? && plan.next.store.checkpoint.value.checkpointHash == Head(s.store.rows)
  {
    RunKeepsStore(cfg, base, now, rs);
    var s := After(cfg, Boot(base, now), rs);
    FlushKeeps(cfg.crypto, base, s.store, env.now);
    var t := Flushed(cfg.crypto, s.store, env.now);
    assert base + BatchEvents(t.batches) + [] == base + BatchEvents(t.batches);
  }

  // ---------- whole runs: the table transcribes the calls ----------

  /** One call, what it meant to answer, and whether its row was stored. */
  datatype Act = Act(call: Call, intent: Reply, written: bool)

  function Acts(cfg: ServiceConfig, s: Svc, rs: seq<Request>): seq<Act> {
    if |rs| == 0 then []
    else
      var p, r := rs[..|rs| - 1], rs[|rs| - 1];
      var before := After(cfg, s, p);
      Acts(cfg, s, p) + [Act(r.call, PlanOf(cfg, before, r).reply, Written(cfg, before, r))]
  }

  /** The table, read next to the calls: `base`, then one row for each call that stored one, in order, under its type and actor. */
  ghost predicate Transcribes(base: seq<Event>, acts: seq<Act>, rows: seq<Event>) {
    if |acts| == 0 then rows == base
    else
      var n := |acts| - 1;
      if acts[n].written then
        && |rows| > 0
        && rows[|rows| - 1].eventType == EventTypeOf(acts[n].call, acts[n].intent)
        && rows[|rows| - 1].actor == ActorOf(acts[n].call)
        && Transcribes(base, acts[..n], rows[..|rows| - 1])
      else Transcribes(base, acts[..n], rows)
  }

  lemma TranscribesSnoc(base: seq<Event>, acts: seq<Act>, rows: seq<Event>, a: Act, tail: seq<Event>)
    requires Transcribes(base, acts, rows) && |tail| == if a.written then 1 else 0
    requires a.written ==> tail[0].eventType == EventTypeOf(a.call, a.intent) && tail[0].actor == ActorOf(a.call)
    ensures Transcribes(base, acts + [a], rows + tail)
  {
    assert (acts + [a])[..|acts|] == acts;
    assert (rows + tail)[..|rows|] == rows;
    if !a.written {
      assert rows + tail == rows;
    }
  }

  /**
   Over any run, whatever fails, the table transcribes the calls: each one whose
   insert was stored, acknowledged or not, has exactly one row at its turn.
   */
  lemma {:induction false} TableTranscribesCalls(cfg: ServiceConfig, base: seq<Event>, now: int, rs: seq<Request>)
    ensures Transcribes(base, Acts(cfg, Boot(base, now), rs), After(cfg, Boot(base, now), rs).store.rows)
  {
    var s0 := Boot(base, now);
    if |rs| > 0 {
      var p, r := rs[..|rs| - 1], rs[|rs| - 1];
      TableTranscribesCalls(cfg, base, now, p);
      HandleTranscribes(cfg, base, Acts(cfg, s0, p), After(cfg, s0, p), r);
    }
  }

  lemma HandleTranscribes(cfg: ServiceConfig, base: seq<Event>, acts: seq<Act>, s: Svc, r: Request)
    requires Transcribes(base, acts, s.store.rows)
    ensures Transcribes(base, acts + [Act(r.call, PlanOf(cfg, s, r).reply, Written(cfg, s, r))], Handle(cfg, s, r).0.store.rows)
  {
    HandleAppends(cfg, s, r);
    TranscribesSnoc(base, acts, s.store.rows, Act(r.call, PlanOf(cfg, s, r).reply, Written(cfg, s, r)),
                    if Written(cfg, s, r) then [RowOf(cfg, s, r)] else []);
  }

  // ---------- whole runs: the log and the level ----------

  function Field(e: Event, name: string): Json {
    if e.payload.Obj? && name in e.payload.fields then e.payload.fields[name] else Null
  }

  function TextOf(j: Json): string {
    if j.Str? then j.s else ""
  }

  function StrsOf(items: seq<Json>): seq<string> {
    if |items| == 0 then [] else StrsOf(items[..|items| - 1]) + [TextOf(items[|items| - 1])]
  }

  function ApproversOf(e: Event): seq<string> {
    var j := Field(e, "approvers");
    if j.Arr? then StrsOf(j.items) else []
  }

  lemma {:induction false} StrsRoundTrip(items: seq<string>)
    ensures StrsOf(Strs(items)) == items
  {
    if |items| > 0 {
      StrsRoundTrip(items[..|items| - 1]);
      assert Strs(items)[..|Strs(items)| - 1] == Strs(items[..|items| - 1]);
    }
  }

  /** The level one reads off the log since position `from`: the result of the last change in it, OFF before any. */
  function LoggedLevel(rows: seq<Event>, from: nat): string {
    if |rows| <= from then LevelName(Off)
    else if rows[|rows| - 1].eventType == CHANGED then TextOf(Field(rows[|rows| - 1], "result_level"))
    else LoggedLevel(rows[..|rows| - 1], from)
  }

  lemma LoggedSnoc(rows: seq<Event>, from: nat, e: Event)
    requires from <= |rows|
    ensures LoggedLevel(rows + [e], from)
         == if e.eventType == CHANGED then TextOf(Field(e, "result_level")) else LoggedLevel(rows, from)
  {
    assert (rows + [e])[..|rows|] == rows;
  }

  lemma ChangePayloadReads(action: string, reason: string, level: KillLevel, approvers: seq<string>, e: Event)
    requires e.payload == ChangePayload(action, reason, level, approvers)
    ensures Field(e, "action") == Str(action) && Field(e, "reason") == Str(reason)
    ensures Field(e, "result_level") == Str(LevelName(level))
    ensures ApproversOf(e) == approvers
  {
    StrsRoundTrip(approvers);
  }

  lemma NamesDiffer(l: KillLevel, m: KillLevel)
    requires l != m
    ensures LevelName(l) != LevelName(m)
  {
    assert |LevelName(Off)| == 3 && |LevelName(Soft)| == 4 == |LevelName(Hard)|;
    assert LevelName(Soft)[0] == 's' && LevelName(Hard)[0] == 'h';
  }

  /** The other endpoints do not use the event types of these two. */
  ghost predicate Separate(rs: seq<Request>) {
    forall k :: 0 <= k < |rs| && rs[k].call.Record? ==> rs[k].call.eventType !in RESERVED
  }

  predicate Apart(r: Request) {
    r.call.Record? ==> r.call.eventType !in RESERVED
  }

  /** The level the last accepted change asked for, OFF before any; this needs nothing but the calls. */
  function AskedLevel(cfg: ServiceConfig, rs: seq<Request>): KillLevel {
    if |rs| == 0 then Off
    else if AcceptedChange(cfg, rs[|rs| - 1].call) then LevelOf(rs[|rs| - 1].call.action).value
    else AskedLevel(cfg, rs[..|rs| - 1])
  }

  /** The same, counting only the changes whose row was stored. */
  function WrittenLevel(cfg: ServiceConfig, s: Svc, rs: seq<Request>): KillLevel {
    if |rs| == 0 then Off
    else
      var p, r := rs[..|rs| - 1], rs[|rs| - 1];
      if AcceptedChange(cfg, r.call) && Written(cfg, After(cfg, s, p), r) then LevelOf(r.call.action).value
      else WrittenLevel(cfg, s, p)
  }

  lemma HandleMovesLevel(cfg: ServiceConfig, s: Svc, r: Request)
    ensures Handle(cfg, s, r).0.level == if AcceptedChange(cfg, r.call) then LevelOf(r.call.action).value else s.level
  {
    CommitRows(cfg, PlanOf(cfg, s, r), r.env);
  }

  /** Over any run the switch stands where the last accepted change put it. */
  lemma {:induction false} LevelIsAsked(cfg: ServiceConfig, base: seq<Event>, now: int, rs: seq<Request>)
    ensures After(cfg, Boot(base, now), rs).level == AskedLevel(cfg, rs)
  {
    if |rs| > 0 {
      LevelIsAsked(cfg, base, now, rs[..|rs| - 1]);
      HandleMovesLevel(cfg, After(cfg, Boot(base, now), rs[..|rs| - 1]), rs[|rs| - 1]);
    }
  }

  /** What the row of a call says of the level: a change names its result, nothing else is taken for a change. */
  lemma RowNamesLevel(cfg: ServiceConfig, s: Svc, r: Request)
    requires Written(cfg, s, r) && Apart(r)
    ensures var e := RowOf(cfg, s, r);
            && (e.eventType == CHANGED <==> AcceptedChange(cfg, r.call))
            && (AcceptedChange(cfg, r.call) ==>
                  && TextOf(Field(e, "result_level")) == LevelName(LevelOf(r.call.action).value)
                  && Field(e, "action") == Str(r.call.action) && ApproversOf(e) == r.call.approvers)
  {
    var e := RowOf(cfg, s, r);
    if AcceptedChange(cfg, r.call) {
      ChangePayloadReads(r.call.action, r.call.reason, LevelOf(r.call.action).value, r.call.approvers, e);
    } else {
      TypesDiffer();
    }
  }

  lemma TypesDiffer()
    ensures SERVED != CHANGED && REPLAY != CHANGED && BLOCKED != CHANGED && REJECTED != CHANGED
  {
    assert SERVED[0] == 'p' && REPLAY[0] == 'p' && BLOCKED[0] == 'p' && REJECTED[0] == 'p' && CHANGED[0] == 'k';
  }

  lemma HandleLogs(cfg: ServiceConfig, from: nat, s: Svc, r: Request)
    requires from <= |s.store.rows| && Apart(r)
    ensures LoggedLevel(Handle(cfg, s, r).0.store.rows, from)
         == if AcceptedChange(cfg, r.call) && Written(cfg, s, r) then LevelName(LevelOf(r.call.action).value)
            else LoggedLevel(s.store.rows, from)
  {
    HandleAppends(cfg, s, r);
    if Written(cfg, s, r) {
      RowNamesLevel(cfg, s, r);
      LoggedSnoc(s.store.rows, from, RowOf(cfg, s, r));
    } else {
      assert s.store.rows + [] == s.store.rows;
    }
  }

  lemma {:induction false} TableExtends(cfg: ServiceConfig, base: seq<Event>, now: int, rs: seq<Request>)
    ensures base <= After(cfg, Boot(base, now), rs).store.rows
  {
    if |rs| > 0 {
      TableExtends(cfg, base, now, rs[..|rs| - 1]);
      HandleAppends(cfg, After(cfg, Boot(base, now), rs[..|rs| - 1]), rs[|rs| - 1]);
    }
  }

  /** Over any run the log says what the last written change asked for. */
  lemma {:induction false} LogIsWritten(cfg: ServiceConfig, base: seq<Event>, now: int, rs: seq<Request>)
    requires Separate(rs)
    ensures LoggedLevel(After(cfg, Boot(base, now), rs).store.rows, |base|) == LevelName(WrittenLevel(cfg, Boot(base, now), rs))
  {
    if |rs| > 0 {
      var p := rs[..|rs| - 1];
      LogIsWritten(cfg, base, now, p);
      TableExtends(cfg, base, now, p);
      HandleLogs(cfg, |base|, After(cfg, Boot(base, now), p), rs[|rs| - 1]);
    }
  }

  /**
   Over any run the level of the switch is the replay of the log exactly when the
   last accepted change and the last written one ask for the same level.
   */
  lemma LevelIsReplayOfLogIff(cfg: ServiceConfig, base: seq<Event>, now: int, rs: seq<Request>)
    requires Separate(rs)
    ensures var s := After(cfg, Boot(base, now), rs);
            LevelName(s.level) == LoggedLevel(s.store.rows, |base|) <==> AskedLevel(cfg, rs) == WrittenLevel(cfg, Boot(base, now), rs)
  {
    LevelIsAsked(cfg, base, now, rs);
    LogIsWritten(cfg, base, now, rs);
    if AskedLevel(cfg, rs) != WrittenLevel(cfg, Boot(base, now), rs) {
      NamesDiffer(AskedLevel(cfg, rs), WrittenLevel(cfg, Boot(base, now), rs));
    }
  }

  /**
   One accepted change, from a state in step with its log, keeps them in step exactly
   when its row is stored or it asked for the level the switch was at already: the
   switch is moved before the row is written and not moved back when the write raises.
   */
  lemma ChangeInStepIff(cfg: ServiceConfig, from: nat, s: Svc, r: Request)
    requires AcceptedChange(cfg, r.call) && from <= |s.store.rows|
    requires LevelName(s.level) == LoggedLevel(s.store.rows, from)
    ensures var t := Handle(cfg, s, r).0;
            LevelName(t.level) == LoggedLevel(t.store.rows, from)
            <==> Written(cfg, s, r) || LevelOf(r.call.action).value == s.level
  {
    HandleMovesLevel(cfg, s, r);
    HandleLogs(cfg, from, s, r);
    if LevelOf(r.call.action).value != s.level {
      NamesDiffer(LevelOf(r.call.action).value, s.level);
    }
  }

  /** Over any run: what each prediction is answered is what the level asked for at its turn allows. */
  lemma AnswersObeyLevel(cfg: ServiceConfig, base: seq<Event>, now: int, rs: seq<Request>, r: Request)
    ensures var reply := Handle(cfg, After(cfg, Boot(base, now), rs), r).1;
            && (reply.Served? ==> AskedLevel(cfg, rs) != Hard)
            && (reply.Replayed? ==> AskedLevel(cfg, rs) == Soft)
            && (reply.Blocked? ==> AskedLevel(cfg, rs) == Hard)
  {
    var s := After(cfg, Boot(base, now), rs);
    LevelIsAsked(cfg, base, now, rs);
    HandleAppends(cfg, s, r);
    if r.call.Predict? {
      PredictObeysSwitch(cfg, s, r.call, r.env);
    }
  }

  /** The row a call stores, acknowledged or not, is one the level asked for at its turn allows. */
  lemma StoredRowsObeyLevel(cfg: ServiceConfig, base: seq<Event>, now: int, rs: seq<Request>, r: Request)
    requires Apart(r) && Written(cfg, After(cfg, Boot(base, now), rs), r)
    ensures Allowed(LevelName(AskedLevel(cfg, rs)), RowOf(cfg, After(cfg, Boot(base, now), rs), r))
  {
    var s := After(cfg, Boot(base, now), rs);
    LevelIsAsked(cfg, base, now, rs);
    RowAllowedIff(cfg, s, r, s.level);
    if r.call.Predict? {
      PredictObeysSwitch(cfg, s, r.call, r.env);
    }
  }

  /** Every `hard_off` in this part of the log carries two different approvers. */
  ghost predicate HardOffsApproved(isSpace: char -> bool, rows: seq<Event>, from: nat) {
    forall i :: from <= i < |rows| && rows[i].eventType == CHANGED && Field(rows[i], "action") == Str("hard_off")
                ==> TwoPeople(isSpace, ApproversOf(rows[i]))
  }

  /** Over any run, whatever fails, every logged `hard_off` carries two different approvers. */
  lemma {:induction false} LoggedHardOffsApproved(cfg: ServiceConfig, base: seq<Event>, now: int, rs: seq<Request>)
    requires Separate(rs)
    ensures HardOffsApproved(cfg.isSpace, After(cfg, Boot(base, now), rs).store.rows, |base|)
  {
    if |rs| > 0 {
      var p, r := rs[..|rs| - 1], rs[|rs| - 1];
      var s := After(cfg, Boot(base, now), p);
      LoggedHardOffsApproved(cfg, base, now, p);
      HandleAppends(cfg, s, r);
      if Written(cfg, s, r) {
        RowNamesLevel(cfg, s, r);
        if AcceptedChange(cfg, r.call) {
          TwoPersonRule(cfg.isSpace, r.call.approvers);
        }
      }
    }
  }

  /** Some call of the run was allowed to make this change, and this is its record. */
  ghost predicate ChangedBy(cfg: ServiceConfig, rs: seq<Request>, e: Event) {
    exists k :: 0 <= k < |rs| && RecordsChange(cfg, rs[k].call, e)
  }

  ghost predicate RecordsChange(cfg: ServiceConfig, call: Call, e: Event) {
    && call.SetKillSwitch? && MayChange(cfg, call) && e.actor == call.actor
    && Field(e, "action") == Str(call.action) && Field(e, "reason") == Str(call.reason)
    && ApproversOf(e) == call.approvers
    && Field(e, "result_level")
       == Str(if call.action == "soft_on" then "soft" else if call.action == "hard_on" then "hard" else "off")
  }

  ghost predicate ChangesAccounted(cfg: ServiceConfig, rs: seq<Request>, rows: seq<Event>, from: nat) {
    forall i :: from <= i < |rows| && rows[i].eventType == CHANGED ==> ChangedBy(cfg, rs, rows[i])
  }

  lemma ChangeIsRecorded(cfg: ServiceConfig, s: Svc, r: Request)
    requires AcceptedChange(cfg, r.call) && Written(cfg, s, r)
    ensures RecordsChange(cfg, r.call, RowOf(cfg, s, r))
  {
    AcceptedChangeIff(cfg, r.call);
    ActionsDiffer();
    var level := LevelOf(r.call.action).value;
    ChangePayloadReads(r.call.action, r.call.reason, level, r.call.approvers, RowOf(cfg, s, r));
  }

  /** Over any run, whatever fails: every row under CHANGED records a change that one of the calls was allowed to make. */
  lemma {:induction false} LoggedChangesAllowed(cfg: ServiceConfig, base: seq<Event>, now: int, rs: seq<Request>)
    requires Separate(rs)
    ensures ChangesAccounted(cfg, rs, After(cfg, Boot(base, now), rs).store.rows, |base|)
  {
    if |rs| > 0 {
      var p, r := rs[..|rs| - 1], rs[|rs| - 1];
      var s := After(cfg, Boot(base, now), p);
      LoggedChangesAllowed(cfg, base, now, p);
      HandleAppends(cfg, s, r);
      AccountedGrows(cfg, p, r, s.store.rows, |base|);
      if Written(cfg, s, r) {
        RowNamesLevel(cfg, s, r);
        AccountedSnoc(cfg, rs, s.store.rows, |base|, RowOf(cfg, s, r));
        if AcceptedChange(cfg, r.call) {
          ChangeIsRecorded(cfg, s, r);
          assert RecordsChange(cfg, rs[|p|].call, RowOf(cfg, s, r));
        }
      }
    }
  }

  lemma AccountedGrows(cfg: ServiceConfig, rs: seq<Request>, r: Request, rows: seq<Event>, from: nat)
    requires ChangesAccounted(cfg, rs, rows, from)
    ensures ChangesAccounted(cfg, rs + [r], rows, from)
  {
    forall i | from <= i < |rows| && rows[i].eventType == CHANGED ensures ChangedBy(cfg, rs + [r], rows[i]) {
      var k :| 0 <= k < |rs| && RecordsChange(cfg, rs[k].call, rows[i]);
      assert RecordsChange(cfg, (rs + [r])[k].call, rows[i]);
    }
  }

  lemma AccountedSnoc(cfg: ServiceConfig, rs: seq<Request>, rows: seq<Event>, from: nat, e: Event)
    requires ChangesAccounted(cfg, rs, rows, from)
    ensures (e.eventType == CHANGED ==> ChangedBy(cfg, rs, e)) ==> ChangesAccounted(cfg, rs, rows + [e], from)
  {
  }

  /** What may be logged while the log says `level`. */
  ghost predicate Allowed(level: string, e: Event) {
    && (e.eventType == SERVED ==> level != LevelName(Hard))
    && (e.eventType == REPLAY ==> level == LevelName(Soft))
    && (e.eventType == BLOCKED ==> level == LevelName(Hard))
  }

  ghost predicate LogAllowed(rows: seq<Event>, from: nat) {
    |rows| > from ==>
      && LogAllowed(rows[..|rows| - 1], from)
      && Allowed(LoggedLevel(rows[..|rows| - 1], from), rows[|rows| - 1])
  }

  /** The same, read at one position of the log. */
  lemma {:induction false} AllowedAt(rows: seq<Event>, from: nat, i: nat)
    requires LogAllowed(rows, from) && from <= i < |rows|
    ensures Allowed(LoggedLevel(rows[..i], from), rows[i])
  {
    if i < |rows| - 1 {
      AllowedAt(rows[..|rows| - 1], from, i);
      assert rows[..|rows| - 1][..i] == rows[..i];
    }
  }

  /** What a prediction is about to be answered may be logged while the log says `level`. */
  predicate Agrees(reply: Reply, level: KillLevel) {
    (reply.Served? ==> level != Hard) && (reply.Replayed? ==> level == Soft) && (reply.Blocked? ==> level == Hard)
  }

  /** The level asked for and the level written are alike as far as a prediction can tell, given whether there is one to repeat. */
  predicate LevelsAlike(asked: KillLevel, written: KillLevel, hasMemory: bool) {
    (asked == Hard <==> written == Hard) && (asked == Soft && hasMemory ==> written == Soft)
  }

  lemma AgreesIff(cfg: ServiceConfig, s: Svc, r: Request, written: KillLevel)
    requires r.call.Predict?
    ensures Agrees(PlanOf(cfg, s, r).reply, written)
            <==> (FeatureStatus(cfg, r.call.features, r.call.age) == "valid" ==> LevelsAlike(s.level, written, s.lastGood.Some?))
  {
  }

  /**
   At every prediction that passed the feature contract and was stored, the last
   accepted change and the last written one had asked for levels that are alike.
   */
  ghost predicate LevelsAlikeThroughout(cfg: ServiceConfig, s: Svc, rs: seq<Request>) {
    |rs| > 0 ==>
      var p, r := rs[..|rs| - 1], rs[|rs| - 1];
      && LevelsAlikeThroughout(cfg, s, p)
      && (r.call.Predict? && FeatureStatus(cfg, r.call.features, r.call.age) == "valid" && Written(cfg, After(cfg, s, p), r) ==>
            LevelsAlike(AskedLevel(cfg, p), WrittenLevel(cfg, s, p), LastComputed(cfg, s, p).Some?))
  }

  lemma PredictionTypes(call: Call, reply: Reply, level: KillLevel, e: Event)
    requires call.Predict? && e.eventType == EventTypeOf(call, reply)
    requires reply.Served? || reply.Replayed? || reply.Blocked? || reply.Rejected?
    ensures Allowed(LevelName(level), e) <==> Agrees(reply, level)
  {
    assert SERVED[11] == 's' && REPLAY[11] == 's' && BLOCKED[11] == 'b' && REJECTED[11] == 'r';
    assert SERVED[12] == 'e' && REPLAY[12] == 'o';
    if level != Hard {
      NamesDiffer(level, Hard);
    }
    if level != Soft {
      NamesDiffer(level, Soft);
    }
  }

  lemma OtherTypes(cfg: ServiceConfig, s: Svc, r: Request, level: string)
    requires !r.call.Predict? && Apart(r) && Written(cfg, s, r)
    ensures Allowed(level, RowOf(cfg, s, r))
  {
    TypesDiffer();
  }

  lemma RowAllowedIff(cfg: ServiceConfig, s: Svc, r: Request, level: KillLevel)
    requires Apart(r) && Written(cfg, s, r)
    ensures Allowed(LevelName(level), RowOf(cfg, s, r)) <==> (r.call.Predict? ==> Agrees(PlanOf(cfg, s, r).reply, level))
  {
    if r.call.Predict? {
      PredictObeysSwitch(cfg, s, r.call, r.env);
      PredictionTypes(r.call, PlanOf(cfg, s, r).reply, level, RowOf(cfg, s, r));
    } else {
      OtherTypes(cfg, s, r, LevelName(level));
    }
  }

  /**
   Over any run the log, read by itself, shows nothing its own level forbade exactly
   when at every stored prediction that passed the feature contract the level asked
   for and the level written were alike: both HARD or neither, and both SOFT where
   the switch is SOFT and there is a prediction to repeat.
   */
  lemma {:induction false} LogAllowedIff(cfg: ServiceConfig, base: seq<Event>, now: int, rs: seq<Request>)
    requires Separate(rs)
    ensures LogAllowed(After(cfg, Boot(base, now), rs).store.rows, |base|) <==> LevelsAlikeThroughout(cfg, Boot(base, now), rs)
  {
    var s0 := Boot(base, now);
    if |rs| > 0 {
      var p, r := rs[..|rs| - 1], rs[|rs| - 1];
      var s := After(cfg, s0, p);
      LogAllowedIff(cfg, base, now, p);
      LogIsWritten(cfg, base, now, p);
      LevelIsAsked(cfg, base, now, p);
      MemoryIsLastComputed(cfg, base, now, p);
      TableExtends(cfg, base, now, p);
      RowInLogIff(cfg, |base|, s, r, WrittenLevel(cfg, s0, p));
    }
  }

  /** One call: what it adds to a log that says `written` is allowed exactly when the levels are alike. */
  lemma RowInLogIff(cfg: ServiceConfig, from: nat, s: Svc, r: Request, written: KillLevel)
    requires Apart(r) && from <= |s.store.rows| && LoggedLevel(s.store.rows, from) == LevelName(written)
    ensures LogAllowed(Handle(cfg, s, r).0.store.rows, from) <==>
            && LogAllowed(s.store.rows, from)
            && (r.call.Predict? && FeatureStatus(cfg, r.call.features, r.call.age) == "valid" && Written(cfg, s, r) ==>
                  LevelsAlike(s.level, written, s.lastGood.Some?))
  {
    HandleAppends(cfg, s, r);
    if Written(cfg, s, r) {
      RowAllowedIff(cfg, s, r, written);
      AllowedSnoc(s.store.rows, from, RowOf(cfg, s, r));
      if r.call.Predict? {
        AgreesIff(cfg, s, r, written);
      }
    } else {
      assert s.store.rows + [] == s.store.rows;
    }
  }

  lemma AllowedSnoc(rows: seq<Event>, from: nat, e: Event)
    requires from <= |rows|
    ensures LogAllowed(rows + [e], from) <==> LogAllowed(rows, from) && Allowed(LoggedLevel(rows, from), e)
  {
    assert (rows + [e])[..|rows|] == rows;
  }

  /**
   What is sent and what is logged tell the same: a served payload carries the score
   of the features sent, the version asked for and the configured constants, and its row
   its score, version, confidence and regime; a replay is the remembered payload but
   for the flag; the other rows give their reasons.
   */
  lemma PayloadsMatchRows(cfg: ServiceConfig, s: Svc, r: Request)
    requires r.call.Predict? && Written(cfg, s, r)
    ensures var reply, e := PlanOf(cfg, s, r).reply, RowOf(cfg, s, r);
            && (reply.Served? ==>
                  var b := reply.prediction.body;
                  && b.score == cfg.score(r.call.features) && b.modelVersion == r.call.modelVersion && b.ml == r.call.ml
                  && b.disclaimerHash == cfg.disclaimerHash && b.restriction == "decision-support-only"
                  && b.jurisdictionPrimary == cfg.jurisdictionPrimary && b.jurisdictionBackup == cfg.jurisdictionBackup
                  && b.featureContractStatus == "valid" && (b.killSwitchActive <==> s.level != Off)
                  && Field(e, "score") == Num(b.score) && Field(e, "model_version") == Str(b.modelVersion)
                  && Field(e, "confidence") == Num(b.ml.confidence) && Field(e, "regime") == Str(b.ml.regime))
            && (reply.Replayed? ==>
                  && s.lastGood.Some? && reply.prediction.signature == s.lastGood.value.signature
                  && reply.prediction.body == s.lastGood.value.body.(killSwitchActive := true)
                  && Field(e, "model_version") == Str(reply.prediction.body.modelVersion))
            && (reply.Rejected? ==> Field(e, "reason") == Str("feature_contract") && Field(e, "status") == Str(reply.status))
            && (reply.Blocked? ==> Field(e, "reason") == Str("hard_kill_switch"))
  {
    assert "score"[0] == 's' && "model_version"[0] == 'm' && "confidence"[0] == 'c' && "regime"[0] == 'r';
    assert "reason"[0] == 'r' && "status"[0] == 's';
  }

  // ---------- whole runs: what a replay repeats ----------

  function LastServed(replies: seq<Reply>): Option<Prediction> {
    if |replies| == 0 then None
    else if replies[|replies| - 1].Served? then Some(replies[|replies| - 1].prediction)
    else LastServed(replies[..|replies| - 1])
  }

  /** The call reaches the model: it neither fails the contract, nor is blocked, nor is answered from memory. */
  predicate Computes(cfg: ServiceConfig, s: Svc, call: Call) {
    && call.Predict? && FeatureStatus(cfg, call.features, call.age) == "valid"
    && s.level != Hard && !(s.level == Soft && s.lastGood.Some?)
  }

  /** The prediction a computing call makes: over the head of the table as it then is. */
  function Computed(cfg: ServiceConfig, s: Svc, call: Call): Prediction
    requires call.Predict?
  {
    Compute(cfg, s, call, Head(s.store.rows))
  }

  function LastComputed(cfg: ServiceConfig, s: Svc, rs: seq<Request>): Option<Prediction> {
    if |rs| == 0 then None
    else
      var before, r := After(cfg, s, rs[..|rs| - 1]), rs[|rs| - 1];
      if Computes(cfg, before, r.call) then Some(Computed(cfg, before, r.call)) else LastComputed(cfg, s, rs[..|rs| - 1])
  }

  /** The last computing call, if any, was told that its row is stored. */
  predicate LastComputeAcked(cfg: ServiceConfig, s: Svc, rs: seq<Request>) {
    |rs| == 0 ||
    var before, r := After(cfg, s, rs[..|rs| - 1]), rs[|rs| - 1];
    if Computes(cfg, before, r.call) then Acked(cfg, before, r) else LastComputeAcked(cfg, s, rs[..|rs| - 1])
  }

  /** The level the last computing call ran at. */
  function LastComputeLevel(cfg: ServiceConfig, s: Svc, rs: seq<Request>): KillLevel {
    if |rs| == 0 then Off
    else
      var p, r := rs[..|rs| - 1], rs[|rs| - 1];
      if Computes(cfg, After(cfg, s, p), r.call) then AskedLevel(cfg, p) else LastComputeLevel(cfg, s, p)
  }

  /** A call computes or leaves memory alone; it serves exactly what it computed and was told is logged; it replays memory. */
  lemma HandleRemembers(cfg: ServiceConfig, s: Svc, r: Request)
    ensures var (t, reply) := Handle(cfg, s, r);
            && (Computes(cfg, s, r.call) ==>
                  && t.lastGood == Some(Computed(cfg, s, r.call))
                  && reply == (if Acked(cfg, s, r) then Served(Computed(cfg, s, r.call)) else AuditFailed))
            && (!Computes(cfg, s, r.call) ==> t.lastGood == s.lastGood && !reply.Served?)
            && (reply.Replayed? ==> s.lastGood.Some? && reply.prediction == AsReplay(s.lastGood.value))
  {
    var plan := PlanOf(cfg, s, r);
    CommitRows(cfg, plan, r.env);
    PlanRemembers(cfg, s, r);
  }

  lemma PlanRemembers(cfg: ServiceConfig, s: Svc, r: Request)
    ensures var plan := PlanOf(cfg, s, r);
            && (Computes(cfg, s, r.call) ==>
                  && plan.entry.Some? && plan.next.lastGood == Some(Computed(cfg, s, r.call))
                  && plan.reply == Served(Computed(cfg, s, r.call)))
            && (!Computes(cfg, s, r.call) ==> plan.next.lastGood == s.lastGood && !plan.reply.Served?)
            && (plan.reply.Replayed? ==> s.lastGood.Some? && plan.reply.prediction == AsReplay(s.lastGood.value))
  {
  }

  /** Over any run, whatever fails, what is remembered is what was last computed. */
  lemma {:induction false} MemoryIsLastComputed(cfg: ServiceConfig, base: seq<Event>, now: int, rs: seq<Request>)
    ensures After(cfg, Boot(base, now), rs).lastGood == LastComputed(cfg, Boot(base, now), rs)
  {
    if |rs| > 0 {
      var p := rs[..|rs| - 1];
      MemoryIsLastComputed(cfg, base, now, p);
      HandleRemembers(cfg, After(cfg, Boot(base, now), p), rs[|rs| - 1]);
    }
  }

  /** The checkpoint is the head of some earlier, shorter table. */
  ghost predicate Outdated(rows: seq<Event>, checkpoint: string) {
    exists m :: 0 <= m < |rows| && checkpoint == Head(rows[..m])
  }

  /** A UNIQUE column never shows the same head twice. */
  lemma OutdatedIsNotHead(rows: seq<Event>, checkpoint: string)
    requires UniqueTable(rows) && Outdated(rows, checkpoint)
    ensures checkpoint != Head(rows)
  {
    var m :| 0 <= m < |rows| && checkpoint == Head(rows[..m]);
    HeadMoves(rows, m);
  }

  lemma OutdatedGrows(rows: seq<Event>, tail: seq<Event>, checkpoint: string)
    requires Outdated(rows, checkpoint) || (checkpoint == Head(rows) && |tail| > 0)
    ensures Outdated(rows + tail, checkpoint)
  {
    if Outdated(rows, checkpoint) {
      var m :| 0 <= m < |rows| && checkpoint == Head(rows[..m]);
      assert (rows + tail)[..m] == rows[..m];
    } else {
      assert (rows + tail)[..|rows|] == rows;
    }
  }

  ghost predicate ServedIsOutdated(rows: seq<Event>, served: Option<Prediction>) {
    served.Some? ==> Outdated(rows, served.value.body.auditChainCheckpoint)
  }

  lemma HandleOutdates(cfg: ServiceConfig, s: Svc, r: Request, served: Option<Prediction>)
    requires ServedIsOutdated(s.store.rows, served)
    ensures var (t, reply) := Handle(cfg, s, r);
            ServedIsOutdated(t.store.rows, if reply.Served? then Some(reply.prediction) else served)
  {
    HandleAppends(cfg, s, r);
    HandleRemembers(cfg, s, r);
    var tail := if Written(cfg, s, r) then [RowOf(cfg, s, r)] else [];
    var reply := Handle(cfg, s, r).1;
    if reply.Served? {
      OutdatedGrows(s.store.rows, tail, reply.prediction.body.auditChainCheckpoint);
    } else if served.Some? {
      OutdatedGrows(s.store.rows, tail, served.value.body.auditChainCheckpoint);
    }
  }

  lemma RepliesSnoc(cfg: ServiceConfig, s: Svc, rs: seq<Request>)
    requires |rs| > 0
    ensures var p := rs[..|rs| - 1];
            var reply := Handle(cfg, After(cfg, s, p), rs[|rs| - 1]).1;
            LastServed(Replies(cfg, s, rs))
            == if reply.Served? then Some(reply.prediction) else LastServed(Replies(cfg, s, p))
  {
    var p := rs[..|rs| - 1];
    assert Replies(cfg, s, rs)[..|p|] == Replies(cfg, s, p);
  }

  lemma {:induction false} LastServedIsOutdated(cfg: ServiceConfig, base: seq<Event>, now: int, rs: seq<Request>)
    ensures ServedIsOutdated(After(cfg, Boot(base, now), rs).store.rows, LastServed(Replies(cfg, Boot(base, now), rs)))
  {
    var s0 := Boot(base, now);
    if |rs| > 0 {
      var p := rs[..|rs| - 1];
      LastServedIsOutdated(cfg, base, now, p);
      HandleOutdates(cfg, After(cfg, s0, p), rs[|rs| - 1], LastServed(Replies(cfg, s0, p)));
      RepliesSnoc(cfg, s0, rs);
    }
  }

  lemma {:induction false} TableStaysUnique(cfg: ServiceConfig, base: seq<Event>, now: int, rs: seq<Request>)
    requires cfg.crypto.HexDigests() && UniqueTable(base)
    ensures UniqueTable(After(cfg, Boot(base, now), rs).store.rows)
  {
    ServiceRunsStore(cfg, base, now, rs);
    RunKeepsUnique(cfg.crypto, cfg.flushInterval, Open(base, now), StoreOps(cfg, Boot(base, now), rs));
  }

  /** The newest computation differs from anything served before it: its checkpoint is new. */
  lemma ComputedIsNew(cfg: ServiceConfig, base: seq<Event>, now: int, rs: seq<Request>, call: Call)
    requires cfg.crypto.HexDigests() && UniqueTable(base) && call.Predict?
    ensures var served := LastServed(Replies(cfg, Boot(base, now), rs));
            served.Some? ==>
              served.value.body.auditChainCheckpoint
              != Computed(cfg, After(cfg, Boot(base, now), rs), call).body.auditChainCheckpoint
  {
    var served := LastServed(Replies(cfg, Boot(base, now), rs));
    LastServedIsOutdated(cfg, base, now, rs);
    TableStaysUnique(cfg, base, now, rs);
    if served.Some? {
      OutdatedIsNotHead(After(cfg, Boot(base, now), rs).store.rows, served.value.body.auditChainCheckpoint);
    }
  }

  /** What is remembered and what was last served, compared by the checkpoint alone. */
  ghost predicate SameCheckpoint(p: Option<Prediction>, q: Option<Prediction>) {
    p.Some? == q.Some? && (p.Some? ==> p.value.body.auditChainCheckpoint == q.value.body.auditChainCheckpoint)
  }

  /**
   A prediction is remembered before its event is written. Over any run, memory is
   the last served payload exactly when the last computing call was acknowledged;
   otherwise not even the checkpoints agree.
   */
  lemma {:induction false} MemoryIsLastServedIff(cfg: ServiceConfig, base: seq<Event>, now: int, rs: seq<Request>)
    requires cfg.crypto.HexDigests() && UniqueTable(base)
    ensures var memory, served := After(cfg, Boot(base, now), rs).lastGood, LastServed(Replies(cfg, Boot(base, now), rs));
            && (LastComputeAcked(cfg, Boot(base, now), rs) ==> memory == served)
            && (!LastComputeAcked(cfg, Boot(base, now), rs) ==> !SameCheckpoint(memory, served))
  {
    var s0 := Boot(base, now);
    if |rs| > 0 {
      var p, r := rs[..|rs| - 1], rs[|rs| - 1];
      MemoryIsLastServedIff(cfg, base, now, p);
      RepliesSnoc(cfg, s0, rs);
      HandleRemembers(cfg, After(cfg, s0, p), r);
      if Computes(cfg, After(cfg, s0, p), r.call) {
        ComputedIsNew(cfg, base, now, p, r.call);
      }
    }
  }

  /** A SOFT replay is the most recently served payload with the flag raised exactly when the last computing call was acknowledged. */
  lemma ReplayIsLastServedIff(cfg: ServiceConfig, base: seq<Event>, now: int, rs: seq<Request>, r: Request)
    requires cfg.crypto.HexDigests() && UniqueTable(base)
    ensures var reply := Handle(cfg, After(cfg, Boot(base, now), rs), r).1;
            var served := LastServed(Replies(cfg, Boot(base, now), rs));
            reply.Replayed? ==>
              (served.Some? && reply.prediction == AsReplay(served.value) <==> LastComputeAcked(cfg, Boot(base, now), rs))
  {
    MemoryIsLastServedIff(cfg, base, now, rs);
    HandleRemembers(cfg, After(cfg, Boot(base, now), rs), r);
  }

  // ---------- signatures ----------

  ghost predicate Signed(cfg: ServiceConfig, p: Prediction) {
    p.signature == cfg.signBody(p.body)
  }

  /** The key tells these two payloads apart, if they differ. */
  ghost predicate Distinguishes(cfg: ServiceConfig, x: Body, y: Body) {
    x != y ==> cfg.signBody(x) != cfg.signBody(y)
  }

  /**
   A replayed payload is the remembered one with the flag raised and the signature
   kept, so the signature covers what is sent exactly when the flag was up already.
   */
  lemma ReplaySignedIff(cfg: ServiceConfig, p: Prediction)
    requires Signed(cfg, p) && Distinguishes(cfg, p.body, AsReplay(p).body)
    ensures Signed(cfg, AsReplay(p)) <==> p.body.killSwitchActive
  {
    assert AsReplay(p).body == p.body <==> p.body.killSwitchActive;
  }

  /** Over any run the remembered prediction is signed, and carries the flag exactly when it was computed at SOFT. */
  lemma {:induction false} MemoryIsSigned(cfg: ServiceConfig, base: seq<Event>, now: int, rs: seq<Request>)
    ensures var memory := After(cfg, Boot(base, now), rs).lastGood;
            memory.Some? ==>
              Signed(cfg, memory.value) && (memory.value.body.killSwitchActive <==> LastComputeLevel(cfg, Boot(base, now), rs) == Soft)
  {
    if |rs| > 0 {
      var p := rs[..|rs| - 1];
      MemoryIsSigned(cfg, base, now, p);
      LevelIsAsked(cfg, base, now, p);
      HandleRemembers(cfg, After(cfg, Boot(base, now), p), rs[|rs| - 1]);
    }
  }

  /**
   Over any run every served payload is signed as sent and tells whether the switch
   was on; a replayed one is signed as sent exactly when the prediction it repeats
   was itself computed at level SOFT.
   */
  lemma RepliesSignedIff(cfg: ServiceConfig, base: seq<Event>, now: int, rs: seq<Request>, r: Request)
    requires var memory := After(cfg, Boot(base, now), rs).lastGood;
             memory.Some? ==> Distinguishes(cfg, memory.value.body, AsReplay(memory.value).body)
    ensures var reply := Handle(cfg, After(cfg, Boot(base, now), rs), r).1;
            && (reply.Served? ==> Signed(cfg, reply.prediction) && (reply.prediction.body.killSwitchActive <==> AskedLevel(cfg, rs) == Soft))
            && (reply.Replayed? ==> (Signed(cfg, reply.prediction) <==> LastComputeLevel(cfg, Boot(base, now), rs) == Soft))
  {
    var s := After(cfg, Boot(base, now), rs);
    MemoryIsSigned(cfg, base, now, rs);
    LevelIsAsked(cfg, base, now, rs);
    HandleRemembers(cfg, s, r);
    if s.lastGood.Some? {
      ReplaySignedIff(cfg, s.lastGood.value);
    }
  }
}
