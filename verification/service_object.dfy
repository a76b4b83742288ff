/** `PlatformService` as an object over its audit store and kill switch, each method a transition of Service. */
module ServiceObject {
  import opened Common
  import opened AuditChain
  import opened AuditWriter
  import opened AuditStorage
  import opened KillSwitches
  import opened Service

  class PlatformService {
    const cfg: ServiceConfig
    const audit: AuditStore
    const killSwitch: KillSwitch
    var lastKnownGood: Option<Prediction>

    ghost predicate Valid()
      reads audit
    {
      audit.crypto == cfg.crypto && audit.flushInterval == cfg.flushInterval
    }

    function State(): Svc
      reads this, audit, killSwitch
    {
      Svc(killSwitch.level, killSwitch.reason, lastKnownGood, audit.State())
    }

    constructor (cfg: ServiceConfig, rows: seq<Event>, now: int)
      ensures Valid() && fresh(audit) && fresh(killSwitch)
      ensures this.cfg == cfg && State() == Boot(rows, now)
    {
      this.cfg := cfg;
      audit := new AuditStore(cfg.crypto, cfg.flushInterval, rows, now);
      killSwitch := new KillSwitch();
      lastKnownGood := None;
    }

    method FeatureContractStatus(features: map<string, real>, age: int) returns (status: string)
      ensures status == FeatureStatus(cfg, features, age)
    {
      if age > cfg.staleAfter {
        return "stale";
      }
      if features.Keys == cfg.expectedFeatures {
        return "valid";
      }
      return "mismatch";
    }

    /** `predict`. */
    method Predict(call: Call, env: Env) returns (reply: Reply)
      requires Valid() && call.Predict?
      modifies this, audit
      ensures Valid()
      ensures (State(), reply) == Commit(cfg, PredictPlan(cfg, old(State()), call, env), env)
    {
      var status := FeatureContractStatus(call.features, call.age);
      if status != "valid" {
        var r := audit.Append(EntryOf(env, REJECTED, call.actor,
                                      Obj(map["reason" := Str("feature_contract"), "status" := Str(status)])),
                              env.outcome, env.now);
        return if r.Some? then Rejected(status) else AuditFailed;
      }
      var level := killSwitch.level;
      if level == Hard {
        var r := audit.Append(EntryOf(env, BLOCKED, call.actor, Obj(map["reason" := Str("hard_kill_switch")])),
                              env.outcome, env.now);
        return if r.Some? then Blocked else AuditFailed;
      }
      if level == Soft && lastKnownGood.Some? {
        var replay := lastKnownGood.value.(body := lastKnownGood.value.body.(killSwitchActive := true));
        var r := audit.Append(EntryOf(env, REPLAY, call.actor, Obj(map["model_version" := Str(replay.body.modelVersion)])),
                              env.outcome, env.now);
        return if r.Some? then Replayed(replay) else AuditFailed;
      }
      var digest := audit.CreateCheckpoint(env.nowIso);
      var body := Body(cfg.score(call.features), call.modelVersion, cfg.disclaimerHash, "decision-support-only",
                       killSwitch.Active(), digest.checkpointHash, cfg.jurisdictionPrimary, cfg.jurisdictionBackup,
                       status, call.ml);
      var prediction := Prediction(body, cfg.signBody(body));
      lastKnownGood := Some(prediction);
      var r := audit.Append(EntryOf(env, SERVED, call.actor,
                                    Obj(map["model_version" := Str(call.modelVersion), "score" := Num(body.score),
                                            "confidence" := Num(body.ml.confidence), "regime" := Str(body.ml.regime)])),
                            env.outcome, env.now);
      return if r.Some? then Served(prediction) else AuditFailed;
    }

    /** `set_kill_switch`. */
    method SetKillSwitch(call: Call, env: Env) returns (reply: Reply)
      requires Valid() && call.SetKillSwitch?
      modifies killSwitch, audit
      ensures Valid()
      ensures (State(), reply) == Commit(cfg, KillPlan(cfg, old(State()), call, env), env)
    {
      if call.role != "ops-admin" {
        return Denied("rbac_denied");
      }
      if |Strip(cfg.isSpace, call.mfaToken)| < 6 {
        return Denied("mfa_required");
      }
      if cfg.signReason(call.reason) != call.reasonSignature {
        return Denied("invalid_reason_signature");
      }
      if call.action == "soft_on" {
        killSwitch.ActivateSoft(call.reason);
      } else if call.action == "soft_off" {
        killSwitch.ClearSoft(call.reason);
      } else if call.action == "hard_on" {
        killSwitch.ActivateHard(call.reason);
      } else if call.action == "hard_off" {
        TwoPersonRule(cfg.isSpace, call.approvers);
        var ok := killSwitch.DeactivateHard(cfg.isSpace, call.reason, call.approvers);
        if !ok {
          return Denied("two_person_approval");
        }
      } else {
        return Denied("unsupported_action");
      }
      var r := audit.Append(EntryOf(env, CHANGED, call.actor,
                                    ChangePayload(call.action, call.reason, killSwitch.level, call.approvers)),
                            env.outcome, env.now);
      return if r.Some? then Changed(killSwitch.level, killSwitch.reason) else AuditFailed;
    }

    /** `ops_audit`: flush, checkpoint, then summarise. */
    method OpsAudit(env: Env) returns (reply: Reply)
      requires Valid()
      modifies audit
      ensures Valid()
      ensures (State(), reply) == Commit(cfg, OpsPlan(cfg, old(State()), env), env)
    {
      audit.FlushObjectStore(env.now);
      var _ := audit.CreateCheckpoint(env.nowIso);
      var v := audit.Verify();
      reply := Report(v.Valid?, if v.Valid? then v.lastHash else GENESIS, |audit.buffer|);
    }
  }
}
