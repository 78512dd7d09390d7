/** The built-in cron jobs and the handlers cron jobs may name. */
module CronBuiltins {
  import opened Common
  import opened Text
  import opened CronJobs

  const ALLOWED_CRON_HANDLERS: set<string> := {"repo.sync_changed", "repo.sync_all", "replay.default_flow"}

  const REPO_SYNC_CHANGED: Job :=
    Job(Val("cron.repo-sync-changed"), Val("仓库增量同步"), Val("repo.sync_changed"), Val("@hourly"), Val("UTC"),
        Val(true), Val(true), Val(false),
        Val("默认每小时执行：仅同步有变更的仓库，并对变更仓强制重建 GitNexus 知识图谱。"), Val(Dict(map[])))

  const DEFAULT_FLOW_REPLAY: Job :=
    Job(Val("cron.default-flow-replay"), Val("默认 Flow 回放评估"), Val("replay.default_flow"), Val("@hourly"),
        Val("UTC"), Val(false), Val(true), Val(false), Val("默认 Flow 回放评估任务（默认关闭）。"),
        Val(Dict(map["suite_name" := "cron-default-flow", "repeat_each" := "1"])))

  const BUILTIN_CRON_JOBS: seq<Job> := [REPO_SYNC_CHANGED, DEFAULT_FLOW_REPLAY]

  ghost predicate GoodBuiltin(b: Job, allowed: set<string>) {
    && Complete(b, allowed) && b.id != Val("None") && b.builtin == Val(true) && b.deletable == Val(false)
    && b.notes.value != ""
  }

  lemma RepoSyncIsComplete()
    ensures GoodBuiltin(REPO_SYNC_CHANGED, ALLOWED_CRON_HANDLERS)
  {
    assert REPO_SYNC_CHANGED.id.value[0] == 'c' && "None"[0] == 'N';
    assert |REPO_SYNC_CHANGED.notes.value| > 0;
    Trimmed("cron.repo-sync-changed");
    Trimmed("仓库增量同步");
    Trimmed("repo.sync_changed");
    Trimmed("@hourly");
    Trimmed("UTC");
    Trimmed(REPO_SYNC_CHANGED.notes.value);
  }

  lemma FlowReplayIsComplete()
    ensures GoodBuiltin(DEFAULT_FLOW_REPLAY, ALLOWED_CRON_HANDLERS)
  {
    assert DEFAULT_FLOW_REPLAY.id.value[0] == 'c' && "None"[0] == 'N';
    assert |DEFAULT_FLOW_REPLAY.notes.value| > 0;
    Trimmed("cron.default-flow-replay");
    Trimmed("默认 Flow 回放评估");
    Trimmed("replay.default_flow");
    Trimmed("@hourly");
    Trimmed("UTC");
    Trimmed(DEFAULT_FLOW_REPLAY.notes.value);
  }

  lemma TwoAreGood(a: Job, b: Job, allowed: set<string>)
    requires GoodBuiltin(a, allowed) && GoodBuiltin(b, allowed) && KeyOf(a) != KeyOf(b)
    ensures GoodBuiltins([a, b], allowed)
  {
  }

  /** The shipped table is one the store's theorems apply to. */
  lemma ShippedTableIsGood()
    ensures GoodBuiltins(BUILTIN_CRON_JOBS, ALLOWED_CRON_HANDLERS)
  {
    RepoSyncIsComplete();
    FlowReplayIsComplete();
    assert |KeyOf(REPO_SYNC_CHANGED)| == 22 && |KeyOf(DEFAULT_FLOW_REPLAY)| == 24;
    TwoAreGood(REPO_SYNC_CHANGED, DEFAULT_FLOW_REPLAY, ALLOWED_CRON_HANDLERS);
  }
}
