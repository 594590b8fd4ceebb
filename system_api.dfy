/** Host dispatch and the result tally of src_old/deployment/system_api.rs:
    one deployment task per host, and the count of successful deployments.
    The deployment functions it calls live in `crate::deployment::docker`,
    which is not part of this model; this model takes them to be the
    functions of the same names in src/docker_api.rs. */
module SystemApi {
  import opened Wrappers
  import opened Exec
  import opened Config
  import Docker = DockerApi

  /** The Docker check that `deploy_to_host` runs first. */
  function CheckRun(respond: Respond, hist: seq<Invocation>, host: Host): Run<Outcome> {
    if host.address == Localhost then Docker.EnsureLocalRun(respond, hist) else Docker.EnsureRemoteRun(respond, hist, host)
  }

  /** `deploy_to_host`: the Docker check, then, if it succeeded, the local or
      remote deployment. */
  function DeployToHostRun(respond: Respond, hist: seq<Invocation>, host: Host, config: Config): Run<Outcome> {
    var check := CheckRun(respond, hist, host);
    var deploy :=
      if host.address == Localhost then Docker.DeployLocallyRun(respond, hist + check.issued, config)
      else Docker.DeployRemotelyRun(respond, hist + check.issued, host, config);
    Then(check, deploy)
  }

  /** The local path (its first command is `docker --version`, run
      directly) is taken exactly when the address is "localhost"; the check
      comes first, a failed check is the outcome and nothing is deployed, and
      after a successful check the outcome is the deployment's. */
  lemma DeployToHostDispatch(respond: Respond, hist: seq<Invocation>, host: Host, config: Config)
    ensures var r := DeployToHostRun(respond, hist, host, config);
      var check := CheckRun(respond, hist, host);
      && |r.issued| >= 1
      && (r.issued[0] == Docker.VersionProbe <==> host.address == Localhost)
      && r.issued[..|check.issued|] == check.issued
      && (check.result.Failed? ==> r == check)
      && (check.result.Done? && host.address == Localhost ==>
            r.result == Docker.DeployLocallyRun(respond, hist + check.issued, config).result)
      && (check.result.Done? && host.address != Localhost ==>
            r.result == Docker.DeployRemotelyRun(respond, hist + check.issued, host, config).result)
  {
    if host.address == Localhost {
      Docker.EnsureLocalDecides(respond, hist);
    } else {
      Docker.EnsureRemoteDecides(respond, hist, host);
    }
  }

  method DeployToHost(ex: Executor, host: Host, config: Config) returns (o: Outcome)
    modifies ex
    ensures var r := DeployToHostRun(ex.respond, old(ex.log), host, config);
      o == r.result && ex.log == old(ex.log) + r.issued
  {
    ghost var hist0 := ex.log;
    if host.address == Localhost {
      o := Docker.EnsureDockerInstalledLocal(ex);
      if o.Failed? {
        return;
      }
      ghost var h := ex.log;
      o := Docker.DeployLocally(ex, config);
      AppendAssoc(hist0, Docker.EnsureLocalRun(ex.respond, hist0).issued, Docker.DeployLocallyRun(ex.respond, h, config).issued);
    } else {
      o := Docker.EnsureDockerInstalledRemote(ex, host);
      if o.Failed? {
        return;
      }
      ghost var h := ex.log;
      o := Docker.DeployRemotely(ex, host, config);
      AppendAssoc(hist0, Docker.EnsureRemoteRun(ex.respond, hist0, host).issued, Docker.DeployRemotelyRun(ex.respond, h, host, config).issued);
    }
  }

  // ---------------------------------------------------------------------------
  // One task per host

  /** What awaiting one deployment task yields: the host with its outcome, or
      the error of a task that panicked. */
  datatype TaskResult = Joined(host: Host, outcome: Outcome) | Panicked(error: string)

  function HostStep(respond: Respond, config: Config): Step<Host> {
    (h: seq<Invocation>, host: Host) => DeployToHostRun(respond, h, host, config)
  }

  /** The host tasks, each run to completion in spawn order. */
  function HostTaskRuns(respond: Respond, hist: seq<Invocation>, config: Config): seq<Run<Outcome>> {
    RunAll(HostStep(respond, config), hist, config.hosts, false)
  }

  function TaskResults(hosts: seq<Host>, outcomes: seq<Outcome>): seq<TaskResult>
    requires |hosts| == |outcomes|
  {
    seq(|hosts|, k requires 0 <= k < |hosts| => Joined(hosts[k], outcomes[k]))
  }

  /** `deploy_to_all_hosts` yields exactly one result per configured host, in
      host order, each carrying its host and the outcome of deploying to it
      after the hosts before it; a failing host does not keep the later ones
      from being attempted. */
  lemma AllHostsOneResultEach(respond: Respond, hist: seq<Invocation>, config: Config)
    ensures var runs := HostTaskRuns(respond, hist, config);
      && |runs| == |config.hosts|
      && (forall k :: 0 <= k < |runs| ==>
            runs[k] == DeployToHostRun(respond, hist + Issued(runs[..k]), config.hosts[k], config))
  {
    var step := HostStep(respond, config);
    var runs := HostTaskRuns(respond, hist, config);
    RunAllRunsEveryUnit(step, hist, config.hosts);
    forall k | 0 <= k < |runs|
      ensures runs[k] == DeployToHostRun(respond, hist + Issued(runs[..k]), config.hosts[k], config)
    {
      RunAllSeesHistory(step, hist, config.hosts, false, k);
    }
  }

  method DeployToAllHosts(ex: Executor, config: Config) returns (results: seq<TaskResult>)
    modifies ex
    ensures var runs := HostTaskRuns(ex.respond, old(ex.log), config);
      && |runs| == |config.hosts|
      && results == TaskResults(config.hosts, Outcomes(runs))
      && ex.log == old(ex.log) + Issued(runs)
  {
    var hosts := config.hosts;
    ghost var step := HostStep(ex.respond, config);
    ghost var hist0 := ex.log;
    ghost var done: seq<Run<Outcome>> := [];
    var outcomes: seq<Outcome> := [];
    var k := 0;
    while k < |hosts|
      invariant 0 <= k <= |hosts|
      invariant ex.log == hist0 + Issued(done)
      invariant outcomes == Outcomes(done) && |outcomes| == k
      invariant RunAll(step, hist0, hosts, false) == done + RunAll(step, ex.log, hosts[k..], false)
    {
      RunAllNext(step, hist0, hosts, false, done, ex.log, hosts[k..]);
      ghost var r := step(ex.log, hosts[k]);
      var outcome := DeployToHost(ex, hosts[k], config);
      assert hosts[k..][1..] == hosts[k + 1..];
      done := done + [r];
      outcomes := outcomes + [outcome];
      k := k + 1;
    }
    RunAllEnd(step, hist0, hosts, false, done, ex.log, hosts[k..]);
    // join_all: one result per task, in spawn order
    results := TaskResults(hosts, outcomes);
  }

  // ---------------------------------------------------------------------------
  // The tally

  predicate Succeeded(t: TaskResult) { t.Joined? && t.outcome.Done? }

  /** The number of tasks that joined with a successful deployment. */
  function SuccessCount(results: seq<TaskResult>): nat
    decreases |results|
  {
    if results == [] then 0
    else SuccessCount(results[..|results| - 1]) + (if Succeeded(results[|results| - 1]) then 1 else 0)
  }

  /** The number of tasks that panicked or joined with a failed deployment. */
  function FailureCount(results: seq<TaskResult>): nat
    decreases |results|
  {
    if results == [] then 0
    else (if Succeeded(results[0]) then 0 else 1) + FailureCount(results[1..])
  }

  /** Every result is either a success or a failure: the two counts add up
      to the number of results, so the successes never exceed it. */
  lemma {:induction false} CountsPartition(results: seq<TaskResult>)
    ensures SuccessCount(results) + FailureCount(results) == |results|
    decreases |results|
  {
    if results != [] {
      var last := |results| - 1;
      CountsPartition(results[..last]);
      if last > 0 {
        FailureAppend(results[..last], results[last]);
        assert results[..last] + [results[last]] == results;
      }
    }
  }

  lemma {:induction false} FailureAppend(results: seq<TaskResult>, t: TaskResult)
    ensures FailureCount(results + [t]) == FailureCount(results) + (if Succeeded(t) then 0 else 1)
    decreases |results|
  {
    if results != [] {
      FailureAppend(results[1..], t);
      assert (results + [t])[1..] == results[1..] + [t];
    }
  }

  /** `process_deployment_results`: counts the successful deployments;
      failed deployments and panicked tasks count toward the total only. */
  method ProcessDeploymentResults(results: seq<TaskResult>) returns (successful: nat, total: nat)
    ensures total == |results|
    ensures successful == SuccessCount(results)
    ensures successful <= total && total - successful == FailureCount(results)
  {
    successful := 0;
    total := |results|;
    var k := 0;
    while k < |results|
      invariant 0 <= k <= |results|
      invariant successful == SuccessCount(results[..k])
    {
      assert results[..k + 1][..k] == results[..k];
      if results[k].Joined? && results[k].outcome.Done? {
        successful := successful + 1;
      }
      k := k + 1;
    }
    assert results[..k] == results;
    CountsPartition(results);
  }

  /** The figures `print_deployment_summary` prints: successful, failed and
      total, the failed count being `total - successful`, which is never
      negative for a tally made by `process_deployment_results`. */
  function SummaryFigures(successful: nat, total: nat): (figures: (nat, nat, nat))
    requires successful <= total
    ensures figures.0 + figures.1 == figures.2 == total
  {
    (successful, total - successful, total)
  }

  /** For a tally made by `process_deployment_results`, the printed figures
      are the successes, the failures (failed deployments and panicked tasks
      alike) and the number of results. */
  lemma SummaryOfTally(results: seq<TaskResult>)
    ensures SuccessCount(results) <= |results|
    ensures SummaryFigures(SuccessCount(results), |results|)
         == (SuccessCount(results), FailureCount(results), |results|)
  {
    CountsPartition(results);
  }

  /** Tallying the results of `deploy_to_all_hosts` counts one entry per
      host, the successful ones being the hosts whose deployment succeeded. */
  lemma TallyOfAllHosts(hosts: seq<Host>, outcomes: seq<Outcome>)
    requires |hosts| == |outcomes|
    ensures SuccessCount(TaskResults(hosts, outcomes)) == DoneCount(outcomes)
    ensures FailureCount(TaskResults(hosts, outcomes)) == |outcomes| - DoneCount(outcomes)
  {
    TallyMatches(hosts, outcomes);
    CountsPartition(TaskResults(hosts, outcomes));
  }

  /** The number of successful outcomes. */
  function DoneCount(outcomes: seq<Outcome>): (n: nat)
    ensures n <= |outcomes|
    decreases |outcomes|
  {
    if outcomes == [] then 0
    else DoneCount(outcomes[..|outcomes| - 1]) + (if outcomes[|outcomes| - 1].Done? then 1 else 0)
  }

  lemma {:induction false} TallyMatches(hosts: seq<Host>, outcomes: seq<Outcome>)
    requires |hosts| == |outcomes|
    ensures SuccessCount(TaskResults(hosts, outcomes)) == DoneCount(outcomes)
    decreases |hosts|
  {
    if hosts != [] {
      var last := |hosts| - 1;
      TallyMatches(hosts[..last], outcomes[..last]);
      assert TaskResults(hosts, outcomes)[..last] == TaskResults(hosts[..last], outcomes[..last]);
    }
  }
}
