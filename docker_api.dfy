/** Docker readiness checks and container deployment (src/docker_api.rs).

    Local steps run `docker`, `curl` and `sh` directly; remote steps go through
    `run_ssh_command`. Every function `...Run` is the specification of the
    method of the same name without the suffix: the outcome and the
    invocations issued, in order, from a given history. */
module DockerApi {
  import opened Wrappers
  import opened Strings
  import opened Decimal
  import opened Exec
  import opened Config
  import opened SystemApiSsh

  /** The text an error message quotes for a failed process: the spawn error,
      or the captured standard error. */
  function Diagnostic(out: CmdOutput): string {
    if out.SpawnError? then out.reason else out.stderr
  }

  // ---------------------------------------------------------------------------
  // Local Docker check and installation

  const VersionProbe: Invocation := Invocation("docker", ["--version"])
  const FetchScript: Invocation := Invocation("curl", ["-fsSL", "https://get.docker.com"])

  function RunScript(script: string): Invocation {
    Invocation("sh", ["-c", script])
  }

  /** `install_docker_local`: download the script, then run what was downloaded. */
  function InstallLocalRun(respond: Respond, hist: seq<Invocation>): Run<Outcome> {
    var fetch := respond(hist, FetchScript);
    if fetch.SpawnError? then
      Run(Failed("Failed to download Docker installation script: " + fetch.reason), [FetchScript])
    else if !fetch.success then
      Run(Failed("Failed to download Docker installation script"), [FetchScript])
    else
      var install := respond(hist + [FetchScript], RunScript(fetch.stdout));
      if install.SpawnError? then
        Run(Failed("Failed to run Docker installation script: " + install.reason), [FetchScript, RunScript(fetch.stdout)])
      else if install.success then
        Run(Done, [FetchScript, RunScript(fetch.stdout)])
      else
        Run(Failed("Docker installation failed locally: " + install.stderr), [FetchScript, RunScript(fetch.stdout)])
  }

  /** The script is run only when it was downloaded, and it is exactly what
      was downloaded; installation succeeds exactly when both processes exit
      successfully. */
  lemma InstallLocalDecides(respond: Respond, hist: seq<Invocation>)
    ensures var r := InstallLocalRun(respond, hist);
      var fetch := respond(hist, FetchScript);
      && (r.issued == [FetchScript] <==> !ExitedOk(fetch))
      && (ExitedOk(fetch) ==> r.issued == [FetchScript, RunScript(fetch.stdout)])
      && (r.result.Done? <==> ExitedOk(fetch) && ExitedOk(respond(hist + [FetchScript], RunScript(fetch.stdout))))
  {
  }

  /** `ensure_docker_installed_local`. */
  function EnsureLocalRun(respond: Respond, hist: seq<Invocation>): Run<Outcome> {
    if ExitedOk(respond(hist, VersionProbe)) then Run(Done, [VersionProbe])
    else
      var install := InstallLocalRun(respond, hist + [VersionProbe]);
      Run(install.result, [VersionProbe] + install.issued)
  }

  /** Installation is attempted exactly when `docker --version` does not exit
      successfully, and then decides the outcome. */
  lemma EnsureLocalDecides(respond: Respond, hist: seq<Invocation>)
    ensures var r := EnsureLocalRun(respond, hist);
      && |r.issued| >= 1 && r.issued[0] == VersionProbe
      && (ExitedOk(respond(hist, VersionProbe)) ==> r == Run(Done, [VersionProbe]))
      && (!ExitedOk(respond(hist, VersionProbe)) ==>
            r.issued[1..] == InstallLocalRun(respond, hist + [VersionProbe]).issued
            && r.result == InstallLocalRun(respond, hist + [VersionProbe]).result)
  {
    var r := EnsureLocalRun(respond, hist);
    if !ExitedOk(respond(hist, VersionProbe)) {
      assert r.issued == [VersionProbe] + InstallLocalRun(respond, hist + [VersionProbe]).issued;
    }
  }

  method InstallDockerLocal(ex: Executor) returns (o: Outcome)
    modifies ex
    ensures var r := InstallLocalRun(ex.respond, old(ex.log));
      o == r.result && ex.log == old(ex.log) + r.issued
  {
    var fetch := ex.Spawn(FetchScript);
    if fetch.SpawnError? {
      return Failed("Failed to download Docker installation script: " + fetch.reason);
    }
    if !fetch.success {
      return Failed("Failed to download Docker installation script");
    }
    var install := ex.Spawn(RunScript(fetch.stdout));
    if install.SpawnError? {
      return Failed("Failed to run Docker installation script: " + install.reason);
    }
    if install.success {
      o := Done;
    } else {
      o := Failed("Docker installation failed locally: " + install.stderr);
    }
  }

  method EnsureDockerInstalledLocal(ex: Executor) returns (o: Outcome)
    modifies ex
    ensures var r := EnsureLocalRun(ex.respond, old(ex.log));
      o == r.result && ex.log == old(ex.log) + r.issued
  {
    var check := ex.Spawn(VersionProbe);
    if check.Exited? && check.success {
      o := Done;
    } else {
      o := InstallDockerLocal(ex);
    }
  }

  // ---------------------------------------------------------------------------
  // Remote Docker check and installation

  /** The two long remote command texts below are the literals as written;
      they are passed through this identity on strings only so that the
      verifier, when it meets shell escaping or `contains` applied to them,
      does not unfold those recursive functions over the literal one
      character at a time. */
  function Spelled(s: string): (t: string)
    ensures |t| == |s| && forall i :: 0 <= i < |s| ==> t[i] == s[i]
  {
    seq(|s|, i requires 0 <= i < |s| => s[i])
  }

  const ProbeCommand: string := Spelled("command -v docker || echo 'Docker not found'")
  const NotFoundMarker: string := "Docker not found"
  const InstallCommand: string := Spelled(
    "\n        curl -fsSL https://get.docker.com -o get-docker.sh && \n        sudo sh get-docker.sh && \n"
    + "        sudo usermod -aG docker $USER && \n        echo 'Docker installed successfully'\n    ")
  const InstalledMarker: string := "Docker installed successfully"

  /** `install_docker_remote`. */
  function InstallRemoteRun(respond: Respond, hist: seq<Invocation>, host: Host): Run<Outcome> {
    var out := SshResult(respond(hist, SshInvocation(host, InstallCommand)));
    var result :=
      if out.Err? then Failed(out.error)
      else if Contains(out.value, InstalledMarker) then Done
      else Failed("Docker installation failed on " + host.address + ": " + out.value);
    Run(result, [SshInvocation(host, InstallCommand)])
  }

  /** The remote installation issues its one command and succeeds exactly
      when that command exits successfully and its output reports success. */
  lemma InstallRemoteDecides(respond: Respond, hist: seq<Invocation>, host: Host)
    ensures var r := InstallRemoteRun(respond, hist, host);
      var reply := respond(hist, SshInvocation(host, InstallCommand));
      && r.issued == [SshInvocation(host, InstallCommand)]
      && (r.result.Done? <==> ExitedOk(reply) && Contains(reply.stdout, InstalledMarker))
  {
  }

  /** `ensure_docker_installed_remote`. */
  function EnsureRemoteRun(respond: Respond, hist: seq<Invocation>, host: Host): Run<Outcome> {
    var probe := SshResult(respond(hist, SshInvocation(host, ProbeCommand)));
    if probe.Err? then Run(Failed(probe.error), [SshInvocation(host, ProbeCommand)])
    else if Contains(probe.value, NotFoundMarker) then
      var install := InstallRemoteRun(respond, hist + [SshInvocation(host, ProbeCommand)], host);
      Run(install.result, [SshInvocation(host, ProbeCommand)] + install.issued)
    else Run(Done, [SshInvocation(host, ProbeCommand)])
  }

  /** A failing probe is an error; the installation runs exactly when the
      probe's output says Docker is missing, and then decides the outcome. */
  lemma EnsureRemoteDecides(respond: Respond, hist: seq<Invocation>, host: Host)
    ensures var r := EnsureRemoteRun(respond, hist, host);
      var probe := respond(hist, SshInvocation(host, ProbeCommand));
      var install := InstallRemoteRun(respond, hist + [SshInvocation(host, ProbeCommand)], host);
      && |r.issued| >= 1 && r.issued[0] == SshInvocation(host, ProbeCommand)
      && (|r.issued| > 1 <==> ExitedOk(probe) && Contains(probe.stdout, NotFoundMarker))
      && (r.result.Done? <==>
            ExitedOk(probe) && (Contains(probe.stdout, NotFoundMarker) ==> install.result.Done?))
  {
    InstallRemoteDecides(respond, hist + [SshInvocation(host, ProbeCommand)], host);
  }

  method InstallDockerRemote(ex: Executor, host: Host) returns (o: Outcome)
    modifies ex
    ensures var r := InstallRemoteRun(ex.respond, old(ex.log), host);
      o == r.result && ex.log == old(ex.log) + r.issued
  {
    var output := RunSshCommand(ex, InstallCommand, host);
    if output.Err? {
      return Failed(output.error);
    }
    if Contains(output.value, InstalledMarker) {
      o := Done;
    } else {
      o := Failed("Docker installation failed on " + host.address + ": " + output.value);
    }
  }

  method EnsureDockerInstalledRemote(ex: Executor, host: Host) returns (o: Outcome)
    modifies ex
    ensures var r := EnsureRemoteRun(ex.respond, old(ex.log), host);
      o == r.result && ex.log == old(ex.log) + r.issued
  {
    var check := RunSshCommand(ex, ProbeCommand, host);
    if check.Err? {
      return Failed(check.error);
    }
    if Contains(check.value, NotFoundMarker) {
      ghost var h := ex.log;
      o := InstallDockerRemote(ex, host);
      ghost var install := InstallRemoteRun(ex.respond, h, host);
      assert ex.log == old(ex.log) + ([SshInvocation(host, ProbeCommand)] + install.issued);
    } else {
      o := Done;
    }
  }

  // ---------------------------------------------------------------------------
  // One remote container instance

  /** `format!("{}-{}", container.container_name, instance)`. */
  function InstanceName(name: string, instance: nat): string {
    name + "-" + NatToDecimal(instance)
  }

  /** In `name-digits` the `-` after `name` is the last one. */
  lemma LastDash(name: string, d: string, s: string)
    requires s == name + "-" + d && AllDigits(d)
    ensures |name| < |s| && s[|name|] == '-'
    ensures forall j :: |name| < j < |s| ==> s[j] != '-'
  {
    forall j | |name| < j < |s| ensures s[j] != '-' {
      assert s[j] == d[j - |name| - 1];
      assert IsDigit(d[j - |name| - 1]);
    }
  }

  /** Distinct (container name, instance) pairs get distinct instance names:
      the decimal suffix holds no `-`, so the last `-` splits the name. */
  lemma InstanceNameInjective(name1: string, i1: nat, name2: string, i2: nat)
    requires InstanceName(name1, i1) == InstanceName(name2, i2)
    ensures name1 == name2 && i1 == i2
  {
    var d1, d2 := NatToDecimal(i1), NatToDecimal(i2);
    var s := InstanceName(name1, i1);
    LastDash(name1, d1, s);
    LastDash(name2, d2, s);
    assert |name1| == |name2|;
    assert name1 == s[..|name1|] == name2;
    assert d1 == s[|name1| + 1..] == d2;
    DecimalInjective(i1, i2);
  }

  /** The four commands that deploy a container under a name: pull, remove,
      start, list. */
  function DockerCommands(image: string, name: string): seq<string> {
    [ "docker pull " + image,
      "docker rm -f " + name,
      "docker run -d --name " + name + " " + image,
      "docker ps --filter name=" + name + " --format '{{.Names}}'" ]
  }

  /** The commands for one instance, under its instance name. */
  function RemoteCommands(c: ContainerConfig, instance: nat): seq<string> {
    DockerCommands(c.imageName, InstanceName(c.containerName, instance))
  }

  /** A list of commands run in order, each through `run_ssh_command(..)?`. */
  function SshSequenceRun(respond: Respond, hist: seq<Invocation>, host: Host, commands: seq<string>): Run<Outcome> {
    Summarise(RunAll(SshStep(respond, host), hist, commands, true))
  }

  /** `deploy_container_remotely`: the instance's commands, in order. */
  function ContainerRemotelyRun(respond: Respond, hist: seq<Invocation>, host: Host, c: ContainerConfig, instance: nat): Run<Outcome> {
    SshSequenceRun(respond, hist, host, RemoteCommands(c, instance))
  }

  /** The reply to the `k`-th command of an instance once the commands before
      it were issued. */
  function RemoteReply(respond: Respond, hist: seq<Invocation>, host: Host, c: ContainerConfig, instance: nat, k: nat): CmdOutput
    requires k < 4
  {
    ReplyAt(respond, SshInvoker(host), hist, RemoteCommands(c, instance), k)
  }

  /** The commands issued for one instance are the first `n` of pull, rm -f,
      run, ps, in that order; every one before the last succeeded; the run
      stops early only at a failing command, whose error is the outcome; the
      outcome is success exactly when all four commands succeed. */
  lemma RemoteInstanceSequence(respond: Respond, hist: seq<Invocation>, host: Host, c: ContainerConfig, instance: nat)
    ensures var r := ContainerRemotelyRun(respond, hist, host, c, instance);
      var n := |r.issued|;
      && 1 <= n <= 4
      && r.issued == Invocations(SshInvoker(host), RemoteCommands(c, instance)[..n])
      && (forall k :: 0 <= k < n - 1 ==> ExitedOk(RemoteReply(respond, hist, host, c, instance, k)))
      && (n < 4 ==> !ExitedOk(RemoteReply(respond, hist, host, c, instance, n - 1)))
      && (r.result.Done? <==> n == 4 && forall k :: 0 <= k < 4 ==> ExitedOk(RemoteReply(respond, hist, host, c, instance, k)))
      && (r.result.Failed? ==> r.result == SshVerdict(RemoteReply(respond, hist, host, c, instance, n - 1)))
  {
    var cmds := RemoteCommands(c, instance);
    assert |cmds| == 4;
    CommandSequence(respond, SshInvoker(host), SshVerdict, hist, cmds);
    var r := ContainerRemotelyRun(respond, hist, host, c, instance);
    assert r == Summarise(RunAll(CommandStep(respond, SshInvoker(host), SshVerdict), hist, cmds, true));
    forall k | 0 <= k < 4
      ensures SshVerdict(ReplyAt(respond, SshInvoker(host), hist, cmds, k)).Done?
          <==> ExitedOk(RemoteReply(respond, hist, host, c, instance, k))
    {
    }
  }

  /** Unlike the local path, a failing `docker rm -f` ends the instance's
      deployment with its error: `docker run` is never issued. */
  lemma RemoteRemoveFailureIsTerminal(respond: Respond, hist: seq<Invocation>, host: Host, c: ContainerConfig, instance: nat)
    requires ExitedOk(RemoteReply(respond, hist, host, c, instance, 0))
    requires !ExitedOk(RemoteReply(respond, hist, host, c, instance, 1))
    ensures var r := ContainerRemotelyRun(respond, hist, host, c, instance);
      && |r.issued| == 2
      && r.result == Failed(SshResult(RemoteReply(respond, hist, host, c, instance, 1)).error)
  {
    RemoteInstanceSequence(respond, hist, host, c, instance);
  }

  /** The output of the final `docker ps` is never compared with the instance
      name: whenever all four commands exit successfully the instance counts
      as deployed, whatever they print. */
  lemma RemoteSuccessIgnoresListing(respond: Respond, hist: seq<Invocation>, host: Host, c: ContainerConfig, instance: nat)
    requires forall k :: 0 <= k < 4 ==> ExitedOk(RemoteReply(respond, hist, host, c, instance, k))
    ensures ContainerRemotelyRun(respond, hist, host, c, instance).result == Done
  {
    RemoteInstanceSequence(respond, hist, host, c, instance);
  }

  /** `for cmd in commands { run_ssh_command(&cmd, host).await?; }`. */
  method RunSshCommandsInTurn(ex: Executor, host: Host, commands: seq<string>) returns (o: Outcome)
    modifies ex
    ensures var r := SshSequenceRun(ex.respond, old(ex.log), host, commands);
      o == r.result && ex.log == old(ex.log) + r.issued
  {
    ghost var step := SshStep(ex.respond, host);
    ghost var hist0 := ex.log;
    ghost var done: seq<Run<Outcome>> := [];
    ghost var rest := commands;
    var k := 0;
    while k < |commands|
      invariant 0 <= k <= |commands|
      invariant rest == commands[k..]
      invariant ex.log == hist0 + Issued(done)
      invariant FirstError(Outcomes(done)) == Done
      invariant RunAll(step, hist0, commands, true) == done + RunAll(step, ex.log, rest, true)
    {
      ghost var h := ex.log;
      assert rest[0] == commands[k];
      RunAllNext(step, hist0, commands, true, done, h, rest);
      ghost var r := step(h, commands[k]);
      SshStepAt(ex.respond, host, h, commands[k]);
      var output := RunSshCommand(ex, commands[k], host);
      assert ex.log == h + r.issued && (output.Err? <==> r.result.Failed?);
      if output.Err? {
        assert r.result == Failed(output.error);
        return Failed(output.error);
      }
      done := done + [r];
      rest := rest[1..];
      k := k + 1;
    }
    RunAllEnd(step, hist0, commands, true, done, ex.log, rest);
    o := Done;
  }

  method DeployContainerRemotely(ex: Executor, host: Host, c: ContainerConfig, instance: nat) returns (o: Outcome)
    modifies ex
    ensures var r := ContainerRemotelyRun(ex.respond, old(ex.log), host, c, instance);
      o == r.result && ex.log == old(ex.log) + r.issued
  {
    o := RunSshCommandsInTurn(ex, host, RemoteCommands(c, instance));
  }

  // ---------------------------------------------------------------------------
  // All remote instances

  datatype Unit = Unit(container: ContainerConfig, instance: nat)

  /** Instances `0..n` of one container. */
  function Instances(c: ContainerConfig, n: nat): (us: seq<Unit>)
    ensures |us| == n && forall i :: 0 <= i < n ==> us[i] == Unit(c, i)
  {
    seq(n, i requires 0 <= i < n => Unit(c, i))
  }

  /** Every instance of every container: containers in configuration order,
      instances in increasing order within each container. */
  function Units(cs: seq<ContainerConfig>, n: nat): seq<Unit>
    decreases |cs|
  {
    if cs == [] then [] else Instances(cs[0], n) + Units(cs[1..], n)
  }

  /** Position of instance `i` of container number `ci`. */
  function Slot(n: nat, ci: nat, i: nat): nat { ci * n + i }

  lemma {:induction false} UnitsLayout(cs: seq<ContainerConfig>, n: nat)
    ensures |Units(cs, n)| == |cs| * n
    ensures forall ci, i :: 0 <= ci < |cs| && 0 <= i < n ==> Slot(n, ci, i) < |cs| * n && Units(cs, n)[Slot(n, ci, i)] == Unit(cs[ci], i)
    decreases |cs|
  {
    if cs != [] {
      UnitsLayout(cs[1..], n);
      var us := Units(cs, n);
      assert us == Instances(cs[0], n) + Units(cs[1..], n);
      assert |cs| * n == n + (|cs| - 1) * n;
      forall ci, i | 0 <= ci < |cs| && 0 <= i < n
        ensures Slot(n, ci, i) < |cs| * n && us[Slot(n, ci, i)] == Unit(cs[ci], i)
      {
        if ci > 0 {
          assert Slot(n, ci, i) == n + Slot(n, ci - 1, i);
          assert cs[1..][ci - 1] == cs[ci];
        }
      }
    }
  }

  lemma UnitsFrom(cs: seq<ContainerConfig>, n: nat, ci: nat)
    requires ci < |cs|
    ensures Units(cs[ci..], n) == Instances(cs[ci], n) + Units(cs[ci + 1..], n)
  {
    assert cs[ci..][1..] == cs[ci + 1..];
  }

  /** One instance as one task. */
  function RemoteStep(respond: Respond, host: Host): Step<Unit> {
    (h: seq<Invocation>, u: Unit) => ContainerRemotelyRun(respond, h, host, u.container, u.instance)
  }

  /** `deploy_remotely`: every instance of every container, either in turn
      stopping at the first failure, or all as tasks whose results are then
      scanned in order. */
  function DeployRemotelyRun(respond: Respond, hist: seq<Invocation>, host: Host, config: Config): Run<Outcome> {
    Summarise(RunAll(RemoteStep(respond, host), hist, Units(config.containers, config.instances), !config.parallelContainers))
  }

  /** With no instances configured nothing is issued and deployment succeeds. */
  lemma {:induction false} NoInstancesNoCommands(respond: Respond, hist: seq<Invocation>, host: Host, config: Config)
    requires config.instances == 0
    ensures DeployRemotelyRun(respond, hist, host, config) == Run(Done, [])
  {
    UnitsLayout(config.containers, 0);
    assert Units(config.containers, 0) == [];
  }

  /** Parallel mode: one task per (container, instance), instances of each
      container together, each task started on its own unit; the outcome is
      the first failure in that order. */
  lemma ParallelRunsEveryInstance(respond: Respond, hist: seq<Invocation>, host: Host, config: Config)
    requires config.parallelContainers
    ensures var units := Units(config.containers, config.instances);
      var runs := RunAll(RemoteStep(respond, host), hist, units, false);
      && |runs| == |config.containers| * config.instances
      && (forall ci, i :: 0 <= ci < |config.containers| && 0 <= i < config.instances ==>
            Slot(config.instances, ci, i) < |units| && units[Slot(config.instances, ci, i)] == Unit(config.containers[ci], i))
      && DeployRemotelyRun(respond, hist, host, config).result == FirstError(Outcomes(runs))
  {
    UnitsLayout(config.containers, config.instances);
    RunAllRunsEveryUnit(RemoteStep(respond, host), hist, Units(config.containers, config.instances));
  }

  /** Sequential mode attempts the instances in order and stops at the
      first failure: every attempted instance but the last succeeded, and
      fewer than all are attempted only after a failure. */
  lemma SequentialStopsAtFirstFailure(respond: Respond, hist: seq<Invocation>, host: Host, config: Config)
    requires !config.parallelContainers
    ensures var units := Units(config.containers, config.instances);
      var runs := RunAll(RemoteStep(respond, host), hist, units, true);
      && (units != [] ==> runs != [])
      && (forall k :: 0 <= k < |runs| - 1 ==> runs[k].result.Done?)
      && (|runs| < |units| ==> runs[|runs| - 1].result.Failed?)
      && DeployRemotelyRun(respond, hist, host, config).result == FirstError(Outcomes(runs))
  {
    RunAllStopsAtFirstFailure(RemoteStep(respond, host), hist, Units(config.containers, config.instances));
  }

  /** The `parallel_containers` setting does not change the outcome of a
      remote deployment; the sequential setting issues a prefix of what the
      parallel one issues. */
  lemma ParallelSettingKeepsOutcome(respond: Respond, hist: seq<Invocation>, host: Host, config: Config)
    ensures var inTurn := DeployRemotelyRun(respond, hist, host, config.(parallelContainers := false));
      var asTasks := DeployRemotelyRun(respond, hist, host, config.(parallelContainers := true));
      && inTurn.result == asTasks.result
      && |inTurn.issued| <= |asTasks.issued| && asTasks.issued[..|inTurn.issued|] == inTurn.issued
  {
    StoppingSummary(RemoteStep(respond, host), hist, Units(config.containers, config.instances));
  }

  /** The instances of one container, in turn: the inner loop of the
      sequential branch. */
  method InstancesInTurn(ex: Executor, host: Host, c: ContainerConfig, n: nat) returns (o: Outcome)
    modifies ex
    ensures var r := Summarise(RunAll(RemoteStep(ex.respond, host), old(ex.log), Instances(c, n), true));
      o == r.result && ex.log == old(ex.log) + r.issued
  {
    ghost var step := RemoteStep(ex.respond, host);
    ghost var hist0 := ex.log;
    ghost var units := Instances(c, n);
    ghost var done: seq<Run<Outcome>> := [];
    assert units[0..] == units;
    var i := 0;
    while i < n
      invariant 0 <= i <= n
      invariant ex.log == hist0 + Issued(done)
      invariant FirstError(Outcomes(done)) == Done
      invariant RunAll(step, hist0, units, true) == done + RunAll(step, ex.log, units[i..], true)
    {
      assert units[i..][0] == Unit(c, i);
      RunAllNext(step, hist0, units, true, done, ex.log, units[i..]);
      ghost var h := ex.log;
      ghost var r := step(h, Unit(c, i));
      assert r == ContainerRemotelyRun(ex.respond, h, host, c, i);
      var result := DeployContainerRemotely(ex, host, c, i);
      assert ex.log == h + r.issued && result == r.result;
      if result.Failed? {
        return result;
      }
      assert units[i..][1..] == units[i + 1..];
      done := done + [r];
      i := i + 1;
    }
    RunAllEnd(step, hist0, units, true, done, ex.log, units[i..]);
    o := Done;
  }

  /** The sequential branch: every container's instances in turn, returning
      at the first failure. */
  method DeployInstancesInTurn(ex: Executor, host: Host, config: Config) returns (o: Outcome)
    modifies ex
    ensures var r := Summarise(RunAll(RemoteStep(ex.respond, host), old(ex.log), Units(config.containers, config.instances), true));
      o == r.result && ex.log == old(ex.log) + r.issued
  {
    var cs, n := config.containers, config.instances;
    ghost var step := RemoteStep(ex.respond, host);
    ghost var hist0 := ex.log;
    ghost var units := Units(cs, n);
    ghost var done: seq<Run<Outcome>> := [];
    ghost var rest := units;
    assert cs[0..] == cs;
    var ci := 0;
    while ci < |cs|
      invariant 0 <= ci <= |cs|
      invariant rest == Units(cs[ci..], n)
      invariant ex.log == hist0 + Issued(done)
      invariant FirstError(Outcomes(done)) == Done
      invariant RunAll(step, hist0, units, true) == done + RunAll(step, ex.log, rest, true)
    {
      ghost var block := Instances(cs[ci], n);
      ghost var after := Units(cs[ci + 1..], n);
      UnitsFrom(cs, n, ci);
      assert rest == block + after;
      ghost var h := ex.log;
      RunAllNextBlock(step, hist0, units, true, done, h, block, after);
      ghost var rb := RunAll(step, h, block, true);
      var result := InstancesInTurn(ex, host, cs[ci], n);
      assert ex.log == h + Issued(rb) && result == FirstError(Outcomes(rb));
      if result.Failed? {
        return result;
      }
      done := done + rb;
      rest := after;
      ci := ci + 1;
    }
    assert cs[ci..] == [];
    RunAllEnd(step, hist0, units, true, done, ex.log, rest);
    o := Done;
  }

  /** One task per instance of one container: the inner loop of the parallel
      branch. */
  method InstanceTasks(ex: Executor, host: Host, c: ContainerConfig, n: nat) returns (results: seq<Outcome>)
    modifies ex
    ensures var runs := RunAll(RemoteStep(ex.respond, host), old(ex.log), Instances(c, n), false);
      results == Outcomes(runs) && ex.log == old(ex.log) + Issued(runs)
  {
    ghost var step := RemoteStep(ex.respond, host);
    ghost var hist0 := ex.log;
    ghost var units := Instances(c, n);
    ghost var done: seq<Run<Outcome>> := [];
    results := [];
    assert units[0..] == units;
    var i := 0;
    while i < n
      invariant 0 <= i <= n
      invariant ex.log == hist0 + Issued(done)
      invariant results == Outcomes(done)
      invariant RunAll(step, hist0, units, false) == done + RunAll(step, ex.log, units[i..], false)
    {
      assert units[i..][0] == Unit(c, i);
      RunAllNext(step, hist0, units, false, done, ex.log, units[i..]);
      ghost var h := ex.log;
      ghost var r := step(h, Unit(c, i));
      assert r == ContainerRemotelyRun(ex.respond, h, host, c, i);
      var result := DeployContainerRemotely(ex, host, c, i);
      assert ex.log == h + r.issued && result == r.result;
      assert units[i..][1..] == units[i + 1..];
      done := done + [r];
      results := results + [result];
      i := i + 1;
    }
    RunAllEnd(step, hist0, units, false, done, ex.log, units[i..]);
  }

  /** The parallel branch's spawning: one task per instance of every
      container; the joined results come back in spawn order. */
  method RunInstanceTasks(ex: Executor, host: Host, config: Config) returns (results: seq<Outcome>)
    modifies ex
    ensures var runs := RunAll(RemoteStep(ex.respond, host), old(ex.log), Units(config.containers, config.instances), false);
      results == Outcomes(runs) && ex.log == old(ex.log) + Issued(runs)
  {
    var cs, n := config.containers, config.instances;
    ghost var step := RemoteStep(ex.respond, host);
    ghost var hist0 := ex.log;
    ghost var units := Units(cs, n);
    ghost var done: seq<Run<Outcome>> := [];
    ghost var rest := units;
    results := [];
    assert cs[0..] == cs;
    var ci := 0;
    while ci < |cs|
      invariant 0 <= ci <= |cs|
      invariant rest == Units(cs[ci..], n)
      invariant ex.log == hist0 + Issued(done)
      invariant results == Outcomes(done)
      invariant RunAll(step, hist0, units, false) == done + RunAll(step, ex.log, rest, false)
    {
      ghost var block := Instances(cs[ci], n);
      ghost var after := Units(cs[ci + 1..], n);
      UnitsFrom(cs, n, ci);
      assert rest == block + after;
      ghost var h := ex.log;
      RunAllNextBlock(step, hist0, units, false, done, h, block, after);
      ghost var rb := RunAll(step, h, block, false);
      var more := InstanceTasks(ex, host, cs[ci], n);
      assert ex.log == h + Issued(rb) && more == Outcomes(rb);
      done := done + rb;
      results := results + more;
      rest := after;
      ci := ci + 1;
    }
    assert cs[ci..] == [];
    RunAllEnd(step, hist0, units, false, done, ex.log, rest);
  }

  /** `for result in results { ... Ok(Err(e)) => return Err(e) ... }`. */
  method ScanResults(results: seq<Outcome>) returns (o: Outcome)
    ensures o == FirstError(results)
  {
    var k := 0;
    while k < |results|
      invariant 0 <= k <= |results|
      invariant forall j :: 0 <= j < k ==> results[j].Done?
    {
      if results[k].Failed? {
        var f := FirstError(results);
        assert f.Failed?;
        var m :| 0 <= m < |results| && results[m] == f && forall j :: 0 <= j < m ==> results[j].Done?;
        assert m == k;
        return results[k];
      }
      k := k + 1;
    }
    o := Done;
  }

  method DeployRemotely(ex: Executor, host: Host, config: Config) returns (o: Outcome)
    modifies ex
    ensures var r := DeployRemotelyRun(ex.respond, old(ex.log), host, config);
      o == r.result && ex.log == old(ex.log) + r.issued
  {
    if config.parallelContainers {
      var results := RunInstanceTasks(ex, host, config);
      o := ScanResults(results);
    } else {
      o := DeployInstancesInTurn(ex, host, config);
    }
  }

  // ---------------------------------------------------------------------------
  // Local containers

  function PullInvocation(c: ContainerConfig): Invocation { Invocation("docker", ["pull", c.imageName]) }
  function RemoveInvocation(c: ContainerConfig): Invocation { Invocation("docker", ["rm", "-f", c.containerName]) }
  function StartInvocation(c: ContainerConfig): Invocation {
    Invocation("docker", ["run", "-d", "--name", c.containerName, c.imageName])
  }
  function ListInvocation(c: ContainerConfig): Invocation {
    Invocation("docker", ["ps", "--filter", "name=" + c.containerName, "--format", "{{.Names}}"])
  }

  function LocalCommands(c: ContainerConfig): seq<Invocation> {
    [PullInvocation(c), RemoveInvocation(c), StartInvocation(c), ListInvocation(c)]
  }

  /** The reply to the `k`-th local command once the commands before it were issued. */
  function LocalReply(respond: Respond, hist: seq<Invocation>, c: ContainerConfig, k: nat): CmdOutput
    requires k < 4
  {
    respond(hist + LocalCommands(c)[..k], LocalCommands(c)[k])
  }

  /** `deploy_container_locally`. */
  function ContainerLocallyRun(respond: Respond, hist: seq<Invocation>, c: ContainerConfig): Run<Outcome> {
    var pull := respond(hist, PullInvocation(c));
    if !ExitedOk(pull) then
      Run(Failed("Failed to pull Docker image " + c.imageName + ": " + Diagnostic(pull)), [PullInvocation(c)])
    else
      var start := respond(hist + [PullInvocation(c), RemoveInvocation(c)], StartInvocation(c));
      var started := [PullInvocation(c), RemoveInvocation(c), StartInvocation(c)];
      if !ExitedOk(start) then
        Run(Failed("Failed to run Docker container " + c.containerName + ": " + Diagnostic(start)), started)
      else
        var list := respond(hist + started, ListInvocation(c));
        if list.SpawnError? then
          Run(Failed("Failed to verify container " + c.containerName + ": " + list.reason), LocalCommands(c))
        else if Trim(list.stdout) == c.containerName then
          Run(Done, LocalCommands(c))
        else
          Run(Failed("Container '" + c.containerName + "' is not running"), LocalCommands(c))
  }

  /** A failed pull or run ends the deployment with that error; the reply to
      `docker rm -f` is never looked at; success means the trimmed output of
      `docker ps` is exactly the container name (its exit status is not
      checked). */
  lemma LocalContainerDecides(respond: Respond, hist: seq<Invocation>, c: ContainerConfig)
    ensures var r := ContainerLocallyRun(respond, hist, c);
      && |r.issued| in {1, 3, 4} && r.issued == LocalCommands(c)[..|r.issued|]
      && (|r.issued| == 1 <==> !ExitedOk(LocalReply(respond, hist, c, 0)))
      && (|r.issued| == 3 <==> ExitedOk(LocalReply(respond, hist, c, 0)) && !ExitedOk(LocalReply(respond, hist, c, 2)))
      && (r.result.Done? <==>
            && ExitedOk(LocalReply(respond, hist, c, 0))
            && ExitedOk(LocalReply(respond, hist, c, 2))
            && LocalReply(respond, hist, c, 3).Exited?
            && Trim(LocalReply(respond, hist, c, 3).stdout) == c.containerName)
  {
    var cmds := LocalCommands(c);
    assert cmds[..0] == [] && cmds[..1] == [PullInvocation(c)];
    assert cmds[..2] == [PullInvocation(c), RemoveInvocation(c)];
    assert cmds[..3] == [PullInvocation(c), RemoveInvocation(c), StartInvocation(c)] && cmds[..4] == cmds;
    assert hist + cmds[..0] == hist;
  }

  /** Two environments that differ only in how they answer `docker rm -f`
      lead to the same deployment of a local container. */
  lemma LocalRemoveReplyIgnored(respond1: Respond, respond2: Respond, hist: seq<Invocation>, c: ContainerConfig)
    requires forall h, inv :: inv != RemoveInvocation(c) ==> respond1(h, inv) == respond2(h, inv)
    ensures ContainerLocallyRun(respond1, hist, c) == ContainerLocallyRun(respond2, hist, c)
  {
    // Only `docker rm -f` has three arguments.
    var rm := RemoveInvocation(c);
    assert |rm.args| == 3;
    var started := [PullInvocation(c), rm, StartInvocation(c)];
    assert |PullInvocation(c).args| == 2 && respond1(hist, PullInvocation(c)) == respond2(hist, PullInvocation(c));
    assert |StartInvocation(c).args| == 5
      && respond1(hist + [PullInvocation(c), rm], StartInvocation(c)) == respond2(hist + [PullInvocation(c), rm], StartInvocation(c));
    assert |ListInvocation(c).args| == 5 && respond1(hist + started, ListInvocation(c)) == respond2(hist + started, ListInvocation(c));
  }

  method DeployContainerLocally(ex: Executor, c: ContainerConfig) returns (o: Outcome)
    modifies ex
    ensures var r := ContainerLocallyRun(ex.respond, old(ex.log), c);
      o == r.result && ex.log == old(ex.log) + r.issued
  {
    ghost var hist0 := ex.log;
    var pull := ex.Spawn(PullInvocation(c));
    if !(pull.Exited? && pull.success) {
      return Failed("Failed to pull Docker image " + c.imageName + ": " + Diagnostic(pull));
    }
    var _ := ex.Spawn(RemoveInvocation(c));
    assert ex.log == hist0 + [PullInvocation(c), RemoveInvocation(c)];
    var start := ex.Spawn(StartInvocation(c));
    assert ex.log == hist0 + [PullInvocation(c), RemoveInvocation(c), StartInvocation(c)];
    if !(start.Exited? && start.success) {
      return Failed("Failed to run Docker container " + c.containerName + ": " + Diagnostic(start));
    }
    var list := ex.Spawn(ListInvocation(c));
    assert ex.log == hist0 + LocalCommands(c);
    if list.SpawnError? {
      return Failed("Failed to verify container " + c.containerName + ": " + list.reason);
    }
    var running := Trim(list.stdout);
    if running == c.containerName {
      o := Done;
    } else {
      o := Failed("Container '" + c.containerName + "' is not running");
    }
  }

  function LocalStep(respond: Respond): Step<ContainerConfig> {
    (h: seq<Invocation>, c: ContainerConfig) => ContainerLocallyRun(respond, h, c)
  }

  /** `deploy_locally`: one task per container, all joined, the results
      scanned in configuration order. */
  function DeployLocallyRun(respond: Respond, hist: seq<Invocation>, config: Config): Run<Outcome> {
    Summarise(RunAll(LocalStep(respond), hist, config.containers, false))
  }

  /** Every container is attempted, each on its own configuration entry, and
      the outcome is the first failure in configuration order. */
  lemma DeployLocallyAttemptsAll(respond: Respond, hist: seq<Invocation>, config: Config)
    ensures var runs := RunAll(LocalStep(respond), hist, config.containers, false);
      && |runs| == |config.containers|
      && (forall k :: 0 <= k < |runs| ==>
            runs[k] == ContainerLocallyRun(respond, hist + Issued(runs[..k]), config.containers[k]))
      && DeployLocallyRun(respond, hist, config).result == FirstError(Outcomes(runs))
  {
    var runs := RunAll(LocalStep(respond), hist, config.containers, false);
    RunAllRunsEveryUnit(LocalStep(respond), hist, config.containers);
    forall k | 0 <= k < |runs|
      ensures runs[k] == ContainerLocallyRun(respond, hist + Issued(runs[..k]), config.containers[k])
    {
      RunAllSeesHistory(LocalStep(respond), hist, config.containers, false, k);
    }
  }

  /** The container tasks of `deploy_locally`, each run to completion, their
      outcomes collected in configuration order. */
  method ContainerTasks(ex: Executor, cs: seq<ContainerConfig>) returns (results: seq<Outcome>)
    modifies ex
    ensures var runs := RunAll(LocalStep(ex.respond), old(ex.log), cs, false);
      results == Outcomes(runs) && ex.log == old(ex.log) + Issued(runs)
  {
    ghost var step := LocalStep(ex.respond);
    ghost var hist0 := ex.log;
    ghost var done: seq<Run<Outcome>> := [];
    ghost var rest := cs;
    results := [];
    var k := 0;
    while k < |cs|
      invariant 0 <= k <= |cs|
      invariant rest == cs[k..]
      invariant ex.log == hist0 + Issued(done)
      invariant results == Outcomes(done)
      invariant RunAll(step, hist0, cs, false) == done + RunAll(step, ex.log, rest, false)
    {
      ghost var h := ex.log;
      assert rest[0] == cs[k];
      RunAllNext(step, hist0, cs, false, done, h, rest);
      ghost var r := step(h, cs[k]);
      assert r == ContainerLocallyRun(ex.respond, h, cs[k]);
      var result := DeployContainerLocally(ex, cs[k]);
      assert ex.log == h + r.issued && result == r.result;
      done := done + [r];
      results := results + [result];
      rest := rest[1..];
      k := k + 1;
    }
    RunAllEnd(step, hist0, cs, false, done, ex.log, rest);
  }

  method DeployLocally(ex: Executor, config: Config) returns (o: Outcome)
    modifies ex
    ensures var r := DeployLocallyRun(ex.respond, old(ex.log), config);
      o == r.result && ex.log == old(ex.log) + r.issued
  {
    var results := ContainerTasks(ex, config.containers);
    o := ScanResults(results);
  }
}
