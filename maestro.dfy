/** The deployment path of the Maestro binary (src/main.rs): its own SSH
    command line, a `run_ssh_command` that single-quotes without escaping, and
    sequential deployment to every configured host.

    The local Docker check and the per-container local steps of src/main.rs
    are the same code as in src/docker_api.rs and are taken from `DockerApi`. */
module Maestro {
  import opened Wrappers
  import opened Strings
  import opened Exec
  import opened Config
  import Shell
  import Ssh = SystemApiSsh
  import Docker = DockerApi

  // ---------------------------------------------------------------------------
  // SSH command line

  /** The fixed words in front of the password form: batch mode off and no
      host-key prompt. */
  const BatchWords: seq<string> := ["ssh", "-o", "BatchMode=no", "-o", "StrictHostKeyChecking=no"]

  /** `build_ssh_command` of src/main.rs: no credential on the command line
      for password authentication (the password goes to the standard input),
      `ssh -i <key>` for key authentication. The fixed part of the password
      form, `ssh -o BatchMode=no -o StrictHostKeyChecking=no`, is written as
      `BatchWords` joined by blanks. */
  function BuildSshCommand(host: Host): string {
    match host.authMethod
    case Password(_) =>
      Unwords(BatchWords) + " " + Ssh.PortOption(host.sshPort) + " " + host.username + "@" + host.address
    case Key(keyPath) =>
      "ssh -i " + keyPath + " " + Ssh.PortOption(host.sshPort) + " " + host.username + "@" + host.address
  }

  /** The argument vector the command line is meant to start. */
  function SshArgv(host: Host): seq<string> {
    match host.authMethod
    case Password(_) => BatchWords + Ssh.PortArgs(host.sshPort) + [host.username + "@" + host.address]
    case Key(keyPath) => ["ssh", "-i", keyPath] + Ssh.PortArgs(host.sshPort) + [host.username + "@" + host.address]
  }

  /** User name and address hold only characters the shell takes literally
      (`Shell.IsPlain`), and so does the key path, which is not empty; the
      password is not on the command line, so it may hold anything. The
      fixed words hold no character the shell interprets, so `sh -c` splits
      such a line exactly at its blanks and expands nothing. */
  predicate WordFields(host: Host) {
    Shell.PlainText(host.username) && Shell.PlainText(host.address)
    && (host.authMethod.Key? ==> host.authMethod.keyPath != [] && Shell.PlainText(host.authMethod.keyPath))
  }

  lemma PasswordLine(host: Host)
    requires host.authMethod.Password?
    ensures BuildSshCommand(host)
         == Unwords(BatchWords) + " " + (Ssh.PortOption(host.sshPort) + " " + Unwords([host.username + "@" + host.address]))
  {
  }

  /** For key authentication both versions of `build_ssh_command` build the
      same command line. */
  lemma KeyFormShared(host: Host)
    requires host.authMethod.Key?
    ensures BuildSshCommand(host) == Ssh.BuildSshCommand(host)
    ensures SshArgv(host) == Ssh.SshArgv(host)
  {
  }

  /** The words `sh -c` makes of the command line are exactly the intended
      argument vector: `-p N` only when a port is configured, `-i <key>` right after
      `ssh` for key authentication, the two `-o` options and no credential for
      password authentication. */
  lemma BuildSshCommandWords(host: Host)
    requires WordFields(host)
    ensures Fields(BuildSshCommand(host)) == SshArgv(host)
  {
    if host.authMethod.Password? {
      PasswordFormWords(host);
    } else {
      KeyFormShared(host);
      Ssh.BuildSshCommandWords(host);
    }
  }

  lemma BatchWordsAreWords()
    ensures forall k :: 0 <= k < |BatchWords| ==> IsWord(BatchWords[k])
  {
  }

  lemma PasswordFormWords(host: Host)
    requires WordFields(host) && host.authMethod.Password?
    ensures Fields(BuildSshCommand(host)) == SshArgv(host)
  {
    var ua := host.username + "@" + host.address;
    Ssh.PlainTextNoBlank(host.username);
    Ssh.PlainTextNoBlank(host.address);
    Ssh.UserAtAddressIsWord(host.username, host.address);
    Ssh.PortOptionWords(host.sshPort);
    BatchWordsAreWords();
    PasswordLine(host);
    FieldsAround(BatchWords, Ssh.PortOption(host.sshPort), [ua], BuildSshCommand(host));
    assert SshArgv(host) == BatchWords + (Ssh.PortArgs(host.sshPort) + [ua]);
  }

  // ---------------------------------------------------------------------------
  // run_ssh_command: single quotes without escaping

  /** `format!("{} '{}'", build_ssh_command(host), command)`. */
  function FullCommand(host: Host, command: string): string {
    BuildSshCommand(host) + " '" + command + "'"
  }

  function SshInvocation(host: Host, command: string): Invocation {
    Invocation("sh", ["-c", FullCommand(host, command)])
  }

  /** The word after the SSH prefix is the command between single quotes,
      and the shell reads it back as the command exactly when the command
      holds no single quote. */
  lemma QuotedCommandReadsBackIff(host: Host, command: string)
    ensures var full := FullCommand(host, command);
      var n := |BuildSshCommand(host)| + 1;
      && n <= |full| && full[..n] == BuildSshCommand(host) + " "
      && full[n..] == "'" + command + "'"
      && (Shell.ReadWord(full[n..]) == Some(command) <==> '\'' !in command)
  {
    var full := FullCommand(host, command);
    var n := |BuildSshCommand(host)| + 1;
    assert full[..n] == BuildSshCommand(host) + " ";
    assert full[n..] == "'" + command + "'";
    Shell.UnescapedQuoteReadsBackIff(command);
  }

  /** The `docker ps` command holds single quotes, so it is not read back as
      written. */
  lemma ListCommandMisread(host: Host, c: ContainerConfig)
    ensures var ps := Docker.DockerCommands(c.imageName, c.containerName)[3];
      Shell.ReadWord("'" + ps + "'") != Some(ps)
  {
    var ps := Docker.DockerCommands(c.imageName, c.containerName)[3];
    var suffix := " --format '{{.Names}}'";
    assert ps == "docker ps --filter name=" + c.containerName + suffix;
    assert ps[|ps| - 1] == suffix[|suffix| - 1] == '\'';
    Shell.UnquotedWithQuoteMisread(ps);
  }

  /** `run_ssh_command(command, host)` of src/main.rs; its result rules are
      those of the older version (`SystemApiSsh.SshResult`). */
  method RunSshCommand(ex: Executor, command: string, host: Host) returns (r: Result<string>)
    modifies ex
    ensures ex.log == old(ex.log) + [SshInvocation(host, command)]
    ensures r == Ssh.SshResult(ex.respond(old(ex.log), SshInvocation(host, command)))
  {
    var out := ex.Spawn(SshInvocation(host, command));
    r := Ssh.SshResult(out);
  }

  /** The callers already prefix the SSH command and quote the remote command,
      and `run_ssh_command` does it again: what is sent for `cmd`. */
  function Wrapped(host: Host, command: string): Invocation {
    SshInvocation(host, FullCommand(host, command))
  }

  /** The doubly wrapped text always holds a single quote, so the outer
      quoting never reads back as the text it wraps. */
  lemma WrappedMisread(host: Host, command: string)
    ensures Shell.ReadWord("'" + FullCommand(host, command) + "'") != Some(FullCommand(host, command))
  {
    var inner := FullCommand(host, command);
    assert inner[|BuildSshCommand(host)| + 1] == '\'';
    Shell.UnquotedWithQuoteMisread(inner);
  }

  // ---------------------------------------------------------------------------
  // Remote Docker check and installation

  const VersionCommand: string := "docker --version"
  const InstallCommand: string := "curl -fsSL https://get.docker.com -o get-docker.sh && sudo sh get-docker.sh"
  const ErrorMarker: string := "ERROR"

  /** `install_docker_remote` of src/main.rs. */
  function InstallRemoteRun(respond: Respond, hist: seq<Invocation>, host: Host): Run<Outcome> {
    var out := Ssh.SshResult(respond(hist, Wrapped(host, InstallCommand)));
    var result :=
      if out.Err? then Failed(out.error)
      else if !Contains(out.value, ErrorMarker) then Done
      else Failed("Docker installation failed on " + host.address + ": " + out.value);
    Run(result, [Wrapped(host, InstallCommand)])
  }

  /** The installation succeeds exactly when its command exits successfully
      and its output does not contain `ERROR`. */
  lemma InstallRemoteDecides(respond: Respond, hist: seq<Invocation>, host: Host)
    ensures var r := InstallRemoteRun(respond, hist, host);
      var reply := respond(hist, Wrapped(host, InstallCommand));
      && r.issued == [Wrapped(host, InstallCommand)]
      && (r.result.Done? <==> ExitedOk(reply) && !Contains(reply.stdout, ErrorMarker))
  {
  }

  /** `ensure_docker_installed_remote` of src/main.rs. */
  function EnsureRemoteRun(respond: Respond, hist: seq<Invocation>, host: Host): Run<Outcome> {
    var probe := Ssh.SshResult(respond(hist, Wrapped(host, VersionCommand)));
    if probe.Err? then Run(Failed(probe.error), [Wrapped(host, VersionCommand)])
    else if probe.value != [] then Run(Done, [Wrapped(host, VersionCommand)])
    else
      var install := InstallRemoteRun(respond, hist + [Wrapped(host, VersionCommand)], host);
      Run(install.result, [Wrapped(host, VersionCommand)] + install.issued)
  }

  /** Any non-empty output of the probe counts as "installed"; the
      installation runs exactly when the probe succeeds with empty output. */
  lemma EnsureRemoteDecides(respond: Respond, hist: seq<Invocation>, host: Host)
    ensures var r := EnsureRemoteRun(respond, hist, host);
      var probe := respond(hist, Wrapped(host, VersionCommand));
      var install := InstallRemoteRun(respond, hist + [Wrapped(host, VersionCommand)], host);
      && |r.issued| >= 1 && r.issued[0] == Wrapped(host, VersionCommand)
      && (|r.issued| > 1 <==> ExitedOk(probe) && probe.stdout == [])
      && (r.result.Done? <==> ExitedOk(probe) && (probe.stdout == [] ==> install.result.Done?))
  {
  }

  method InstallDockerRemote(ex: Executor, host: Host) returns (o: Outcome)
    modifies ex
    ensures var r := InstallRemoteRun(ex.respond, old(ex.log), host);
      o == r.result && ex.log == old(ex.log) + r.issued
  {
    var output := RunSshCommand(ex, FullCommand(host, InstallCommand), host);
    if output.Err? {
      return Failed(output.error);
    }
    if !Contains(output.value, ErrorMarker) {
      o := Done;
    } else {
      o := Failed("Docker installation failed on " + host.address + ": " + output.value);
    }
  }

  method EnsureDockerInstalledRemote(ex: Executor, host: Host) returns (o: Outcome)
    modifies ex
    ensures var r := EnsureRemoteRun(ex.respond, old(ex.log), host);
      o == r.result && ex.log == old(ex.log) + r.issued
  {
    var output := RunSshCommand(ex, FullCommand(host, VersionCommand), host);
    if output.Err? {
      return Failed(output.error);
    }
    if output.value != [] {
      o := Done;
    } else {
      ghost var h := ex.log;
      o := InstallDockerRemote(ex, host);
      assert ex.log == old(ex.log) + ([Wrapped(host, VersionCommand)] + InstallRemoteRun(ex.respond, h, host).issued);
    }
  }

  // ---------------------------------------------------------------------------
  // Deployment to one host

  /** Every container's four commands, containers in configuration order. */
  function ContainerCommands(cs: seq<ContainerConfig>): seq<string>
    decreases |cs|
  {
    if cs == [] then [] else Docker.DockerCommands(cs[0].imageName, cs[0].containerName) + ContainerCommands(cs[1..])
  }

  lemma {:induction false} ContainerCommandsLayout(cs: seq<ContainerConfig>)
    ensures |ContainerCommands(cs)| == 4 * |cs|
    ensures forall ci, j :: 0 <= ci < |cs| && 0 <= j < 4 ==>
      ContainerCommands(cs)[4 * ci + j] == Docker.DockerCommands(cs[ci].imageName, cs[ci].containerName)[j]
    decreases |cs|
  {
    if cs != [] {
      ContainerCommandsLayout(cs[1..]);
      forall ci, j | 0 <= ci < |cs| && 0 <= j < 4
        ensures ContainerCommands(cs)[4 * ci + j] == Docker.DockerCommands(cs[ci].imageName, cs[ci].containerName)[j]
      {
        if ci > 0 {
          assert 4 * ci + j == 4 + (4 * (ci - 1) + j);
          assert cs[1..][ci - 1] == cs[ci];
        }
      }
    }
  }

  lemma ContainerCommandsFrom(cs: seq<ContainerConfig>, ci: nat)
    requires ci < |cs|
    ensures ContainerCommands(cs[ci..])
         == Docker.DockerCommands(cs[ci].imageName, cs[ci].containerName) + ContainerCommands(cs[ci + 1..])
  {
    assert cs[ci..][1..] == cs[ci + 1..];
  }

  function Wrapper(host: Host): string -> Invocation {
    (command: string) => Wrapped(host, command)
  }

  /** One remote command of `deploy_remotely` as a step: `run_ssh_command(..)?`
      on the already wrapped command. */
  function WrappedStep(respond: Respond, host: Host): Step<string> {
    CommandStep(respond, Wrapper(host), Ssh.SshVerdict)
  }

  /** `deploy_remotely` of src/main.rs: the commands of every container in
      turn, stopping at the first failing one. */
  function DeployRemotelyRun(respond: Respond, hist: seq<Invocation>, host: Host, config: Config): Run<Outcome> {
    Summarise(RunAll(WrappedStep(respond, host), hist, ContainerCommands(config.containers), true))
  }

  /** The commands go out in order, container by container, each doubly
      wrapped; they stop at the first failing one, whose error is the
      outcome; success means every command of every container exited
      successfully (no output is compared with the container name). */
  lemma DeployRemotelySequence(respond: Respond, hist: seq<Invocation>, host: Host, config: Config)
    ensures var cmds := ContainerCommands(config.containers);
      var r := DeployRemotelyRun(respond, hist, host, config);
      var n := |r.issued|;
      && |cmds| == 4 * |config.containers| && n <= |cmds|
      && r.issued == Invocations(Wrapper(host), cmds[..n])
      && (forall k :: 0 <= k < n - 1 ==> ExitedOk(ReplyAt(respond, Wrapper(host), hist, cmds, k)))
      && (0 < n < |cmds| ==> !ExitedOk(ReplyAt(respond, Wrapper(host), hist, cmds, n - 1)))
      && (r.result.Done? <==> n == |cmds| && forall k :: 0 <= k < n ==> ExitedOk(ReplyAt(respond, Wrapper(host), hist, cmds, k)))
  {
    var cmds := ContainerCommands(config.containers);
    ContainerCommandsLayout(config.containers);
    CommandSequence(respond, Wrapper(host), Ssh.SshVerdict, hist, cmds);
    forall k | 0 <= k < |cmds|
      ensures Ssh.SshVerdict(ReplyAt(respond, Wrapper(host), hist, cmds, k)).Done?
          <==> ExitedOk(ReplyAt(respond, Wrapper(host), hist, cmds, k))
    {
    }
  }

  /** `for cmd in docker_commands { run_ssh_command(&full_command, host).await?; }`
      for one container. */
  method RunWrappedInTurn(ex: Executor, host: Host, commands: seq<string>) returns (o: Outcome)
    modifies ex
    ensures var r := Summarise(RunAll(WrappedStep(ex.respond, host), old(ex.log), commands, true));
      o == r.result && ex.log == old(ex.log) + r.issued
  {
    ghost var step := WrappedStep(ex.respond, host);
    ghost var hist0 := ex.log;
    ghost var done: seq<Run<Outcome>> := [];
    var k := 0;
    while k < |commands|
      invariant 0 <= k <= |commands|
      invariant ex.log == hist0 + Issued(done)
      invariant FirstError(Outcomes(done)) == Done
      invariant RunAll(step, hist0, commands, true) == done + RunAll(step, ex.log, commands[k..], true)
    {
      RunAllNext(step, hist0, commands, true, done, ex.log, commands[k..]);
      ghost var r := step(ex.log, commands[k]);
      var fullCommand := FullCommand(host, commands[k]);
      var output := RunSshCommand(ex, fullCommand, host);
      assert commands[k..][1..] == commands[k + 1..];
      if output.Err? {
        return Failed(output.error);
      }
      done := done + [r];
      k := k + 1;
    }
    RunAllEnd(step, hist0, commands, true, done, ex.log, commands[k..]);
    o := Done;
  }

  method DeployRemotely(ex: Executor, host: Host, config: Config) returns (o: Outcome)
    modifies ex
    ensures var r := DeployRemotelyRun(ex.respond, old(ex.log), host, config);
      o == r.result && ex.log == old(ex.log) + r.issued
  {
    var cs := config.containers;
    ghost var step := WrappedStep(ex.respond, host);
    ghost var hist0 := ex.log;
    ghost var all := ContainerCommands(cs);
    ghost var done: seq<Run<Outcome>> := [];
    ghost var rest := all;
    assert cs[0..] == cs;
    var ci := 0;
    while ci < |cs|
      invariant 0 <= ci <= |cs|
      invariant rest == ContainerCommands(cs[ci..])
      invariant ex.log == hist0 + Issued(done)
      invariant FirstError(Outcomes(done)) == Done
      invariant RunAll(step, hist0, all, true) == done + RunAll(step, ex.log, rest, true)
    {
      var commands := Docker.DockerCommands(cs[ci].imageName, cs[ci].containerName);
      ghost var after := ContainerCommands(cs[ci + 1..]);
      ContainerCommandsFrom(cs, ci);
      assert rest == commands + after;
      ghost var h := ex.log;
      RunAllNextBlock(step, hist0, all, true, done, h, commands, after);
      ghost var rb := RunAll(step, h, commands, true);
      var result := RunWrappedInTurn(ex, host, commands);
      assert ex.log == h + Issued(rb) && result == FirstError(Outcomes(rb));
      if result.Failed? {
        return result;
      }
      done := done + rb;
      rest := after;
      ci := ci + 1;
    }
    assert cs[ci..] == [];
    RunAllEnd(step, hist0, all, true, done, ex.log, rest);
    o := Done;
  }

  /** `deploy_locally` of src/main.rs: the containers in turn, returning at
      the first failure. */
  function DeployLocallyRun(respond: Respond, hist: seq<Invocation>, config: Config): Run<Outcome> {
    Summarise(RunAll(Docker.LocalStep(respond), hist, config.containers, true))
  }

  /** Containers are attempted in order, each by the local rules of
      src/docker_api.rs after the ones before it, and none after the first
      failing one. */
  lemma DeployLocallyInTurn(respond: Respond, hist: seq<Invocation>, config: Config)
    ensures var runs := RunAll(Docker.LocalStep(respond), hist, config.containers, true);
      && (forall k :: 0 <= k < |runs| ==>
            runs[k] == Docker.ContainerLocallyRun(respond, hist + Issued(runs[..k]), config.containers[k]))
      && (forall k :: 0 <= k < |runs| - 1 ==> runs[k].result.Done?)
      && (|runs| < |config.containers| ==> runs[|runs| - 1].result.Failed?)
  {
    var step := Docker.LocalStep(respond);
    var runs := RunAll(step, hist, config.containers, true);
    RunAllStopsAtFirstFailure(step, hist, config.containers);
    forall k | 0 <= k < |runs|
      ensures runs[k] == Docker.ContainerLocallyRun(respond, hist + Issued(runs[..k]), config.containers[k])
    {
      RunAllSeesHistory(step, hist, config.containers, true, k);
    }
  }

  /** The outcome is the one the task-based local deployment of
      src/docker_api.rs reports, and what is issued is a prefix of what that
      one issues. */
  lemma DeployLocallyAgreesWithTasks(respond: Respond, hist: seq<Invocation>, config: Config)
    ensures var asTasks := Docker.DeployLocallyRun(respond, hist, config);
      var r := DeployLocallyRun(respond, hist, config);
      && r.result == asTasks.result
      && |r.issued| <= |asTasks.issued| && asTasks.issued[..|r.issued|] == r.issued
  {
    StoppingSummary(Docker.LocalStep(respond), hist, config.containers);
  }

  method DeployLocally(ex: Executor, config: Config) returns (o: Outcome)
    modifies ex
    ensures var r := DeployLocallyRun(ex.respond, old(ex.log), config);
      o == r.result && ex.log == old(ex.log) + r.issued
  {
    var cs := config.containers;
    ghost var step := Docker.LocalStep(ex.respond);
    ghost var hist0 := ex.log;
    ghost var done: seq<Run<Outcome>> := [];
    var k := 0;
    while k < |cs|
      invariant 0 <= k <= |cs|
      invariant ex.log == hist0 + Issued(done)
      invariant FirstError(Outcomes(done)) == Done
      invariant RunAll(step, hist0, cs, true) == done + RunAll(step, ex.log, cs[k..], true)
    {
      RunAllNext(step, hist0, cs, true, done, ex.log, cs[k..]);
      ghost var r := step(ex.log, cs[k]);
      var result := Docker.DeployContainerLocally(ex, cs[k]);
      assert cs[k..][1..] == cs[k + 1..];
      if result.Failed? {
        return result;
      }
      done := done + [r];
      k := k + 1;
    }
    RunAllEnd(step, hist0, cs, true, done, ex.log, cs[k..]);
    o := Done;
  }

  /** The Docker check that `deploy_to_host` runs for a host. */
  function CheckRun(respond: Respond, hist: seq<Invocation>, host: Host): Run<Outcome> {
    if host.address == Localhost then Docker.EnsureLocalRun(respond, hist) else EnsureRemoteRun(respond, hist, host)
  }

  /** `deploy_to_host` of src/main.rs: the Docker check, then, if it
      succeeded, the deployment. */
  function DeployToHostRun(respond: Respond, hist: seq<Invocation>, host: Host, config: Config): Run<Outcome> {
    var check := CheckRun(respond, hist, host);
    var deploy :=
      if host.address == Localhost then DeployLocallyRun(respond, hist + check.issued, config)
      else DeployRemotelyRun(respond, hist + check.issued, host, config);
    Then(check, deploy)
  }

  /** The local path (its first command is `docker --version`, run
      directly) is taken exactly when the address is "localhost"; the check
      comes first, a failed check is the outcome with nothing deployed, and
      after a successful check the outcome and what follows the check are
      the local deployment's for "localhost" and the remote one's otherwise,
      started after the check's invocations. */
  lemma DeployToHostDispatch(respond: Respond, hist: seq<Invocation>, host: Host, config: Config)
    ensures var r := DeployToHostRun(respond, hist, host, config);
      var check := CheckRun(respond, hist, host);
      && |r.issued| >= 1
      && (r.issued[0] == Docker.VersionProbe <==> host.address == Localhost)
      && r.issued[..|check.issued|] == check.issued
      && (check.result.Failed? ==> r == check)
      && (check.result.Done? && host.address == Localhost ==>
            r == Run(DeployLocallyRun(respond, hist + check.issued, config).result,
                     check.issued + DeployLocallyRun(respond, hist + check.issued, config).issued))
      && (check.result.Done? && host.address != Localhost ==>
            r == Run(DeployRemotelyRun(respond, hist + check.issued, host, config).result,
                     check.issued + DeployRemotelyRun(respond, hist + check.issued, host, config).issued))
  {
    var check := CheckRun(respond, hist, host);
    if host.address == Localhost {
      Docker.EnsureLocalDecides(respond, hist);
    } else {
      EnsureRemoteDecides(respond, hist, host);
      assert Wrapped(host, VersionCommand) != Docker.VersionProbe;
    }
  }

  method DeployToHost(ex: Executor, host: Host, config: Config) returns (o: Outcome)
    modifies ex
    ensures var r := DeployToHostRun(ex.respond, old(ex.log), host, config);
      o == r.result && ex.log == old(ex.log) + r.issued
  {
    ghost var hist0 := ex.log;
    if host.address == Localhost {
      o := Docker.EnsureDockerInstalledLocal(ex);
      if o.Failed? {
        return;
      }
      ghost var h := ex.log;
      o := DeployLocally(ex, config);
      AppendAssoc(hist0, Docker.EnsureLocalRun(ex.respond, hist0).issued, DeployLocallyRun(ex.respond, h, config).issued);
    } else {
      o := EnsureDockerInstalledRemote(ex, host);
      if o.Failed? {
        return;
      }
      ghost var h := ex.log;
      o := DeployRemotely(ex, host, config);
      AppendAssoc(hist0, EnsureRemoteRun(ex.respond, hist0, host).issued, DeployRemotelyRun(ex.respond, h, host, config).issued);
    }
  }

  // ---------------------------------------------------------------------------
  // Every host

  function HostStep(respond: Respond, config: Config): Step<Host> {
    (h: seq<Invocation>, host: Host) => DeployToHostRun(respond, h, host, config)
  }

  /** `deploy_to_all_hosts` of src/main.rs: hosts in turn, stopping at the
      first failing one. */
  function DeployToAllHostsRun(respond: Respond, hist: seq<Invocation>, config: Config): Run<Outcome> {
    Summarise(RunAll(HostStep(respond, config), hist, config.hosts, true))
  }

  /** The host loop of `main`: every host is attempted whatever happened
      before; the outcome of each is reported. */
  function HostLoopRuns(respond: Respond, hist: seq<Invocation>, config: Config): seq<Run<Outcome>> {
    RunAll(HostStep(respond, config), hist, config.hosts, false)
  }

  /** `deploy_to_all_hosts` stops at the first failing host, while the loop in
      `main` attempts every host, each after the ones before it; both report
      the same first failure, and the stopping version issues a prefix of what
      the loop issues. */
  lemma AllHostsVersusHostLoop(respond: Respond, hist: seq<Invocation>, config: Config)
    ensures var stopped := RunAll(HostStep(respond, config), hist, config.hosts, true);
      var loop := HostLoopRuns(respond, hist, config);
      var r := DeployToAllHostsRun(respond, hist, config);
      && (forall k :: 0 <= k < |stopped| - 1 ==> stopped[k].result.Done?)
      && (|stopped| < |config.hosts| ==> stopped[|stopped| - 1].result.Failed?)
      && |loop| == |config.hosts|
      && (forall k :: 0 <= k < |loop| ==>
            loop[k] == DeployToHostRun(respond, hist + Issued(loop[..k]), config.hosts[k], config))
      && r.result == FirstError(Outcomes(loop))
      && |r.issued| <= |Issued(loop)| && Issued(loop)[..|r.issued|] == r.issued
  {
    var step := HostStep(respond, config);
    RunAllStopsAtFirstFailure(step, hist, config.hosts);
    StoppingSummary(step, hist, config.hosts);
    HostLoopAttemptsEvery(respond, hist, config);
  }

  /** The loop in `main` deploys to every host, each after the ones before it. */
  lemma HostLoopAttemptsEvery(respond: Respond, hist: seq<Invocation>, config: Config)
    ensures var loop := HostLoopRuns(respond, hist, config);
      && |loop| == |config.hosts|
      && (forall k :: 0 <= k < |loop| ==>
            loop[k] == DeployToHostRun(respond, hist + Issued(loop[..k]), config.hosts[k], config))
  {
    var step := HostStep(respond, config);
    var loop := HostLoopRuns(respond, hist, config);
    RunAllRunsEveryUnit(step, hist, config.hosts);
    forall k | 0 <= k < |loop|
      ensures loop[k] == DeployToHostRun(respond, hist + Issued(loop[..k]), config.hosts[k], config)
    {
      RunAllSeesHistory(step, hist, config.hosts, false, k);
    }
  }

  method DeployToAllHosts(ex: Executor, config: Config) returns (o: Outcome)
    modifies ex
    ensures var r := DeployToAllHostsRun(ex.respond, old(ex.log), config);
      o == r.result && ex.log == old(ex.log) + r.issued
  {
    var hosts := config.hosts;
    ghost var step := HostStep(ex.respond, config);
    ghost var hist0 := ex.log;
    ghost var done: seq<Run<Outcome>> := [];
    var k := 0;
    while k < |hosts|
      invariant 0 <= k <= |hosts|
      invariant ex.log == hist0 + Issued(done)
      invariant FirstError(Outcomes(done)) == Done
      invariant RunAll(step, hist0, hosts, true) == done + RunAll(step, ex.log, hosts[k..], true)
    {
      RunAllNext(step, hist0, hosts, true, done, ex.log, hosts[k..]);
      ghost var r := step(ex.log, hosts[k]);
      var result := DeployToHost(ex, hosts[k], config);
      assert hosts[k..][1..] == hosts[k + 1..];
      if result.Failed? {
        return result;
      }
      done := done + [r];
      k := k + 1;
    }
    RunAllEnd(step, hist0, hosts, true, done, ex.log, hosts[k..]);
    o := Done;
  }

  /** The host loop of `main`, returning what it reports for each host. */
  method DeployEveryHost(ex: Executor, config: Config) returns (outcomes: seq<Outcome>)
    modifies ex
    ensures var runs := HostLoopRuns(ex.respond, old(ex.log), config);
      outcomes == Outcomes(runs) && ex.log == old(ex.log) + Issued(runs)
  {
    var hosts := config.hosts;
    ghost var step := HostStep(ex.respond, config);
    ghost var hist0 := ex.log;
    ghost var done: seq<Run<Outcome>> := [];
    outcomes := [];
    var k := 0;
    while k < |hosts|
      invariant 0 <= k <= |hosts|
      invariant ex.log == hist0 + Issued(done)
      invariant outcomes == Outcomes(done)
      invariant RunAll(step, hist0, hosts, false) == done + RunAll(step, ex.log, hosts[k..], false)
    {
      RunAllNext(step, hist0, hosts, false, done, ex.log, hosts[k..]);
      ghost var r := step(ex.log, hosts[k]);
      var result := DeployToHost(ex, hosts[k], config);
      assert hosts[k..][1..] == hosts[k + 1..];
      done := done + [r];
      outcomes := outcomes + [result];
      k := k + 1;
    }
    RunAllEnd(step, hist0, hosts, false, done, ex.log, hosts[k..]);
  }
}
