/** Running one command on a remote host through `sh -c "<ssh command> '<escaped command>'"`:
    the SSH half of src_old/deployment/system_api.rs. The remote steps of
    src/docker_api.rs call `crate::system_api::run_ssh_command`; src/system_api.rs
    is not part of this model, and this model takes that call to reach the
    escaping `run_ssh_command` of src_old/deployment/system_api.rs. */
module SystemApiSsh {
  import opened Wrappers
  import opened Strings
  import opened Decimal
  import opened Exec
  import opened Config
  import Shell

  /** `host.ssh_port.map_or(String::new(), |port| format!("-p {}", port))`. */
  function PortOption(port: Option<U16>): string {
    if port.Some? then "-p " + NatToDecimal(port.value) else ""
  }

  /** The option that turns off the host-key prompt. */
  const HostKeyWords: seq<string> := ["-o", "StrictHostKeyChecking=no"]

  /** `build_ssh_command`: `sshpass` with the password on its command line for
      password authentication, `ssh -i <key>` for key authentication. The
      trailing `-o StrictHostKeyChecking=no` is written as `HostKeyWords`
      joined by a blank. */
  function BuildSshCommand(host: Host): string {
    match host.authMethod
    case Password(password) =>
      "sshpass -p " + password + " ssh " + PortOption(host.sshPort) + " " + host.username + "@" + host.address
      + " " + Unwords(HostKeyWords)
    case Key(keyPath) =>
      "ssh -i " + keyPath + " " + PortOption(host.sshPort) + " " + host.username + "@" + host.address
  }

  function PortArgs(port: Option<U16>): seq<string> {
    if port.Some? then ["-p", NatToDecimal(port.value)] else []
  }

  /** The argument vector the command line is meant to start: the port flag
      only when a port is configured, the password as the argument of
      `sshpass -p`, the key as the argument of `ssh -i`. */
  function SshArgv(host: Host): seq<string> {
    match host.authMethod
    case Password(password) =>
      ["sshpass", "-p", password, "ssh"] + PortArgs(host.sshPort)
      + [host.username + "@" + host.address] + HostKeyWords
    case Key(keyPath) =>
      ["ssh", "-i", keyPath] + PortArgs(host.sshPort) + [host.username + "@" + host.address]
  }

  /** The credential, user name and address hold only characters the shell
      takes literally (`Shell.IsPlain`), and the credential is not empty. The
      fixed words of the line hold no character the shell interprets either,
      so `sh -c` splits such a line into words exactly at its blanks and
      expands nothing: `Fields` is the shell's own split of it. */
  predicate PlainHost(host: Host) {
    Shell.PlainText(host.username) && Shell.PlainText(host.address)
    && match host.authMethod
       case Password(p) => p != [] && Shell.PlainText(p)
       case Key(k) => k != [] && Shell.PlainText(k)
  }

  /** Plain text holds no blank. */
  lemma PlainTextNoBlank(s: string)
    requires Shell.PlainText(s)
    ensures ' ' !in s
  {
    forall k | 0 <= k < |s| ensures s[k] != ' ' {
      assert Shell.IsPlain(s[k]);
    }
  }

  lemma PortOptionWords(port: Option<U16>)
    ensures Fields(PortOption(port)) == PortArgs(port)
  {
    if port.Some? {
      var d := NatToDecimal(port.value);
      assert IsWord(d);
      FieldsUnwords(["-p", d]);
      UnwordsCons("-p", [d]);
      assert PortOption(port) == Unwords(["-p", d]);
    } else {
      assert PortOption(port) == [];
    }
  }

  lemma UserAtAddressIsWord(user: string, address: string)
    requires ' ' !in user && ' ' !in address
    ensures IsWord(user + "@" + address)
  {
    var ua := user + "@" + address;
    forall k | 0 <= k < |ua| ensures ua[k] != ' ' {
      if k < |user| { assert ua[k] == user[k]; }
      else if k > |user| { assert ua[k] == address[k - |user| - 1]; }
    }
  }

  function PasswordWords(password: string): seq<string> { ["sshpass", "-p", password, "ssh"] }
  function TrailingWords(host: Host): seq<string> { [host.username + "@" + host.address] + HostKeyWords }

  lemma PasswordWordsLine(pw: string)
    ensures Unwords(PasswordWords(pw)) == "sshpass -p " + pw + " ssh"
  {
    UnwordsCons(pw, ["ssh"]);
    UnwordsCons("-p", [pw, "ssh"]);
    UnwordsCons("sshpass", ["-p", pw, "ssh"]);
    assert PasswordWords(pw) == ["sshpass"] + ["-p", pw, "ssh"];
  }

  lemma TrailingWordsLine(host: Host)
    ensures Unwords(TrailingWords(host)) == host.username + "@" + host.address + " " + Unwords(HostKeyWords)
  {
    UnwordsCons(host.username + "@" + host.address, HostKeyWords);
  }

  lemma PasswordLine(host: Host)
    requires host.authMethod.Password?
    ensures BuildSshCommand(host)
         == Unwords(PasswordWords(host.authMethod.password)) + " "
            + (PortOption(host.sshPort) + " " + Unwords(TrailingWords(host)))
  {
    PasswordWordsLine(host.authMethod.password);
    TrailingWordsLine(host);
  }

  lemma KeyLine(host: Host)
    requires host.authMethod.Key?
    ensures BuildSshCommand(host)
         == Unwords(["ssh", "-i", host.authMethod.keyPath]) + " "
            + (PortOption(host.sshPort) + " " + Unwords([host.username + "@" + host.address]))
  {
    var key := host.authMethod.keyPath;
    UnwordsCons("-i", [key]);
    UnwordsCons("ssh", ["-i", key]);
    assert ["ssh", "-i", key] == ["ssh"] + ["-i", key];
  }

  /** For a host whose fields the shell takes literally, the words `sh -c`
      makes of the command line are exactly the intended argument vector. */
  lemma BuildSshCommandWords(host: Host)
    requires PlainHost(host)
    ensures Fields(BuildSshCommand(host)) == SshArgv(host)
  {
    PlainTextNoBlank(host.username);
    PlainTextNoBlank(host.address);
    PlainTextNoBlank(if host.authMethod.Password? then host.authMethod.password else host.authMethod.keyPath);
    UserAtAddressIsWord(host.username, host.address);
    PortOptionWords(host.sshPort);
    if host.authMethod.Password? {
      PasswordLine(host);
      FieldsAround(PasswordWords(host.authMethod.password), PortOption(host.sshPort), TrailingWords(host),
        BuildSshCommand(host));
    } else {
      KeyLine(host);
      FieldsAround(["ssh", "-i", host.authMethod.keyPath], PortOption(host.sshPort),
        [host.username + "@" + host.address], BuildSshCommand(host));
    }
  }

  /** The shell line of `run_ssh_command`: the SSH command followed by the
      command, escaped and single-quoted. */
  function FullCommand(host: Host, command: string): string {
    BuildSshCommand(host) + " " + Shell.Quote(command)
  }

  /** Whatever the command holds, the word after the SSH prefix is read by the
      shell as exactly that command. */
  lemma FullCommandQuotesCommand(host: Host, command: string)
    ensures var full := FullCommand(host, command);
      var n := |BuildSshCommand(host)| + 1;
      n <= |full| && full[..n] == BuildSshCommand(host) + " "
      && Shell.ReadWord(full[n..]) == Some(command)
  {
    var full := FullCommand(host, command);
    var n := |BuildSshCommand(host)| + 1;
    assert full[..n] == BuildSshCommand(host) + " ";
    assert full[n..] == Shell.Quote(command);
    Shell.QuoteRoundTrip(command);
  }

  function SshInvocation(host: Host, command: string): Invocation {
    Invocation("sh", ["-c", FullCommand(host, command)])
  }

  /** What `run_ssh_command` makes of the process's report: its standard
      output on a successful exit; otherwise an error carrying both captured
      streams, or the spawn error. */
  function SshResult(out: CmdOutput): (r: Result<string>)
    ensures r.Ok? <==> ExitedOk(out)
    ensures r.Ok? ==> r.value == out.stdout
    ensures out.Exited? && !out.success ==> Contains(r.error, out.stdout) && Contains(r.error, out.stderr)
    ensures out.SpawnError? ==> Contains(r.error, out.reason)
  {
    match out
    case SpawnError(e) =>
      ContainsInfix("Failed to execute SSH command: ", e, "");
      assert "Failed to execute SSH command: " + e + "" == "Failed to execute SSH command: " + e;
      Err("Failed to execute SSH command: " + e)
    case Exited(success, stdout, stderr) =>
      if success then Ok(stdout)
      else
        var msg := "Command failed: " + stdout + "\nStderr: " + stderr;
        ContainsInfix("Command failed: ", stdout, "\nStderr: " + stderr);
        ContainsInfix("Command failed: " + stdout + "\nStderr: ", stderr, "");
        assert "Command failed: " + stdout + ("\nStderr: " + stderr) == msg;
        assert "Command failed: " + stdout + "\nStderr: " + stderr + "" == msg;
        Err(msg)
  }

  /** `run_ssh_command(command, host)`. */
  method RunSshCommand(ex: Executor, command: string, host: Host) returns (r: Result<string>)
    modifies ex
    ensures ex.log == old(ex.log) + [SshInvocation(host, command)]
    ensures r == SshResult(ex.respond(old(ex.log), SshInvocation(host, command)))
  {
    var out := ex.Spawn(SshInvocation(host, command));
    r := SshResult(out);
  }

  function SshInvoker(host: Host): string -> Invocation {
    (command: string) => SshInvocation(host, command)
  }

  /** A command's verdict as a deployment step: `run_ssh_command(..)?`. */
  function SshVerdict(out: CmdOutput): (o: Outcome)
    ensures o.Done? <==> ExitedOk(out)
  {
    OutcomeOf(SshResult(out))
  }

  /** Running one command as a step of a sequence that stops on the first
      failing command. */
  function SshStep(respond: Respond, host: Host): Step<string> {
    CommandStep(respond, SshInvoker(host), SshVerdict)
  }

  lemma SshStepAt(respond: Respond, host: Host, h: seq<Invocation>, command: string)
    ensures var inv := SshInvocation(host, command);
      SshStep(respond, host)(h, command) == Run(SshVerdict(respond(h, inv)), [inv])
  {
  }
}
