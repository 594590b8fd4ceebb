# Horizon Maestro deployment core, modelled in Dafny

Horizon Maestro deploys game-server containers. For every configured host it
first makes sure Docker is installed, locally or over SSH. It then pulls,
replaces and starts every configured container, one or several instances
each. Next to that deployment path the repository has a few HTTP and socket
handlers, and this project models those too:

- the child-server registration of the socket server;
- the removal of a server when its socket disconnects;
- the paginated `GET /servers` endpoint;
- the Docker network endpoints;
- the agent report.

The project models:

- **Deployment over an external command runner** (`Exec`, `DockerApi`,
  `SystemApiSsh`, `SystemApi`, `Maestro`).
  - Every external process (`docker`, `curl`, `sh`, `sh -c "ssh …"`) is an
    `Invocation`.
  - What the process reports back (a spawn error, or exit status, stdout and
    stderr) is given by an oracle `respond(history, invocation)`. The oracle
    may depend on everything issued before.
  - The `Executor` class keeps the log of issued invocations. Every deployment
    method is proved against a function `…Run` that gives its outcome and the
    exact invocations it issues, in order.
  - Lemmas then state what the deployment promises:
    - which commands go out, and when installation happens;
    - stopping at the first failure;
    - every instance being attempted;
    - the local and remote dispatch;
    - the two `parallel_containers` settings agreeing.
- **SSH command lines.** Both versions of `build_ssh_command` are modelled,
  and for hosts whose fields hold only characters the shell takes
  literally, the words `sh -c` makes of the line are the intended argument
  vector. Shell quoting is modelled as well:
  - the older `run_ssh_command` escapes the command and the shell reads it
    back exactly;
  - the newer one wraps it in single quotes without escaping, so it reads
    back exactly when the command holds no single quote. The `docker ps`
    command and every doubly wrapped command of the newer remote path are
    therefore not read back as written.
- **The tally** of per-host results and the figures of the deployment summary.
- **Socket handlers.** `IPAddress::from_string` (split at `:`, a 16-bit port)
  and the authentication message that appends a child server to the shared
  registry (a class). `on_disconnect` removes the first server on the
  disconnecting socket from the shared list (a class).
- **HTTP routes.**
  - Pagination of `GET /servers` with its unsigned 32-bit offset arithmetic.
  - The network endpoints: listing keeps only complete networks and complete
    container entries; creating defaults its options; the messages of
    delete, connect and disconnect.
  - The agent report (healthy or degraded, KiB to bytes on `u64`) and the
    health check.

Unsigned arithmetic wraps as a release build computes it:

- the page offset, modulo 2^32;
- the byte figures, modulo 2^64.

## Model

| member | source | states |
|---|---|---|
| Exec.Executor.Spawn | src/docker_api.rs:15-18 | Spawning a process appends its invocation to the log and returns the environment's answer given the log before it |
| Exec.RunAllStopsAtFirstFailure | src/docker_api.rs:194-200 | In-turn execution runs items in order; every run before the last succeeded, and it ends early only on a failure |
| Exec.StoppingIsPrefix | src/docker_api.rs:170-200 | The runs made when stopping at the first failure are a prefix of the runs made when every item is attempted |
| Exec.PoliciesAgreeOnOutcome | src/docker_api.rs:185-199 | Scanning every result for the first error and stopping at the first error give the same outcome |
| Exec.StoppingSummary | src/docker_api.rs:170-200 | The two policies give the same outcome, and the stopping one issues a prefix of the invocations of the other |
| Exec.CommandSequence | src/docker_api.rs:288-294 | A command list run with `?`: the first n commands are issued in order, all before the last succeeded, it stops only on a failure whose verdict is the outcome, and it succeeds iff every command succeeds |
| DockerApi.InstallLocalDecides | src/docker_api.rs:61-93 | The script is run only after a successful download, and it is exactly the downloaded text; installation succeeds iff both processes exit successfully |
| DockerApi.EnsureLocalDecides | src/docker_api.rs:12-31 | `docker --version` goes first; success ends there, otherwise the outcome and further commands are the local installation's |
| DockerApi.InstallDockerLocal | src/docker_api.rs:61-93 | The method's outcome and issued invocations are those of the local installation |
| DockerApi.EnsureDockerInstalledLocal | src/docker_api.rs:12-31 | The method's outcome and issued invocations are those of the local check |
| DockerApi.InstallRemoteDecides | src/docker_api.rs:103-121 | One SSH command is issued; success iff it exits successfully and its output contains "Docker installed successfully" |
| DockerApi.EnsureRemoteDecides | src/docker_api.rs:42-54 | The probe goes first; installation follows iff the probe succeeds and its output contains "Docker not found"; success iff the probe succeeds and, when it reports Docker missing, the installation succeeds |
| DockerApi.InstallDockerRemote | src/docker_api.rs:103-121 | The method's outcome and issued invocations are those of the remote installation |
| DockerApi.EnsureDockerInstalledRemote | src/docker_api.rs:42-54 | The method's outcome and issued invocations are those of the remote check |
| DockerApi.InstanceNameInjective | src/docker_api.rs:273 | Distinct (container name, instance) pairs give distinct `name-instance` names |
| DockerApi.RemoteInstanceSequence | src/docker_api.rs:272-297 | One instance issues a prefix of pull, rm -f, run, ps; all before the last succeeded; an early stop is a failure whose SSH error is the outcome; success iff all four succeed |
| DockerApi.RemoteRemoveFailureIsTerminal | src/docker_api.rs:275-294 | A failing `docker rm -f` ends a remote instance with its error after two commands |
| DockerApi.RemoteSuccessIgnoresListing | src/docker_api.rs:275-294 | When all four commands exit successfully the instance counts as deployed, whatever `docker ps` prints |
| DockerApi.RunSshCommandsInTurn | src/docker_api.rs:288-294 | The loop's outcome and issued invocations are those of the command list run with `?` |
| DockerApi.DeployContainerRemotely | src/docker_api.rs:272-297 | The method's outcome and issued invocations are those of one remote instance |
| DockerApi.UnitsLayout | src/docker_api.rs:171-183 | The instance list has containers × instances entries; instance i of container ci sits at ci·n + i |
| DockerApi.NoInstancesNoCommands | src/docker_api.rs:170-200 | With zero instances nothing is issued and remote deployment succeeds |
| DockerApi.ParallelRunsEveryInstance | src/docker_api.rs:170-193 | Parallel mode runs one task per (container, instance), in that layout, and the outcome is the first failure in spawn order |
| DockerApi.SequentialStopsAtFirstFailure | src/docker_api.rs:194-200 | Sequential mode attempts instances in order, all before the last succeeded, and stops early only on a failure |
| DockerApi.ParallelSettingKeepsOutcome | src/docker_api.rs:170-200 | `parallel_containers` does not change the outcome; sequential issues a prefix of what parallel issues |
| DockerApi.InstancesInTurn | src/docker_api.rs:196-198 | The inner sequential loop does exactly the in-turn run of one container's instances |
| DockerApi.DeployInstancesInTurn | src/docker_api.rs:194-200 | The sequential branch does exactly the in-turn run of every instance of every container |
| DockerApi.InstanceTasks | src/docker_api.rs:174-181 | The tasks for one container's instances each run to completion; their outcomes are collected in order |
| DockerApi.RunInstanceTasks | src/docker_api.rs:171-185 | The parallel branch runs a task for every instance of every container and collects the outcomes in spawn order |
| DockerApi.ScanResults | src/docker_api.rs:187-193 | The scan returns the first failure in order, or success when there is none |
| DockerApi.DeployRemotely | src/docker_api.rs:167-204 | The method's outcome and issued invocations are those of the remote deployment in the configured mode |
| DockerApi.LocalContainerDecides | src/docker_api.rs:214-260 | A failed pull or run ends local deployment with its error; the reply to rm -f is not looked at; success iff the trimmed `docker ps` output equals the container name |
| DockerApi.LocalRemoveReplyIgnored | src/docker_api.rs:226-229 | Environments that differ only in how they answer `docker rm -f` give the same local deployment |
| DockerApi.DeployContainerLocally | src/docker_api.rs:214-260 | The method's outcome and issued invocations are those of one local container |
| DockerApi.DeployLocallyAttemptsAll | src/docker_api.rs:131-156 | Every container gets its own task, started on its own configuration entry after the earlier ones; the outcome is the first failure in configuration order |
| DockerApi.ContainerTasks | src/docker_api.rs:134-144 | One task per container in configuration order, each the full local deployment of its own entry started after the earlier ones; the joined outcomes come back in spawn order |
| DockerApi.DeployLocally | src/docker_api.rs:131-156 | The method's outcome and issued invocations are those of the task-based local deployment |
| SystemApiSsh.BuildSshCommandWords | src_old/deployment/system_api.rs:162-175 | When user name, address and credential hold only characters the shell takes literally, the words `sh -c` makes of the line are the intended argument vector: sshpass with the password, or `ssh -i key`, then `-p N` only with a port |
| SystemApiSsh.FullCommandQuotesCommand | src_old/deployment/system_api.rs:134-136 | After the SSH prefix, the shell reads the escaped, quoted word back as exactly the command, whatever it holds |
| SystemApiSsh.SshResult | src_old/deployment/system_api.rs:138-152 | Ok iff the process exited successfully, with its stdout; a failure message contains both captured streams; a spawn failure message contains the error |
| SystemApiSsh.RunSshCommand | src_old/deployment/system_api.rs:132-153 | One `sh -c` invocation is issued, and the result is judged by the rules above |
| SystemApiSsh.SshVerdict | src_old/deployment/system_api.rs:138-152 | As a deployment step, a command succeeds iff its process exited successfully |
| Shell.QuoteRoundTrip | src_old/deployment/system_api.rs:135 | Escaping each `'` as `'"'"'` and single-quoting reads back as the original command |
| Shell.UnescapedQuoteReadsBackIff | src/main.rs:353 | Single-quoting without escaping reads back as the command iff the command holds no single quote |
| SystemApi.DeployToHostDispatch | src_old/deployment/system_api.rs:53-65 | The local path is taken iff the address is "localhost"; the check comes first; a failed check is the outcome with nothing deployed; after a successful check the deployment decides |
| SystemApi.DeployToHost | src_old/deployment/system_api.rs:53-65 | The method's outcome and issued invocations are those of `deploy_to_host` |
| SystemApi.AllHostsOneResultEach | src_old/deployment/system_api.rs:29-42 | One task per host in host order, each deploying to its own host after the earlier ones; a failure does not stop the rest |
| SystemApi.DeployToAllHosts | src_old/deployment/system_api.rs:29-42 | The method returns one joined result per host, in order, with that host's outcome, and issues what the tasks issue |
| SystemApi.CountsPartition | src_old/deployment/system_api.rs:74-96 | Successes plus failures (failed deployments and panicked tasks) equal the number of results |
| SystemApi.ProcessDeploymentResults | src_old/deployment/system_api.rs:74-96 | total is the number of results; successful counts the joined successful ones; total − successful is the failure count |
| SystemApi.SummaryFigures | src_old/deployment/system_api.rs:104-121 | The summary's successful and failed figures add up to the total (the partner lemma SummaryOfTally ties them to the tally) |
| SystemApi.SummaryOfTally | src_old/deployment/system_api.rs:104-121 | For a tally of task results, the printed figures are the successes, the failures (failed deployments and panicked tasks alike) and the number of results |
| SystemApi.TallyOfAllHosts | src_old/deployment/system_api.rs:74-96 | Tallying `deploy_to_all_hosts` counts as successful exactly the hosts whose deployment succeeded |
| Maestro.KeyFormShared | src/main.rs:335-348 | For key authentication the newer and older `build_ssh_command` give the same line |
| Maestro.PasswordFormWords | src/main.rs:336-341 | When user name and address hold only characters the shell takes literally, the words `sh -c` makes of the password-form line are into exactly `ssh -o BatchMode=no -o StrictHostKeyChecking=no`, `-p N` when a port is set, and `user@addr`: the password never appears on it |
| Maestro.BuildSshCommandWords | src/main.rs:335-348 | When user name, address and key path hold only characters the shell takes literally, the words `sh -c` makes of the line are `ssh -o BatchMode=no -o StrictHostKeyChecking=no [-p N] user@addr`, with no credential on it, or the key form |
| Maestro.QuotedCommandReadsBackIff | src/main.rs:351-353 | After the SSH prefix, the quoted word reads back as the command iff the command holds no single quote |
| Maestro.ListCommandMisread | src/main.rs:213-228 | The `docker ps --format '{{.Names}}'` command is not read back as written |
| Maestro.RunSshCommand | src/main.rs:351-384 | One `sh -c` invocation of the unescaped line is issued; the result is Ok with stdout iff the process exited successfully |
| Maestro.WrappedMisread | src/main.rs:227-228 | A command wrapped by the caller and again by `run_ssh_command` is never read back as the caller's text |
| Maestro.InstallRemoteDecides | src/main.rs:316-332 | One doubly wrapped command is issued; success iff it exits successfully and its output has no "ERROR" |
| Maestro.EnsureRemoteDecides | src/main.rs:241-256 | Installation runs iff `docker --version` succeeds with empty output; success iff the probe succeeds and, if its output was empty, the installation succeeds |
| Maestro.InstallDockerRemote | src/main.rs:316-332 | The method's outcome and issued invocations are those of the remote installation |
| Maestro.EnsureDockerInstalledRemote | src/main.rs:241-256 | The method's outcome and issued invocations are those of the remote check |
| Maestro.ContainerCommandsLayout | src/main.rs:211-224 | The command list holds four commands per container, in configuration order, with that container's pull, rm -f, run, ps at 4·ci … 4·ci+3 |
| Maestro.DeployRemotelySequence | src/main.rs:207-238 | Commands go out in order, each doubly wrapped; it stops at the first failure, whose error is the outcome; success iff every command of every container succeeds |
| Maestro.RunWrappedInTurn | src/main.rs:226-230 | The inner loop's outcome and issued invocations are those of the wrapped commands run with `?` |
| Maestro.DeployRemotely | src/main.rs:207-238 | The method's outcome and issued invocations are those of the remote deployment |
| Maestro.DeployLocallyInTurn | src/main.rs:148-204 | Containers are attempted in order by the local container rules, each after the earlier ones; all but the last succeeded; an early stop is a failure |
| Maestro.DeployLocallyAgreesWithTasks | src/main.rs:148-204 | In-turn local deployment has the outcome of the task-based one and issues a prefix of what it issues |
| Maestro.DeployLocally | src/main.rs:148-204 | The method's outcome and issued invocations are those of in-turn local deployment |
| Maestro.DeployToHostDispatch | src/main.rs:387-398 | The local path is taken iff the address is "localhost"; the check comes first; a failed check is the outcome with nothing deployed; after a successful check the outcome is the local deployment's for "localhost" and the remote one's otherwise, started after the check and issuing its invocations after the check's |
| Maestro.DeployToHost | src/main.rs:387-398 | The method's outcome and issued invocations are those of `deploy_to_host` |
| Maestro.AllHostsVersusHostLoop | src/main.rs:401-406 | `deploy_to_all_hosts` stops at the first failing host while the loop in `main` attempts every host; both report the same first failure, and the stopping one issues a prefix |
| Maestro.HostLoopAttemptsEvery | src/main.rs:441-446 | The loop in `main` deploys to every host, in order, each after the ones before it |
| Maestro.DeployToAllHosts | src/main.rs:401-406 | The method's outcome and issued invocations are those of hosts in turn, stopping at the first failure |
| Maestro.DeployEveryHost | src/main.rs:441-446 | The loop in `main` returns one outcome per host, each that host's deployment after the earlier ones |
| Decimal.ParseU16 | src/handlers/init_handlers.rs:38 | `parse::<u16>` accepts a text iff it is an optional `+` followed by one or more digits whose value is below 65536, and returns that value |
| Decimal.ParseU16Lenient | src/handlers/init_handlers.rs:38 | A leading zero or a leading `+` in front of a port's decimal text still parses as that port |
| Decimal.PortRoundTrip | src/handlers/init_handlers.rs:38 | Every port, printed in decimal, parses back to itself |
| InitHandlers.ShapeNeedsOneColon | src/handlers/init_handlers.rs:33-36 | Input is refused for its shape iff it does not hold exactly one ':' |
| InitHandlers.ParsedSplitsInput | src/handlers/init_handlers.rs:32-40 | A parsed address is the input split at its only ':' into an address the library accepts and a port text that parses to the port |
| InitHandlers.FromStringRoundTrip | src/handlers/init_handlers.rs:32-40 | `address:port` for an accepted colon-free address reads back as that address and port |
| InitHandlers.PortTooLarge | src/handlers/init_handlers.rs:38 | A port of 65536 or more is refused |
| InitHandlers.AuthenticateDecides | src/handlers/init_handlers.rs:91-114 | Accepted iff all five fields have their kinds and the parent address parses, carrying those values and the socket; "Invalid authentication data" iff a field is missing; "Invalid parent address format" iff only the address fails |
| InitHandlers.ChildRegistry.HandleAuthChildServer | src/handlers/init_handlers.rs:91-114 | An accepted server is appended and "authSuccess" is emitted; a refusal leaves the registry unchanged and emits "authFailed" with the reason |
| InitHandlers.RegistrationOnlyAppends | src/handlers/init_handlers.rs:101-108 | A message never drops or reorders registered servers; the registry grows by one iff the message is accepted |
| Servers.Position | src/servers.rs:12 | The position found holds an entry on the socket, and no earlier entry is on it |
| Servers.RemoveFirstRemovesOne | src/servers.rs:10-15 | With no entry on the socket nothing changes; otherwise exactly the first entry on it goes, order kept, one fewer on that socket |
| Servers.ServerList.FindPosition | src/servers.rs:12 | The scan returns the index of the first entry on the socket, or none |
| Servers.ServerList.OnDisconnect | src/servers.rs:10-15 | The list becomes the old list without its first entry on the socket |
| ServersRoute.SubU32 | api/routes/servers.rs:28 | `page - 1` on u32 is exact when page ≥ 1 and wraps by 2^32 otherwise |
| ServersRoute.PageNumber | api/routes/servers.rs:26 | A missing page is page 1 |
| ServersRoute.OffsetOfPage | api/routes/servers.rs:27-28 | Without overflow, the offset is 20 × (page − 1) |
| ServersRoute.PageZeroWraps | api/routes/servers.rs:28 | Page 0 is not refused: its offset wraps to 4294967276 |
| ServersRoute.LimitOffset | api/routes/servers.rs:31-37 | LIMIT/OFFSET returns at most limit rows, which are the table's rows from offset on, as many as remain |
| ServersRoute.ToServers | api/routes/servers.rs:39-45 | One server per row, in order, with the row's fields |
| ServersRoute.GetServersContents | api/routes/servers.rs:22-60 | At most 20 servers, copied from the rows at the offset in order, none when the query fails; the total counts all rows (0 when the count fails) whatever the page |
| ServersRoute.ConsecutivePages | api/routes/servers.rs:26-45 | Pages p and p+1 together show the rows 20(p−1) to 20(p+1) once each, in order |
| NetworkRoutes.CollectContainers | src/routes/network_routes.rs:21-33 | A container id is kept iff its entry has name, endpoint id and IPv4 address, and its info copies them |
| NetworkRoutes.ListNetworks | src/routes/network_routes.rs:11-49 | An error iff the engine fails, prefixed "Failed to list networks: " and containing the engine's error; otherwise exactly the complete networks in the engine's order (KeepComplete) |
| NetworkRoutes.KeepOne | src/routes/network_routes.rs:14-43 | A network is reported iff it has id, name, driver and scope, with those fields; a network without a container map reports none |
| NetworkRoutes.KeepConcat | src/routes/network_routes.rs:14-43 | The filter works element by element: filtering a concatenation concatenates the results |
| NetworkRoutes.KeepExactlyComplete | src/routes/network_routes.rs:14-43 | Every reported network comes from a complete input network, and every complete input network is reported |
| NetworkRoutes.CreateNetworkFields | src/routes/network_routes.rs:52-94 | The name is passed on, a missing driver becomes "" and missing labels an empty map; success iff create and inspect succeed; missing fields read back as "" |
| NetworkRoutes.CreateErrorsDistinct | src/routes/network_routes.rs:89-92 | A failed creation and a failed inspection never give the same message |
| NetworkRoutes.CreateNetworkErrors | src/routes/network_routes.rs:89-92 | A failed creation gives the creation message, and a failed inspection the inspection message, each with the engine's error |
| NetworkRoutes.DeleteNetwork | src/routes/network_routes.rs:97-102 | Ok iff the engine succeeds, naming the network; otherwise the error holds the engine's |
| NetworkRoutes.ConnectInstance | src/routes/network_routes.rs:105-115 | Ok iff the engine succeeds, naming the instance and the network; otherwise the error holds the engine's |
| NetworkRoutes.DisconnectInstance | src/routes/network_routes.rs:118-127 | Ok iff the engine succeeds, naming the instance and the network; otherwise the error holds the engine's |
| AgentRoutes.KiBToBytes | src/routes/agent_routes.rs:65-68 | KiB × 1024 on u64 is exact below 2^54 KiB |
| AgentRoutes.DegradedReport | src/routes/agent_routes.rs:16-35 | When the engine cannot be reached the report is "degraded", version and platform "unknown", every memory and disk figure 0 |
| AgentRoutes.HealthyReport | src/routes/agent_routes.rs:39-70 | Otherwise "healthy"; each byte figure is the KiB figure × 1024, or 0 when unreadable; the version is the engine's (empty when absent); the platform is exactly OS + " / " + architecture |
| AgentRoutes.KiBWrapsAt | src/routes/agent_routes.rs:65-68 | 2^54 − 1 KiB converts exactly; 2^54 KiB wraps to 0 |

## Left out

- Two call targets are outside the model and are chosen here. The remote steps of src/docker_api.rs call `crate::system_api::run_ssh_command`, but src/system_api.rs is not part of this model. The model takes that call to reach the escaping `run_ssh_command` of src_old/deployment/system_api.rs. With the unescaped quoting of src/main.rs, the `docker ps --format '{{.Names}}'` command would be misread instead (Maestro.ListCommandMisread).
- Likewise, src_old/deployment/system_api.rs calls `crate::deployment::docker`, which is not part of this model. The model takes those calls to be the functions of the same names in src/docker_api.rs.
- SystemApiSsh.BuildSshCommandWords covers hosts whose user name, address and credential hold only characters the shell takes literally. For other fields (tabs, newlines, quotes, `;`, `$`, ...) `sh -c` splits or interprets the line differently, and that is not modelled.
- Maestro.BuildSshCommandWords and Maestro.PasswordFormWords: the same restriction on the user name, address and key path.
- Process I/O is the oracle `respond`. What a command prints, whether it starts and its exit status are parameters of every deployment function.
- The password that the newer `run_ssh_command` (src/main.rs:364-371) writes to the process's standard input is not modelled. Neither is the process's interaction with `ssh`.
- Maestro.RunSshCommand: spawn failures and wait failures of src/main.rs:355-374 are one case (a process that could not be run), with one message.
- Concurrency. Parallel tasks (`tokio::spawn`, `join_all`) are modelled as each task running to completion in spawn order, followed by the in-order scan of their results. Interleavings between tasks are not modelled.
- Panicking tasks: `SystemApi.TaskResult.Panicked` exists and is counted as a failure by the tally, but no modelled task ever panics. The `Task panicked` branches of src/docker_api.rs:150 and :191 are therefore not reached.
- Coloured console output and every `println!`, including the text of `print_deployment_summary`. Only its figures are modelled, in SystemApi.SummaryFigures.
- `read_config` / `config.toml` parsing, npm detection, the dashboard build, the API server thread and the Ctrl+C wait in `main` are not modelled. The configuration is a `Config.Config` value.
- `IpAddr::from_str` is a parameter (`isIp`): which texts are IP addresses is decided outside the model.
- serde_json's conversion of a JSON number to `f64` (`as_f64`) is not modelled. A coordinate keeps the JSON number it was given. The `cpu` and `memory` columns of `GET /servers` are kept as 64-bit patterns that are only copied.
- The JSON reply bodies and HTTP status codes of the routes are not modelled. The handlers' results are modelled as values.
- The SQL engine is a sequence of rows in scan order, with a flag for each failing query.
- The Docker engine calls of the network and agent routes are parameters (their replies). So are `uuid`, `hostname`, `num_cpus`, `sys_info` and the instance count of the agent report.
- AgentRoutes.HealthCheck returns its constant text, and nothing more is stated about it.
- `ChildServer` as seen by src/servers.rs is defined at the crate root, which is not part of this model. `Servers.Entry` keeps its optional socket and treats the rest as opaque.
- Servers.ServerList.OnDisconnect requires every entry the scan passes to have a socket (`ScanSafe`). Without one, the source's `unwrap` panics, and that panic is not modelled.
- The lock (`RwLock`, `Mutex`) around the shared lists is not modelled. Each handler is one atomic update of its class.
- `HashMap` iteration order in `list_networks` is not modelled: containers are keyed by id, so it does not change the result.
- Unsigned arithmetic wraps as a release build computes it. A debug build would panic on the page-0 offset (api/routes/servers.rs:28) and on a KiB figure of 2^54 or more (src/routes/agent_routes.rs:65-68).
