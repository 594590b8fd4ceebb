/** The agent endpoints of src/routes/agent_routes.rs: the agent report
    built from the Docker engine's information and the host's memory and
    disk figures, and the health check. */
module AgentRoutes {
  import opened Wrappers
  import opened Decimal

  /** What the Docker engine reports about itself, as far as the report
      uses it. */
  datatype DockerInfo = DockerInfo(
    serverVersion: Option<string>,
    operatingSystem: Option<string>,
    architecture: Option<string>)

  /** Memory figures in KiB. */
  datatype MemInfo = MemInfo(total: U64, free: U64, avail: U64, buffers: U64, cached: U64, swapTotal: U64, swapFree: U64)

  /** Disk figures in KiB. */
  datatype DiskInfo = DiskInfo(total: U64, free: U64)

  datatype SystemResources = SystemResources(
    cpuCount: nat,
    memoryTotal: U64,
    memoryAvailable: U64,
    diskTotal: U64,
    diskAvailable: U64)

  datatype AgentInfo = AgentInfo(
    id: string,
    name: string,
    version: string,
    platform: string,
    instanceCount: nat,
    status: string,
    resources: SystemResources)

  /** What the handler reads from the host besides the engine: a fresh id,
      the host name, the number of CPUs, the memory and disk figures when
      they can be read, and the number of managed instances. */
  datatype Host = Host(
    freshId: string,
    hostName: string,
    cpus: nat,
    memory: Option<MemInfo>,
    disk: Option<DiskInfo>,
    instances: nat)

  const Unknown: string := "unknown"

  /** `n * 1024` on `u64` as a release build computes it: modulo 2^64. */
  function KiBToBytes(n: U64): (b: U64)
    ensures n < 0x40_0000_0000_0000 ==> b == n * 1024
    ensures n == 0 ==> b == 0
  {
    (n * 1024) % 0x1_0000_0000_0000_0000
  }

  function OrDefault(s: Option<string>): string {
    if s.Some? then s.value else ""
  }

  /** `get_agent_info`, on the engine's answer. */
  function GetAgentInfo(info: Result<DockerInfo>, host: Host): AgentInfo {
    if info.Err? then
      AgentInfo(host.freshId, host.hostName, Unknown, Unknown, host.instances, "degraded",
        SystemResources(host.cpus, 0, 0, 0, 0))
    else
      var mem := if host.memory.Some? then host.memory.value else MemInfo(0, 0, 0, 0, 0, 0, 0);
      var disk := if host.disk.Some? then host.disk.value else DiskInfo(0, 0);
      var d := info.value;
      AgentInfo(host.freshId, host.hostName, OrDefault(d.serverVersion),
        OrDefault(d.operatingSystem) + " / " + OrDefault(d.architecture),
        host.instances, "healthy",
        SystemResources(host.cpus, KiBToBytes(mem.total), KiBToBytes(mem.avail), KiBToBytes(disk.total), KiBToBytes(disk.free)))
  }

  /** When the engine cannot be reached the agent reports itself degraded,
      with unknown version and platform and every memory and disk figure 0. */
  lemma DegradedReport(info: Result<DockerInfo>, host: Host)
    requires info.Err?
    ensures var a := GetAgentInfo(info, host);
      && a.status == "degraded" && a.version == Unknown && a.platform == Unknown
      && a.resources.memoryTotal == 0 && a.resources.memoryAvailable == 0
      && a.resources.diskTotal == 0 && a.resources.diskAvailable == 0
      && a.instanceCount == host.instances
  {
  }

  /** Otherwise it reports itself healthy; each byte figure is the matching
      KiB figure times 1024 (total and available memory, total and free
      disk), or 0 when the figures cannot be read; the version is the
      engine's (empty when it has none), and the platform is the operating
      system and the architecture around " / ". */
  lemma HealthyReport(info: Result<DockerInfo>, host: Host)
    requires info.Ok?
    ensures var a := GetAgentInfo(info, host);
      var r := a.resources;
      && a.status == "healthy"
      && a.instanceCount == host.instances
      && (host.memory.Some? ==>
            r.memoryTotal == KiBToBytes(host.memory.value.total) && r.memoryAvailable == KiBToBytes(host.memory.value.avail))
      && (host.memory.None? ==> r.memoryTotal == 0 && r.memoryAvailable == 0)
      && (host.disk.Some? ==>
            r.diskTotal == KiBToBytes(host.disk.value.total) && r.diskAvailable == KiBToBytes(host.disk.value.free))
      && (host.disk.None? ==> r.diskTotal == 0 && r.diskAvailable == 0)
      && a.version == OrDefault(info.value.serverVersion)
      && a.platform == OrDefault(info.value.operatingSystem) + " / " + OrDefault(info.value.architecture)
  {
  }

  /** Figures below 2^54 KiB convert without wrapping; from there on the
      multiplication wraps modulo 2^64, and 2^54 KiB is reported as 0. */
  lemma KiBWrapsAt()
    ensures KiBToBytes(0x3F_FFFF_FFFF_FFFF) == 0xFFFF_FFFF_FFFF_FC00
    ensures KiBToBytes(0x40_0000_0000_0000) == 0
  {
  }

  /** `health_check`: the same text on every call. */
  function HealthCheck(): string {
    "App Manager is healthy"
  }
}
