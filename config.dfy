/** The deployment configuration read from `config.toml`: hosts with their SSH
    credentials, the containers to run, how many instances of each, and whether
    the instances are started as parallel tasks. */
module Config {
  import opened Wrappers
  import opened Decimal

  datatype AuthMethod = Password(password: string) | Key(keyPath: string)

  datatype Host = Host(address: string, username: string, authMethod: AuthMethod, sshPort: Option<U16>)

  datatype ContainerConfig = ContainerConfig(imageName: string, containerName: string)

  datatype Config = Config(
    hosts: seq<Host>,
    containers: seq<ContainerConfig>,
    instances: U32,
    parallelContainers: bool)

  /** The address that selects local deployment. */
  const Localhost: string := "localhost"
}
