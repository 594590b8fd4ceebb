/** The network endpoints of src/routes/network_routes.rs: listing networks,
    keeping only those with every required field; creating one with
    defaulted options and reading it back; and the answers of delete,
    connect and disconnect. The Docker engine's replies are parameters. */
module NetworkRoutes {
  import opened Wrappers
  import opened Strings

  /** A container endpoint as the Docker engine reports it. */
  datatype Endpoint = Endpoint(name: Option<string>, endpointId: Option<string>, ipv4Address: Option<string>)

  /** A network as the Docker engine reports it. */
  datatype DockerNetwork = DockerNetwork(
    id: Option<string>,
    name: Option<string>,
    driver: Option<string>,
    scope: Option<string>,
    containers: Option<map<string, Endpoint>>)

  datatype ContainerInfo = ContainerInfo(name: string, endpointId: string, ipv4Address: string)

  datatype NetworkInfo = NetworkInfo(
    id: string,
    name: string,
    driver: string,
    scope: string,
    containers: map<string, ContainerInfo>)

  // ---------------------------------------------------------------------------
  // The containers of a network

  predicate CompleteEndpoint(e: Endpoint) {
    e.name.Some? && e.endpointId.Some? && e.ipv4Address.Some?
  }

  function Describe(e: Endpoint): ContainerInfo
    requires CompleteEndpoint(e)
  {
    ContainerInfo(e.name.value, e.endpointId.value, e.ipv4Address.value)
  }

  /** The container map both endpoints build: the complete entries, under
      their container ids. */
  function KeptContainers(entries: map<string, Endpoint>): map<string, ContainerInfo> {
    map id | id in entries && CompleteEndpoint(entries[id]) :: Describe(entries[id])
  }

  /** The loop that inserts each complete entry under its container id.
      Container ids are map keys, so the order of the loop does not matter. */
  method CollectContainers(entries: map<string, Endpoint>) returns (containers: map<string, ContainerInfo>)
    ensures forall id :: id in containers <==> id in entries && CompleteEndpoint(entries[id])
    ensures forall id :: id in containers ==>
      && id in entries && CompleteEndpoint(entries[id])
      && containers[id].name == entries[id].name.value
      && containers[id].endpointId == entries[id].endpointId.value
      && containers[id].ipv4Address == entries[id].ipv4Address.value
    ensures containers == KeptContainers(entries)
  {
    containers := map[];
    var pending := entries.Keys;
    while pending != {}
      invariant pending <= entries.Keys
      invariant forall id :: id in containers <==> id in entries && id !in pending && CompleteEndpoint(entries[id])
      invariant forall id :: id in containers ==> containers[id] == Describe(entries[id])
      decreases |pending|
    {
      var id :| id in pending;
      var info := entries[id];
      if info.name.Some? && info.endpointId.Some? && info.ipv4Address.Some? {
        containers := containers[id := ContainerInfo(info.name.value, info.endpointId.value, info.ipv4Address.value)];
      }
      pending := pending - {id};
    }
  }

  function ContainersOf(containers: Option<map<string, Endpoint>>): map<string, ContainerInfo> {
    if containers.Some? then KeptContainers(containers.value) else map[]
  }

  // ---------------------------------------------------------------------------
  // list_networks

  predicate CompleteNetwork(n: DockerNetwork) {
    n.id.Some? && n.name.Some? && n.driver.Some? && n.scope.Some?
  }

  function ToNetworkInfo(n: DockerNetwork): NetworkInfo
    requires CompleteNetwork(n)
  {
    NetworkInfo(n.id.value, n.name.value, n.driver.value, n.scope.value, ContainersOf(n.containers))
  }

  /** The `filter_map` of `list_networks`. */
  function KeepComplete(nets: seq<DockerNetwork>): seq<NetworkInfo>
    decreases |nets|
  {
    if nets == [] then []
    else (if CompleteNetwork(nets[0]) then [ToNetworkInfo(nets[0])] else []) + KeepComplete(nets[1..])
  }

  /** `list_networks`, on the engine's answer. */
  function ListNetworks(reply: Result<seq<DockerNetwork>>): (r: Result<seq<NetworkInfo>>)
    ensures r.Err? <==> reply.Err?
    ensures r.Err? ==> IsPrefix("Failed to list networks: ", r.error) && Contains(r.error, reply.error)
    ensures reply.Ok? ==> r == Ok(KeepComplete(reply.value))
  {
    match reply
    case Err(e) =>
      ContainsInfix("Failed to list networks: ", e, "");
      assert "Failed to list networks: " + e + "" == "Failed to list networks: " + e;
      Err("Failed to list networks: " + e)
    case Ok(nets) => Ok(KeepComplete(nets))
  }

  /** A network is reported exactly when it has an id, a name, a driver and a
      scope, with those fields and its complete container entries; a network
      without a container map reports none. */
  lemma KeepOne(n: DockerNetwork)
    ensures KeepComplete([n]) == if CompleteNetwork(n) then [ToNetworkInfo(n)] else []
    ensures CompleteNetwork(n) && n.containers.None? ==> ToNetworkInfo(n).containers == map[]
  {
    assert [n][1..] == [];
  }

  /** The filter works element by element and keeps the input order: the
      networks of a concatenation are those of each part, in turn. */
  lemma {:induction false} KeepConcat(a: seq<DockerNetwork>, b: seq<DockerNetwork>)
    ensures KeepComplete(a + b) == KeepComplete(a) + KeepComplete(b)
    decreases |a|
  {
    if a == [] {
      assert a + b == b;
    } else {
      KeepConcat(a[1..], b);
      assert (a + b)[1..] == a[1..] + b;
    }
  }

  /** Every reported network comes from a complete network of the input,
      and every complete network of the input is reported. */
  lemma {:induction false} KeepExactlyComplete(nets: seq<DockerNetwork>)
    ensures forall info :: info in KeepComplete(nets) ==>
      exists k :: 0 <= k < |nets| && CompleteNetwork(nets[k]) && info == ToNetworkInfo(nets[k])
    ensures forall k :: 0 <= k < |nets| && CompleteNetwork(nets[k]) ==> ToNetworkInfo(nets[k]) in KeepComplete(nets)
    decreases |nets|
  {
    if nets != [] {
      KeepExactlyComplete(nets[1..]);
      forall info | info in KeepComplete(nets)
        ensures exists k :: 0 <= k < |nets| && CompleteNetwork(nets[k]) && info == ToNetworkInfo(nets[k])
      {
        if info !in KeepComplete(nets[1..]) {
          assert CompleteNetwork(nets[0]) && info == ToNetworkInfo(nets[0]);
        } else {
          var k :| 0 <= k < |nets[1..]| && CompleteNetwork(nets[1..][k]) && info == ToNetworkInfo(nets[1..][k]);
          assert nets[k + 1] == nets[1..][k];
        }
      }
      forall k | 0 <= k < |nets| && CompleteNetwork(nets[k])
        ensures ToNetworkInfo(nets[k]) in KeepComplete(nets)
      {
        if k > 0 {
          assert nets[1..][k - 1] == nets[k];
        }
      }
    }
  }

  // ---------------------------------------------------------------------------
  // create_network

  datatype NetworkCreateRequest = NetworkCreateRequest(
    name: string,
    driver: Option<string>,
    labels: Option<map<string, string>>)

  /** The options handed to the engine; the others keep their defaults. */
  datatype CreateOptions = CreateOptions(name: string, driver: string, labels: map<string, string>)

  /** What the engine answers: the id of a created network, and a network
      looked up by id. */
  datatype Engine = Engine(
    create: CreateOptions -> Result<string>,
    inspect: string -> Result<DockerNetwork>)

  function OptionsFor(req: NetworkCreateRequest): CreateOptions {
    CreateOptions(
      req.name,
      if req.driver.Some? then req.driver.value else "",
      if req.labels.Some? then req.labels.value else map[])
  }

  function OrEmpty(s: Option<string>): string {
    if s.Some? then s.value else ""
  }

  /** `create_network`. */
  function CreateNetwork(req: NetworkCreateRequest, engine: Engine): Result<NetworkInfo> {
    var created := engine.create(OptionsFor(req));
    if created.Err? then Err("Failed to create network: " + created.error)
    else
      var network := engine.inspect(created.value);
      if network.Err? then Err("Failed to inspect created network: " + network.error)
      else
        var n := network.value;
        Ok(NetworkInfo(OrEmpty(n.id), OrEmpty(n.name), OrEmpty(n.driver), OrEmpty(n.scope), ContainersOf(n.containers)))
  }

  /** The request's name is passed on, a missing driver becomes the empty
      string and missing labels an empty map; the network inspected is the
      one the engine just created, and its missing fields are reported as
      empty strings. */
  lemma CreateNetworkFields(req: NetworkCreateRequest, engine: Engine)
    ensures var opts := OptionsFor(req);
      && opts.name == req.name
      && (req.driver.None? ==> opts.driver == "") && (req.driver.Some? ==> opts.driver == req.driver.value)
      && (req.labels.None? ==> opts.labels == map[]) && (req.labels.Some? ==> opts.labels == req.labels.value)
    ensures var r := CreateNetwork(req, engine);
      var created := engine.create(OptionsFor(req));
      && (r.Ok? <==> created.Ok? && engine.inspect(created.value).Ok?)
      && (r.Ok? ==>
            var n := engine.inspect(created.value).value;
            && (n.id.None? ==> r.value.id == "") && (n.id.Some? ==> r.value.id == n.id.value)
            && (n.name.None? ==> r.value.name == "") && (n.name.Some? ==> r.value.name == n.name.value)
            && (n.driver.None? ==> r.value.driver == "") && (n.driver.Some? ==> r.value.driver == n.driver.value)
            && (n.scope.None? ==> r.value.scope == "") && (n.scope.Some? ==> r.value.scope == n.scope.value))
  {
  }

  const CreateFailure: string := "Failed to create network: "
  const InspectFailure: string := "Failed to inspect created network: "

  /** A failed creation and a failed inspection are told apart by their
      messages whatever the engine's error texts. */
  lemma CreateErrorsDistinct(e1: string, e2: string)
    ensures CreateFailure + e1 != InspectFailure + e2
  {
    assert (CreateFailure + e1)[10] == 'c';
    assert (InspectFailure + e2)[10] == 'i';
  }

  /** Which of the two steps failed decides the message's prefix. */
  lemma CreateNetworkErrors(req: NetworkCreateRequest, engine: Engine)
    ensures var r := CreateNetwork(req, engine);
      var created := engine.create(OptionsFor(req));
      && (created.Err? ==> r == Err(CreateFailure + created.error))
      && (created.Ok? && engine.inspect(created.value).Err? ==>
            r == Err(InspectFailure + engine.inspect(created.value).error))
  {
  }

  // ---------------------------------------------------------------------------
  // delete, connect, disconnect

  /** `delete_network`, on the engine's answer. */
  function DeleteNetwork(id: string, reply: Outcome): (r: Result<string>)
    ensures r.Ok? <==> reply.Done?
    ensures r.Ok? ==> Contains(r.value, id)
    ensures r.Err? ==> Contains(r.error, reply.msg)
  {
    match reply
    case Done =>
      ContainsInfix("Network ", id, " deleted successfully");
      Ok("Network " + id + " deleted successfully")
    case Failed(e) =>
      ContainsInfix("Failed to delete network: ", e, "");
      assert "Failed to delete network: " + e + "" == "Failed to delete network: " + e;
      Err("Failed to delete network: " + e)
  }

  /** `connect_instance_to_network`, on the engine's answer. */
  function ConnectInstance(id: string, networkId: string, reply: Outcome): (r: Result<string>)
    ensures r.Ok? <==> reply.Done?
    ensures r.Ok? ==> Contains(r.value, id) && Contains(r.value, networkId)
    ensures r.Err? ==> Contains(r.error, reply.msg)
  {
    match reply
    case Done =>
      var msg := "Instance " + id + " connected to network " + networkId;
      ContainsInfix("Instance ", id, " connected to network " + networkId);
      assert "Instance " + id + (" connected to network " + networkId) == msg;
      ContainsInfix("Instance " + id + " connected to network ", networkId, "");
      assert msg + "" == msg;
      Ok(msg)
    case Failed(e) =>
      ContainsInfix("Failed to connect instance to network: ", e, "");
      assert "Failed to connect instance to network: " + e + "" == "Failed to connect instance to network: " + e;
      Err("Failed to connect instance to network: " + e)
  }

  /** `disconnect_instance_from_network`, on the engine's answer. */
  function DisconnectInstance(id: string, networkId: string, reply: Outcome): (r: Result<string>)
    ensures r.Ok? <==> reply.Done?
    ensures r.Ok? ==> Contains(r.value, id) && Contains(r.value, networkId)
    ensures r.Err? ==> Contains(r.error, reply.msg)
  {
    match reply
    case Done =>
      var msg := "Instance " + id + " disconnected from network " + networkId;
      ContainsInfix("Instance ", id, " disconnected from network " + networkId);
      assert "Instance " + id + (" disconnected from network " + networkId) == msg;
      ContainsInfix("Instance " + id + " disconnected from network ", networkId, "");
      assert msg + "" == msg;
      Ok(msg)
    case Failed(e) =>
      ContainsInfix("Failed to disconnect instance from network: ", e, "");
      assert "Failed to disconnect instance from network: " + e + "" == "Failed to disconnect instance from network: " + e;
      Err("Failed to disconnect instance from network: " + e)
  }
}
