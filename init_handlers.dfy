/** The child-server registration of src/handlers/init_handlers.rs: reading
    an `IP:PORT` address and appending an authenticated child server to the
    shared registry. */
module InitHandlers {
  import opened Wrappers
  import opened Strings
  import opened Decimal

  // ---------------------------------------------------------------------------
  // IP:PORT

  /** An address as `IpAddr::from_str` read it, kept as its text. Which
      texts are addresses is decided by that library routine, which is a
      parameter here (`isIp`). */
  datatype IpAddr = IpAddr(text: string)

  datatype IPAddress = IPAddress(address: IpAddr, port: U16)

  /** Why `from_string` refused its input: not exactly two parts around ':',
      an address `IpAddr::from_str` refuses, or a port that is not a `u16`. */
  datatype AddressError = WrongShape | BadAddress | BadPort

  datatype Parsed = Parsed(value: IPAddress) | Rejected(reason: AddressError)

  /** `IPAddress::from_string`. */
  function FromString(s: string, isIp: string -> bool): Parsed {
    var parts := Split(s, ':');
    if |parts| != 2 then Rejected(WrongShape)
    else if !isIp(parts[0]) then Rejected(BadAddress)
    else
      var port := ParseU16(parts[1]);
      if port.None? then Rejected(BadPort) else Parsed(IPAddress(IpAddr(parts[0]), port.value))
  }

  /** Input without exactly one ':' is refused for its shape: no colon, two
      or more colons, and so every IPv6 literal. */
  lemma ShapeNeedsOneColon(s: string, isIp: string -> bool)
    ensures CountChar(s, ':') != 1 <==> FromString(s, isIp) == Rejected(WrongShape)
  {
    SplitJoin(s, ':');
  }

  /** A successful parse splits the input at its only ':' into an address the
      library accepts and the text of the port. */
  lemma ParsedSplitsInput(s: string, isIp: string -> bool)
    requires FromString(s, isIp).Parsed?
    ensures var a := FromString(s, isIp).value;
      exists portText :: s == a.address.text + ":" + portText
        && ParseU16(portText) == Some(a.port)
        && ':' !in a.address.text && ':' !in portText && isIp(a.address.text)
  {
    var parts := Split(s, ':');
    SplitJoin(s, ':');
    assert Join(parts, ':') == parts[0] + [':'] + Join(parts[1..], ':');
    assert parts[1..] == [parts[1]];
    assert s == parts[0] + ":" + parts[1];
  }

  /** An address and a port, written `address:port`, read back as that
      address and port. */
  lemma FromStringRoundTrip(address: string, port: U16, isIp: string -> bool)
    requires ':' !in address && isIp(address)
    ensures FromString(address + ":" + NatToDecimal(port), isIp) == Parsed(IPAddress(IpAddr(address), port))
  {
    var s := address + ":" + NatToDecimal(port);
    var i := |address|;
    assert s[..i] == address && s[i + 1..] == NatToDecimal(port);
    assert ':' !in NatToDecimal(port) by {
      forall k | 0 <= k < |NatToDecimal(port)| ensures NatToDecimal(port)[k] != ':' {
        assert IsDigit(NatToDecimal(port)[k]);
      }
    }
    SplitAtOnlySeparator(s, ':', i);
    PortRoundTrip(port);
  }

  /** A port that does not fit in 16 bits is refused. */
  lemma PortTooLarge(address: string, port: nat, isIp: string -> bool)
    requires ':' !in address && isIp(address) && port >= 0x1_0000
    ensures FromString(address + ":" + NatToDecimal(port), isIp) == Rejected(BadPort)
  {
    var s := address + ":" + NatToDecimal(port);
    var i := |address|;
    assert s[..i] == address && s[i + 1..] == NatToDecimal(port);
    assert ':' !in NatToDecimal(port) by {
      forall k | 0 <= k < |NatToDecimal(port)| ensures NatToDecimal(port)[k] != ':' {
        assert IsDigit(NatToDecimal(port)[k]);
      }
    }
    SplitAtOnlySeparator(s, ':', i);
    DecimalValue(port);
  }

  // ---------------------------------------------------------------------------
  // The authentication message

  /** A JSON number as serde_json keeps it: a non-negative integer that fits
      in 64 bits, a negative integer, or a floating-point number (kept as its
      text; its conversion to `f64` is not modelled). */
  datatype Number = PosInt(u: U64) | NegInt(i: int) | Float(literal: string)

  datatype Json =
    | Null
    | Bool(b: bool)
    | Num(n: Number)
    | Str(s: string)
    | Array(items: seq<Json>)
    | Object(fields: map<string, Json>)

  /** `value.get(key)`: the member of an object, nothing for any other value. */
  function Get(v: Json, key: string): Option<Json> {
    if v.Object? && key in v.fields then Some(v.fields[key]) else None
  }

  function AsU64(v: Option<Json>): Option<U64> {
    if v.Some? && v.value.Num? && v.value.n.PosInt? then Some(v.value.n.u) else None
  }

  /** `as_f64` accepts every JSON number. */
  function AsNumber(v: Option<Json>): Option<Number> {
    if v.Some? && v.value.Num? then Some(v.value.n) else None
  }

  function AsStr(v: Option<Json>): Option<string> {
    if v.Some? && v.value.Str? then Some(v.value.s) else None
  }

  /** The connection a message arrived on. */
  datatype Socket = Socket(id: string)

  datatype Coordinate = Coordinate(x: Number, y: Number, z: Number)

  datatype ChildServer = ChildServer(id: U64, coordinate: Coordinate, parentAddr: IPAddress, socket: Socket)

  /** An event sent back on the socket, with the `message` of its payload. */
  datatype Emission = Emission(event: string, message: string)

  const InvalidAddress: string := "Invalid parent address format"
  const InvalidData: string := "Invalid authentication data"

  datatype AuthDecision = Accepted(server: ChildServer) | Refused(message: string)

  /** The decision `handle_auth_child_server` takes on a message. */
  function Authenticate(socket: Socket, data: Json, isIp: string -> bool): AuthDecision {
    var id := AsU64(Get(data, "id"));
    var x := AsNumber(Get(data, "x"));
    var y := AsNumber(Get(data, "y"));
    var z := AsNumber(Get(data, "z"));
    var parent := AsStr(Get(data, "parentAddr"));
    if id.Some? && x.Some? && y.Some? && z.Some? && parent.Some? then
      var addr := FromString(parent.value, isIp);
      if addr.Parsed? then Accepted(ChildServer(id.value, Coordinate(x.value, y.value, z.value), addr.value, socket))
      else Refused(InvalidAddress)
    else Refused(InvalidData)
  }

  /** All five fields present with their kinds: `id` an unsigned 64-bit
      integer, `x`, `y`, `z` numbers and `parentAddr` a string. */
  predicate WellFormed(data: Json) {
    && AsU64(Get(data, "id")).Some?
    && AsNumber(Get(data, "x")).Some? && AsNumber(Get(data, "y")).Some? && AsNumber(Get(data, "z")).Some?
    && AsStr(Get(data, "parentAddr")).Some?
  }

  /** A message is accepted exactly when it is well formed and its parent
      address parses; the accepted server carries the message's id,
      coordinates and parsed address and the socket it came on. A refusal
      names the address when only the address is wrong, and the data
      otherwise. */
  lemma AuthenticateDecides(socket: Socket, data: Json, isIp: string -> bool)
    ensures var d := Authenticate(socket, data, isIp);
      && (d.Accepted? <==> WellFormed(data) && FromString(data.fields["parentAddr"].s, isIp).Parsed?)
      && (d.Accepted? ==>
            && data.Object?
            && Get(data, "id") == Some(Num(PosInt(d.server.id)))
            && Get(data, "x") == Some(Num(d.server.coordinate.x))
            && Get(data, "y") == Some(Num(d.server.coordinate.y))
            && Get(data, "z") == Some(Num(d.server.coordinate.z))
            && Some(d.server.parentAddr) == ParsedAddress(data, isIp)
            && d.server.socket == socket)
      && (d == Refused(InvalidData) <==> !WellFormed(data))
      && (d == Refused(InvalidAddress) <==> WellFormed(data) && !FromString(data.fields["parentAddr"].s, isIp).Parsed?)
  {
  }

  /** The address in `parentAddr`, when it is a string that parses. */
  function ParsedAddress(data: Json, isIp: string -> bool): Option<IPAddress> {
    var parent := AsStr(Get(data, "parentAddr"));
    if parent.None? then None
    else
      var a := FromString(parent.value, isIp);
      if a.Parsed? then Some(a.value) else None
  }

  /** The registry of authenticated child servers shared by the handlers. */
  class ChildRegistry {
    var servers: seq<ChildServer>

    constructor ()
      ensures servers == []
    {
      servers := [];
    }

    /** `handle_auth_child_server`: an accepted server is appended at the
        end, the entries already there are left as they are, and the answer
        is "authSuccess"; a refused message changes nothing and is answered
        with "authFailed" and the reason. */
    method HandleAuthChildServer(socket: Socket, data: Json, isIp: string -> bool) returns (e: Emission)
      modifies this
      ensures match Authenticate(socket, data, isIp)
        case Accepted(server) =>
          servers == old(servers) + [server] && e == Emission("authSuccess", "Authentication successful")
        case Refused(message) =>
          servers == old(servers) && e == Emission("authFailed", message)
    {
      var id := AsU64(Get(data, "id"));
      var x := AsNumber(Get(data, "x"));
      var y := AsNumber(Get(data, "y"));
      var z := AsNumber(Get(data, "z"));
      var parent := AsStr(Get(data, "parentAddr"));
      if id.Some? && x.Some? && y.Some? && z.Some? && parent.Some? {
        var coordinate := Coordinate(x.value, y.value, z.value);
        var addr := FromString(parent.value, isIp);
        if addr.Parsed? {
          var server := ChildServer(id.value, coordinate, addr.value, socket);
          servers := servers + [server];
          e := Emission("authSuccess", "Authentication successful");
        } else {
          e := Emission("authFailed", InvalidAddress);
        }
      } else {
        e := Emission("authFailed", InvalidData);
      }
    }
  }

  /** What a message leaves in the registry: one more entry at the end when
      it is accepted, the same registry otherwise. */
  function Registered(servers: seq<ChildServer>, socket: Socket, data: Json, isIp: string -> bool): seq<ChildServer> {
    match Authenticate(socket, data, isIp)
    case Accepted(server) => servers + [server]
    case Refused(_) => servers
  }

  /** Handling a message never drops or reorders what was registered before:
      the old registry is a prefix of the new one, which is at most one entry
      longer. */
  lemma RegistrationOnlyAppends(servers: seq<ChildServer>, socket: Socket, data: Json, isIp: string -> bool)
    ensures var after := Registered(servers, socket, data, isIp);
      && |servers| <= |after| <= |servers| + 1
      && after[..|servers|] == servers
      && (|after| == |servers| + 1 <==> Authenticate(socket, data, isIp).Accepted?)
  {
  }
}
