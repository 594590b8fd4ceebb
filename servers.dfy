/** `on_disconnect` of src/servers.rs: when a socket disconnects, the first
    registered server on that socket is removed from the shared list. */
module Servers {
  import opened Wrappers
  import opened InitHandlers

  /** A registered server as `on_disconnect` sees it: the socket it is
      connected on, if any, and the rest of the record, which it does not
      look at. */
  datatype Entry<T> = Entry(socket: Option<Socket>, info: T)

  predicate OnSocket<T>(e: Entry<T>, id: string) {
    e.socket.Some? && e.socket.value.id == id
  }

  /** The scan of `iter().position` unwraps the socket of every entry it
      looks at; it looks at the entries up to the first one on the socket
      `id`, or at all of them when there is none. */
  predicate ScanSafe<T>(servers: seq<Entry<T>>, id: string)
    decreases |servers|
  {
    servers == [] || (servers[0].socket.Some? && (servers[0].socket.value.id == id || ScanSafe(servers[1..], id)))
  }

  /** `servers.iter().position(..)`: the index of the first entry on the
      socket `id`. */
  function Position<T>(servers: seq<Entry<T>>, id: string): (p: Option<nat>)
    ensures p.Some? ==> p.value < |servers| && OnSocket(servers[p.value], id)
    ensures forall j :: 0 <= j < |servers| && (p.None? || j < p.value) ==> !OnSocket(servers[j], id)
    decreases |servers|
  {
    if servers == [] then None
    else if OnSocket(servers[0], id) then Some(0)
    else
      var p := Position(servers[1..], id);
      if p.Some? then Some(p.value + 1) else None
  }

  /** What `on_disconnect` leaves: the list without its first entry on the
      socket, or the same list when no entry is on it. */
  function RemoveFirst<T>(servers: seq<Entry<T>>, id: string): seq<Entry<T>> {
    var p := Position(servers, id);
    if p.Some? then servers[..p.value] + servers[p.value + 1..] else servers
  }

  function Matching<T>(servers: seq<Entry<T>>, id: string): nat
    decreases |servers|
  {
    if servers == [] then 0 else (if OnSocket(servers[0], id) then 1 else 0) + Matching(servers[1..], id)
  }

  lemma {:induction false} MatchingSplit<T>(a: seq<Entry<T>>, e: Entry<T>, b: seq<Entry<T>>, id: string)
    ensures Matching(a + [e] + b, id) == Matching(a, id) + (if OnSocket(e, id) then 1 else 0) + Matching(b, id)
    decreases |a|
  {
    if a == [] {
      assert (a + [e] + b)[1..] == b;
    } else {
      MatchingSplit(a[1..], e, b, id);
      assert (a + [e] + b)[1..] == a[1..] + [e] + b;
    }
  }

  lemma {:induction false} MatchingConcat<T>(a: seq<Entry<T>>, b: seq<Entry<T>>, id: string)
    ensures Matching(a + b, id) == Matching(a, id) + Matching(b, id)
    decreases |a|
  {
    if a == [] {
      assert a + b == b;
    } else {
      MatchingConcat(a[1..], b, id);
      assert (a + b)[1..] == a[1..] + b;
    }
  }

  lemma {:induction false} NoneMatching<T>(a: seq<Entry<T>>, id: string)
    requires forall j :: 0 <= j < |a| ==> !OnSocket(a[j], id)
    ensures Matching(a, id) == 0
    decreases |a|
  {
    if a != [] {
      NoneMatching(a[1..], id);
    }
  }

  /** Exactly one entry goes when some entry is on the socket: the first
      such entry, the others keeping their order, and any later entries on
      the same socket staying; with no entry on the socket, nothing changes. */
  lemma RemoveFirstRemovesOne<T>(servers: seq<Entry<T>>, id: string)
    ensures var after := RemoveFirst(servers, id);
      && (Matching(servers, id) == 0 ==> after == servers)
      && (Matching(servers, id) > 0 ==>
            exists p :: 0 <= p < |servers| && OnSocket(servers[p], id)
              && (forall j :: 0 <= j < p ==> !OnSocket(servers[j], id))
              && after == servers[..p] + servers[p + 1..])
      && Matching(after, id) == if Matching(servers, id) > 0 then Matching(servers, id) - 1 else 0
  {
    var p := Position(servers, id);
    if p.Some? {
      var i := p.value;
      assert servers == servers[..i] + [servers[i]] + servers[i + 1..];
      MatchingSplit(servers[..i], servers[i], servers[i + 1..], id);
      MatchingConcat(servers[..i], servers[i + 1..], id);
      NoneMatching(servers[..i], id);
    } else {
      NoneMatching(servers, id);
    }
  }

  /** The list of registered servers shared by the socket handlers. */
  class ServerList<T(==)> {
    var servers: seq<Entry<T>>

    constructor (initial: seq<Entry<T>>)
      ensures servers == initial
    {
      servers := initial;
    }

    /** The scan of `iter().position`, entry by entry. */
    method FindPosition(id: string) returns (pos: Option<nat>)
      requires ScanSafe(servers, id)
      ensures pos == Position(servers, id)
    {
      var i := 0;
      while i < |servers|
        invariant 0 <= i <= |servers|
        invariant ScanSafe(servers[i..], id)
        invariant Position(servers, id) == if Position(servers[i..], id).Some? then Some(Position(servers[i..], id).value + i) else None
      {
        assert servers[i..][1..] == servers[i + 1..];
        if servers[i].socket.value.id == id {
          return Some(i);
        }
        i := i + 1;
      }
      return None;
    }

    /** `on_disconnect`: removes the first server on the disconnecting
        socket, if any. The scan unwraps the socket of every entry it passes,
        which the caller must guarantee to be there. */
    method OnDisconnect(socket: Socket)
      requires ScanSafe(servers, socket.id)
      modifies this
      ensures servers == RemoveFirst(old(servers), socket.id)
    {
      var pos := FindPosition(socket.id);
      if pos.Some? {
        servers := servers[..pos.value] + servers[pos.value + 1..];
      }
    }
  }
}
