/** The paginated `GET /servers` endpoint of api/routes/servers.rs: twenty
    rows a page from the `servers` table, with the number of all rows. */
module ServersRoute {
  import opened Wrappers
  import opened Decimal

  /** A 64-bit float, kept as its bit pattern: the endpoint only copies it. */
  datatype F64 = F64(bits: U64)

  /** A row of the `servers` table. */
  datatype Row = Row(id: int, name: string, status: string, players: U32, cpu: F64, memory: F64)

  /** A server as the endpoint reports it. */
  datatype Server = Server(name: string, status: string, players: U32, cpu: F64, memory: F64)

  datatype PaginatedResponse = PaginatedResponse(servers: seq<Server>, total: int)

  const PerPage: nat := 20

  /** `u32` subtraction as a release build computes it: modulo 2^32. */
  function SubU32(a: U32, b: U32): (r: U32)
    ensures b <= a ==> r == a - b
    ensures a < b ==> r == a - b + 0x1_0000_0000
  {
    (a - b) % 0x1_0000_0000
  }

  /** `page.unwrap_or(1)`. */
  function PageNumber(page: Option<U32>): (n: U32)
    ensures page.None? ==> n == 1
    ensures page.Some? ==> n == page.value
  {
    if page.Some? then page.value else 1
  }

  /** `(page - 1) * per_page`, the product also taken modulo 2^32. */
  function Offset(page: U32): U32 {
    (SubU32(page, 1) * PerPage) % 0x1_0000_0000
  }

  /** For the pages a client can ask for without overflow, the offset is
      the number of rows on the pages before. */
  lemma OffsetOfPage(page: U32)
    requires 1 <= page && (page - 1) * PerPage < 0x1_0000_0000
    ensures Offset(page) == (page - 1) * PerPage
  {
  }

  /** Page 0 is not refused: the subtraction wraps and the offset lands
      near the top of the 32-bit range, so the page comes back empty for
      any table of fewer rows. */
  lemma PageZeroWraps()
    ensures Offset(0) == 0xFFFF_FFEC
  {
  }

  /** `LIMIT limit OFFSET offset` over the table in scan order. */
  function LimitOffset(table: seq<Row>, limit: nat, offset: nat): (rows: seq<Row>)
    ensures |rows| <= limit
    ensures offset >= |table| ==> rows == []
    ensures offset < |table| ==> |rows| == if |table| - offset < limit then |table| - offset else limit
    ensures forall k :: 0 <= k < |rows| ==> offset + k < |table| && rows[k] == table[offset + k]
  {
    if offset >= |table| then []
    else if |table| - offset < limit then table[offset..]
    else table[offset..offset + limit]
  }

  function ToServer(row: Row): (s: Server)
    ensures s.name == row.name && s.status == row.status && s.players == row.players
    ensures s.cpu == row.cpu && s.memory == row.memory
  {
    Server(row.name, row.status, row.players, row.cpu, row.memory)
  }

  /** The map over the fetched rows. */
  function ToServers(rows: seq<Row>): (servers: seq<Server>)
    ensures |servers| == |rows|
    ensures forall k :: 0 <= k < |rows| ==> servers[k] == ToServer(rows[k])
  {
    seq(|rows|, k requires 0 <= k < |rows| => ToServer(rows[k]))
  }

  /** `get_servers`. The database is the table and whether each of the two
      queries fails. */
  function GetServers(table: seq<Row>, page: Option<U32>, pageQueryFails: bool, countQueryFails: bool): PaginatedResponse {
    var offset := Offset(PageNumber(page));
    var rows := if pageQueryFails then [] else LimitOffset(table, PerPage, offset);
    var total := if countQueryFails then 0 else |table|;
    PaginatedResponse(ToServers(rows), total)
  }

  /** At most twenty servers, copied field by field from the rows at
      `offset`, `offset + 1`, ... in scan order; none when the page query
      fails. The total is the number of all rows (0 when the count fails)
      and does not depend on the page. */
  lemma GetServersContents(table: seq<Row>, page: Option<U32>, pageQueryFails: bool, countQueryFails: bool)
    ensures var r := GetServers(table, page, pageQueryFails, countQueryFails);
      var offset := Offset(PageNumber(page));
      && |r.servers| <= PerPage
      && (pageQueryFails ==> r.servers == [])
      && (!pageQueryFails ==>
            && |r.servers| == (if offset >= |table| then 0 else if |table| - offset < PerPage then |table| - offset else PerPage)
            && forall k :: 0 <= k < |r.servers| ==> r.servers[k] == ToServer(table[offset + k]))
      && r.total == (if countQueryFails then 0 else |table|)
      && forall other: Option<U32> :: GetServers(table, other, pageQueryFails, countQueryFails).total == r.total
  {
  }

  lemma AdjacentSlices(table: seq<Row>, offset: nat, limit: nat)
    ensures var upTo := if |table| < offset + 2 * limit then |table| else offset + 2 * limit;
      LimitOffset(table, limit, offset) + LimitOffset(table, limit, offset + limit)
        == if offset >= |table| then [] else table[offset..upTo]
  {
  }

  lemma ToServersConcat(a: seq<Row>, b: seq<Row>)
    ensures ToServers(a + b) == ToServers(a) + ToServers(b)
  {
    assert |ToServers(a + b)| == |ToServers(a) + ToServers(b)|;
  }

  /** Page `p + 1` starts where page `p` ends: between them, two pages
      show the rows `20 (p - 1)` to `20 (p + 1)` once each, in order. */
  lemma ConsecutivePages(table: seq<Row>, p: U32)
    requires 1 <= p && (p + 1) * PerPage < 0x1_0000_0000
    ensures var here := GetServers(table, Some(p), false, false).servers;
      var next := GetServers(table, Some(p + 1), false, false).servers;
      var from := (p - 1) * PerPage;
      var upTo := if |table| < from + 2 * PerPage then |table| else from + 2 * PerPage;
      here + next == if from >= |table| then [] else ToServers(table[from..upTo])
  {
    var from := (p - 1) * PerPage;
    OffsetOfPage(p);
    OffsetOfPage(p + 1);
    assert Offset(p + 1) == from + PerPage;
    AdjacentSlices(table, from, PerPage);
    ToServersConcat(LimitOffset(table, PerPage, from), LimitOffset(table, PerPage, from + PerPage));
  }
}
