// The captain's regrouping of joined pool/upstream rows into one response entry
// a pool.
module PoolGrouping {
  import opened Wrappers

  /** One row of the join; the upstream columns are null together. */
  datatype Row = Row(poolId: int, poolTag: string, poolSubdomain: string, poolPort: int, upstream: Option<PoolUpstream>)

  datatype PoolUpstream = PoolUpstream(tag: string, configFormat: string, username: string, password: string,
                                       port: int, domain: string)

  datatype PoolResponse = PoolResponse(id: int, tag: string, subdomain: string, port: int, upstreams: seq<PoolUpstream>)

  datatype Failure = QueryFailed | NotFound

  // ---- group-by --------------------------------------------------------

  /** The distinct pool ids in the order of their first rows. */
  function Ids(rows: seq<Row>): seq<int>
  {
    if rows == [] then []
    else
      var n := |rows| - 1;
      var ids := Ids(rows[..n]);
      if rows[n].poolId in ids then ids else ids + [rows[n].poolId]
  }

  function RowsOf(rows: seq<Row>, id: int): seq<Row>
  {
    if rows == [] then []
    else
      var n := |rows| - 1;
      RowsOf(rows[..n], id) + (if rows[n].poolId == id then [rows[n]] else [])
  }

  /** The upstreams of the rows that have one, in row order. */
  function Upstreams(rows: seq<Row>): seq<PoolUpstream>
  {
    if rows == [] then []
    else
      var n := |rows| - 1;
      Upstreams(rows[..n]) + (if rows[n].upstream.Some? then [rows[n].upstream.value] else [])
  }

  /** The entry of a pool: its columns from its first row, its upstreams from all. */
  function Entry(rows: seq<Row>): PoolResponse
    requires rows != []
  {
    PoolResponse(rows[0].poolId, rows[0].poolTag, rows[0].poolSubdomain, rows[0].poolPort, Upstreams(rows))
  }

  lemma {:induction false} IdsHaveRows(rows: seq<Row>, id: int)
    ensures id in Ids(rows) <==> RowsOf(rows, id) != []
  {
    if rows != [] {
      IdsHaveRows(rows[..|rows| - 1], id);
    }
  }

  /** An entry with the upstream of one more row, if it has one. */
  function WithRow(entry: PoolResponse, row: Row): PoolResponse
  {
    if row.upstream.Some? then entry.(upstreams := entry.upstreams + [row.upstream.value]) else entry
  }

  function EmptyEntry(row: Row): PoolResponse
  {
    PoolResponse(row.poolId, row.poolTag, row.poolSubdomain, row.poolPort, [])
  }

  lemma EntryOneMore(rows: seq<Row>, row: Row)
    ensures Entry(rows + [row]) == WithRow(if rows == [] then EmptyEntry(row) else Entry(rows), row)
  {
    assert (rows + [row])[..|rows|] == rows;
    assert Upstreams(rows) + [] == Upstreams(rows);
  }

  /** What one more row does to the rows of each pool. */
  lemma RowsOneMore(rows: seq<Row>, row: Row, id: int)
    ensures RowsOf(rows + [row], id) == RowsOf(rows, id) + (if row.poolId == id then [row] else [])
    ensures Ids(rows + [row]) == if row.poolId in Ids(rows) then Ids(rows) else Ids(rows) + [row.poolId]
  {
    assert (rows + [row])[..|rows|] == rows;
  }

  // ---- the code --------------------------------------------------------

  class Pool {
    const id: int
    const tag: string
    const subdomain: string
    const port: int
    var upstreams: seq<PoolUpstream>

    constructor (row: Row)
      ensures Value() == PoolResponse(row.poolId, row.poolTag, row.poolSubdomain, row.poolPort, [])
    {
      id, tag, subdomain, port, upstreams := row.poolId, row.poolTag, row.poolSubdomain, row.poolPort, [];
    }

    function Value(): PoolResponse
      reads this
    {
      PoolResponse(id, tag, subdomain, port, upstreams)
    }
  }

  /** The entry of the pool with this id after some rows. */
  function EntryOf(rows: seq<Row>, id: int): PoolResponse
    requires id in Ids(rows)
  {
    IdsHaveRows(rows, id);
    Entry(RowsOf(rows, id))
  }

  function GroupBy(rows: seq<Row>): (response: seq<PoolResponse>)
    ensures |response| == |Ids(rows)|
  {
    var ids := Ids(rows);
    seq(|ids|, j requires 0 <= j < |ids| => EntryOf(rows, ids[j]))
  }

  lemma EntryOfOneMore(rows: seq<Row>, row: Row, id: int)
    requires id in Ids(rows + [row])
    ensures id != row.poolId ==> id in Ids(rows) && EntryOf(rows + [row], id) == EntryOf(rows, id)
    ensures id == row.poolId ==>
      EntryOf(rows + [row], id) == WithRow(if id in Ids(rows) then EntryOf(rows, id) else EmptyEntry(row), row)
  {
    RowsOneMore(rows, row, id);
    IdsHaveRows(rows, id);
    EntryOneMore(RowsOf(rows, id), row);
    assert RowsOf(rows, id) + [] == RowsOf(rows, id);
  }

  lemma {:induction false} IdsDistinct(rows: seq<Row>)
    ensures forall j, k :: 0 <= j < k < |Ids(rows)| ==> Ids(rows)[j] != Ids(rows)[k]
    ensures forall i :: 0 <= i < |rows| ==> rows[i].poolId in Ids(rows)
  {
    if rows != [] {
      IdsDistinct(rows[..|rows| - 1]);
    }
  }

  /** One more row changes the one entry of its pool, or adds one at the end. */
  lemma GroupByOneMore(rows: seq<Row>, row: Row) returns (j: nat)
    ensures j <= |Ids(rows)| && (j < |Ids(rows)| <==> row.poolId in Ids(rows))
    ensures Ids(rows + [row]) == if j < |Ids(rows)| then Ids(rows) else Ids(rows) + [row.poolId]
    ensures j < |Ids(rows)| ==> Ids(rows)[j] == row.poolId
    ensures GroupBy(rows + [row])
         == if j < |Ids(rows)| then GroupBy(rows)[j := WithRow(GroupBy(rows)[j], row)]
            else GroupBy(rows) + [WithRow(EmptyEntry(row), row)]
  {
    var ids := Ids(rows);
    RowsOneMore(rows, row, row.poolId);
    IdsDistinct(rows);
    if row.poolId in ids {
      j :| 0 <= j < |ids| && ids[j] == row.poolId;
    } else {
      j := |ids|;
    }
    EntriesOneMore(rows, row, j);
  }

  lemma EntriesOneMore(rows: seq<Row>, row: Row, j: nat)
    requires j <= |Ids(rows)| && (j < |Ids(rows)| <==> row.poolId in Ids(rows)) && (j < |Ids(rows)| ==> Ids(rows)[j] == row.poolId)
    requires Ids(rows + [row]) == if j < |Ids(rows)| then Ids(rows) else Ids(rows) + [row.poolId]
    ensures GroupBy(rows + [row])
         == if j < |Ids(rows)| then GroupBy(rows)[j := WithRow(GroupBy(rows)[j], row)]
            else GroupBy(rows) + [WithRow(EmptyEntry(row), row)]
  {
    var n := |Ids(rows)|;
    IdsDistinct(rows);
    forall k | 0 <= k < |Ids(rows + [row])|
      ensures GroupBy(rows + [row])[k]
           == if k < n && k != j then GroupBy(rows)[k]
              else WithRow(if k < n then GroupBy(rows)[k] else EmptyEntry(row), row)
    {
      EntryOfOneMore(rows, row, Ids(rows + [row])[k]);
    }
  }

  /** The ids and entries after one more row, and the position of its pool. */
  datatype Next = Next(ids: seq<int>, entries: seq<PoolResponse>, at: nat)

  ghost predicate IsNext(ids: seq<int>, entries: seq<PoolResponse>, row: Row, next: Next)
  {
    && |ids| == |entries|
    && next.at <= |ids| && (next.at < |ids| <==> row.poolId in ids) && (next.at < |ids| ==> ids[next.at] == row.poolId)
    && next.ids == (if next.at < |ids| then ids else ids + [row.poolId])
    && next.entries == (if next.at < |ids| then entries[next.at := WithRow(entries[next.at], row)]
                        else entries + [WithRow(EmptyEntry(row), row)])
  }

  lemma NextOf(rows: seq<Row>, i: nat) returns (next: Next)
    requires i < |rows|
    ensures IsNext(Ids(rows[..i]), GroupBy(rows[..i]), rows[i], next)
    ensures next.ids == Ids(rows[..i + 1]) && next.entries == GroupBy(rows[..i + 1])
  {
    assert rows[..i + 1] == rows[..i] + [rows[i]];
    var j := GroupByOneMore(rows[..i], rows[i]);
    next := Next(Ids(rows[..i + 1]), GroupBy(rows[..i + 1]), j);
  }

  /** The map and the ordered list hold the same pointers, one a distinct id. */
  ghost predicate Linked(poolMap: map<int, Pool>, ordered: seq<Pool>, ids: seq<int>)
  {
    && |ordered| == |ids|
    && (forall id :: id in poolMap <==> id in ids)
    && (forall j :: 0 <= j < |ids| ==> ids[j] in poolMap && poolMap[ids[j]] == ordered[j])
    && (forall j, k :: 0 <= j < k < |ordered| ==> ordered[j] != ordered[k])
  }

  /** The pools behind the pointers, in order. */
  ghost predicate Hold(ordered: seq<Pool>, entries: seq<PoolResponse>)
    reads ordered
  {
    |ordered| == |entries| && forall j :: 0 <= j < |ordered| ==> ordered[j].Value() == entries[j]
  }

  /** The first half of a round: a pool seen for the first time gets an entry. */
  method FindOrAdd(poolMap: map<int, Pool>, ordered: seq<Pool>, row: Row,
                   ghost ids: seq<int>, ghost entries: seq<PoolResponse>, ghost j: nat)
    returns (newMap: map<int, Pool>, newOrdered: seq<Pool>)
    requires Linked(poolMap, ordered, ids) && Hold(ordered, entries)
    requires j <= |ids| && (j < |ids| <==> row.poolId in ids) && (j < |ids| ==> ids[j] == row.poolId)
    ensures Linked(newMap, newOrdered, if j < |ids| then ids else ids + [row.poolId])
    ensures Hold(newOrdered, if j < |ids| then entries else entries + [EmptyEntry(row)])
    ensures |newOrdered| >= |ordered| && newOrdered[..|ordered|] == ordered
    ensures forall k :: |ordered| <= k < |newOrdered| ==> fresh(newOrdered[k])
  {
    newMap, newOrdered := poolMap, ordered;
    if row.poolId !in poolMap {
      var pool := new Pool(row);
      newMap := newMap[row.poolId := pool];
      newOrdered := newOrdered + [pool];
      assert pool !in ordered;
      LinkedOneMore(poolMap, ordered, ids, row.poolId, pool);
      HoldOneMore(ordered, entries, pool, EmptyEntry(row));
    }
  }

  lemma HoldOneMore(ordered: seq<Pool>, entries: seq<PoolResponse>, pool: Pool, entry: PoolResponse)
    requires Hold(ordered, entries) && pool.Value() == entry
    ensures Hold(ordered + [pool], entries + [entry])
  {}

  lemma LinkedOneMore(poolMap: map<int, Pool>, ordered: seq<Pool>, ids: seq<int>, id: int, pool: Pool)
    requires Linked(poolMap, ordered, ids) && id !in ids && pool !in ordered
    ensures Linked(poolMap[id := pool], ordered + [pool], ids + [id])
  {}

  /** The second half: the upstream of the row is appended through the map. */
  method AppendUpstream(poolMap: map<int, Pool>, ordered: seq<Pool>, row: Row,
                        ghost ids: seq<int>, ghost entries: seq<PoolResponse>, ghost j: nat)
    requires Linked(poolMap, ordered, ids) && Hold(ordered, entries)
    requires j < |ids| && ids[j] == row.poolId
    modifies ordered
    ensures Hold(ordered, entries[j := WithRow(entries[j], row)])
  {
    var pool := poolMap[row.poolId];
    if row.upstream.Some? {
      pool.upstreams := pool.upstreams + [row.upstream.value];
    }
  }

  /** One round of the loop. */
  method Round(poolMap: map<int, Pool>, ordered: seq<Pool>, row: Row,
               ghost ids: seq<int>, ghost entries: seq<PoolResponse>, ghost next: Next)
    returns (newMap: map<int, Pool>, newOrdered: seq<Pool>)
    requires Linked(poolMap, ordered, ids) && Hold(ordered, entries)
    requires IsNext(ids, entries, row, next)
    modifies ordered
    ensures Linked(newMap, newOrdered, next.ids) && Hold(newOrdered, next.entries)
    ensures forall k :: 0 <= k < |newOrdered| ==> newOrdered[k] in ordered || fresh(newOrdered[k])
  {
    var j := next.at;
    newMap, newOrdered := FindOrAdd(poolMap, ordered, row, ids, entries, j);
    ghost var added := if j < |ids| then entries else entries + [EmptyEntry(row)];
    AppendUpstream(newMap, newOrdered, row, next.ids, added, j);
    assert newOrdered[..|ordered|] == ordered;
    assert forall k :: 0 <= k < |ordered| ==> newOrdered[k] == ordered[k];
  }

  /** The grouping loop. */
  method Group(rows: seq<Row>) returns (ordered: seq<Pool>)
    ensures Hold(ordered, GroupBy(rows))
  {
    var poolMap: map<int, Pool> := map[];
    ordered := [];
    ghost var ids: seq<int> := [];
    ghost var entries: seq<PoolResponse> := [];
    assert Ids([]) == [] && GroupBy([]) == [];
    for i := 0 to |rows|
      invariant forall j :: 0 <= j < |ordered| ==> fresh(ordered[j])
      invariant Linked(poolMap, ordered, ids) && Hold(ordered, entries)
      invariant ids == Ids(rows[..i]) && entries == GroupBy(rows[..i])
    {
      ghost var next := NextOf(rows, i);
      poolMap, ordered := Round(poolMap, ordered, rows[i], ids, entries, next);
      ids, entries := next.ids, next.entries;
    }
    assert rows[..|rows|] == rows;
  }

  /** GetPools; None stands for a failed query. The response has one entry a
      distinct pool id, in the order of first appearance, and the entry of each
      id is made of the rows of that id alone. */
  method GetPools(fetched: Option<seq<Row>>) returns (r: Result<seq<PoolResponse>, Failure>)
    ensures fetched.None? ==> r == Err(QueryFailed)
    ensures fetched == Some([]) ==> r == Err(NotFound)
    ensures fetched.Some? && fetched.value != [] ==> r == Ok(GroupBy(fetched.value))
  {
    if fetched.None? {
      return Err(QueryFailed);
    }
    var rows := fetched.value;
    if |rows| <= 0 {
      return Err(NotFound);
    }
    var ordered := Group(rows);
    var response: seq<PoolResponse> := [];
    for i := 0 to |ordered|
      invariant |response| == i
      invariant forall j :: 0 <= j < i ==> response[j] == ordered[j].Value()
    {
      response := response + [ordered[i].Value()];
    }
    assert response == GroupBy(rows);
    r := Ok(response);
  }

  /** GetPoolByTag; None stands for a failed query. */
  method GetPoolByTag(fetched: Option<seq<Row>>) returns (r: Result<PoolResponse, Failure>)
    ensures fetched.None? ==> r == Err(QueryFailed)
    ensures fetched == Some([]) ==> r == Err(NotFound)
    ensures fetched.Some? && fetched.value != [] ==> r == Ok(Entry(fetched.value))
  {
    if fetched.None? {
      return Err(QueryFailed);
    }
    var rows := fetched.value;
    if |rows| == 0 {
      return Err(NotFound);
    }
    var response: Option<PoolResponse> := None;
    for i := 0 to |rows|
      invariant i == 0 ==> response == None
      invariant i > 0 ==> response == Some(Entry(rows[..i]))
    {
      var row := rows[i];
      assert rows[..i + 1] == rows[..i] + [row];
      EntryOneMore(rows[..i], row);
      if response.None? {
        response := Some(PoolResponse(row.poolId, row.poolTag, row.poolSubdomain, row.poolPort, []));
      }
      if row.upstream.Some? {
        response := Some(response.value.(upstreams := response.value.upstreams + [row.upstream.value]));
      }
    }
    assert rows[..|rows|] == rows;
    r := Ok(response.value);
  }

  // ---- what the grouping means -----------------------------------------

  lemma UpstreamsOneMore(rows: seq<Row>, row: Row)
    ensures Upstreams(rows + [row]) == Upstreams(rows) + (if row.upstream.Some? then [row.upstream.value] else [])
  {
    assert (rows + [row])[..|rows|] == rows;
  }

  /** These are the upstreams of all rows of the pool that have one, each once, in
      the order of the rows; at says where they stand. */
  ghost predicate Files(rows: seq<Row>, id: int, upstreams: seq<PoolUpstream>, at: seq<nat>)
  {
    && |at| == |upstreams| && (forall k, l :: 0 <= k < l < |at| ==> at[k] < at[l])
    && (forall k :: 0 <= k < |at| ==>
          at[k] < |rows| && rows[at[k]].poolId == id && rows[at[k]].upstream == Some(upstreams[k]))
    && (forall i :: 0 <= i < |rows| && rows[i].poolId == id && rows[i].upstream.Some? ==> i in at)
  }

  lemma FilesOneMore(rows: seq<Row>, n: nat, id: int, upstreams: seq<PoolUpstream>, at: seq<nat>)
    requires n + 1 == |rows| && Files(rows[..n], id, upstreams, at) && rows[n].poolId == id && rows[n].upstream.Some?
    ensures Files(rows, id, upstreams + [rows[n].upstream.value], at + [n])
  {
    forall i | 0 <= i < |rows| && rows[i].poolId == id && rows[i].upstream.Some? ensures i in at + [n] {
      if i < n {
        assert rows[..n][i] == rows[i];
      }
    }
  }

  lemma FilesSame(rows: seq<Row>, n: nat, id: int, upstreams: seq<PoolUpstream>, at: seq<nat>)
    requires n + 1 == |rows| && Files(rows[..n], id, upstreams, at) && (rows[n].poolId != id || rows[n].upstream.None?)
    ensures Files(rows, id, upstreams, at)
  {
    forall i | 0 <= i < |rows| && rows[i].poolId == id && rows[i].upstream.Some? ensures i in at {
      assert rows[..n][i] == rows[i];
    }
  }

  /** The rows of a pool that have an upstream, and their upstreams, in row order. */
  lemma {:induction false} UpstreamsOf(rows: seq<Row>, id: int) returns (at: seq<nat>)
    ensures Files(rows, id, Upstreams(RowsOf(rows, id)), at)
  {
    at := [];
    if rows != [] {
      var n := |rows| - 1;
      at := UpstreamsOf(rows[..n], id);
      assert RowsOf(rows[..n], id) + [] == RowsOf(rows[..n], id);
      assert Upstreams(RowsOf(rows[..n], id)) + [] == Upstreams(RowsOf(rows[..n], id));
      if rows[n].poolId != id || rows[n].upstream.None? {
        FilesSame(rows, n, id, Upstreams(RowsOf(rows[..n], id)), at);
      }
      if rows[n].poolId == id {
        UpstreamsOneMore(RowsOf(rows[..n], id), rows[n]);
        if rows[n].upstream.Some? {
          FilesOneMore(rows, n, id, Upstreams(RowsOf(rows[..n], id)), at);
          at := at + [n];
        }
      }
    }
  }

  lemma {:induction false} FirstRow(rows: seq<Row>, id: int) returns (first: nat)
    requires RowsOf(rows, id) != []
    ensures first < |rows| && rows[first].poolId == id && rows[first] == RowsOf(rows, id)[0]
    ensures forall i :: 0 <= i < first ==> rows[i].poolId != id
  {
    var n := |rows| - 1;
    if RowsOf(rows[..n], id) != [] {
      first := FirstRow(rows[..n], id);
    } else {
      first := n;
      forall i | 0 <= i < n ensures rows[i].poolId != id {
        IdsHaveRows(rows[..n], id);
        IdsDistinct(rows[..n]);
        assert rows[..n][i].poolId in Ids(rows[..n]);
      }
    }
  }

  /** An entry of the response in full: the columns of the first row of its pool,
      and the upstreams of the rows of that pool that have one, all of them, each
      once and in row order. */
  lemma EntryIsOfItsRows(rows: seq<Row>, j: nat) returns (first: nat, at: seq<nat>)
    requires j < |GroupBy(rows)|
    ensures var entry := GroupBy(rows)[j];
            && first < |rows| && (forall i :: 0 <= i < first ==> rows[i].poolId != entry.id)
            && entry.id == rows[first].poolId && entry.tag == rows[first].poolTag
            && entry.subdomain == rows[first].poolSubdomain && entry.port == rows[first].poolPort
            && Files(rows, entry.id, entry.upstreams, at)
  {
    var id := Ids(rows)[j];
    IdsHaveRows(rows, id);
    first := FirstRow(rows, id);
    at := UpstreamsOf(rows, id);
    assert GroupBy(rows)[j] == EntryOf(rows, id);
  }

  lemma NotEarlier(rows: seq<Row>, n: nat)
    requires n < |rows| && rows[n].poolId !in Ids(rows[..n])
    ensures forall i :: 0 <= i < n ==> rows[i].poolId != rows[n].poolId
  {
    IdsDistinct(rows[..n]);
    forall i | 0 <= i < n ensures rows[i].poolId != rows[n].poolId {
      assert rows[..n][i].poolId in Ids(rows[..n]);
    }
  }

  ghost predicate FirstAt(rows: seq<Row>, id: int, first: nat)
  {
    first < |rows| && rows[first].poolId == id && forall i :: 0 <= i < first ==> rows[i].poolId != id
  }

  /** The first rows of the pools, in the order of the pools. */
  ghost predicate FirstsOf(rows: seq<Row>, ids: seq<int>, firsts: seq<nat>)
  {
    && |firsts| == |ids| && (forall j, k :: 0 <= j < k < |firsts| ==> firsts[j] < firsts[k])
    && forall j :: 0 <= j < |firsts| ==> FirstAt(rows, ids[j], firsts[j])
  }

  lemma FirstsOneMore(rows: seq<Row>, firsts: seq<nat>, ids: seq<int>, n: nat)
    requires FirstsOf(rows, ids, firsts) && n < |rows| && FirstAt(rows, rows[n].poolId, n)
    requires forall j :: 0 <= j < |firsts| ==> firsts[j] < n
    ensures FirstsOf(rows, ids + [rows[n].poolId], firsts + [n])
  {}

  lemma FrontRows(rows: seq<Row>, firsts: seq<nat>, ids: seq<int>)
    requires rows != [] && FirstsOf(rows[..|rows| - 1], ids, firsts)
    ensures FirstsOf(rows, ids, firsts) && forall j :: 0 <= j < |firsts| ==> firsts[j] < |rows| - 1
  {
    forall j | 0 <= j < |ids| ensures FirstAt(rows, ids[j], firsts[j]) && firsts[j] < |rows| - 1 {
      var front := rows[..|rows| - 1];
      assert FirstAt(front, ids[j], firsts[j]);
      assert forall i :: 0 <= i < |front| ==> front[i] == rows[i];
    }
  }

  /** The first row of each pool, of which no two are in the wrong order. */
  lemma {:induction false} EntriesInOrder(rows: seq<Row>) returns (firsts: seq<nat>)
    ensures FirstsOf(rows, Ids(rows), firsts)
  {
    firsts := [];
    if rows != [] {
      var n := |rows| - 1;
      firsts := EntriesInOrder(rows[..n]);
      FrontRows(rows, firsts, Ids(rows[..n]));
      if rows[n].poolId !in Ids(rows[..n]) {
        NotEarlier(rows, n);
        assert Ids(rows) == Ids(rows[..n]) + [rows[n].poolId];
        FirstsOneMore(rows, firsts, Ids(rows[..n]), n);
        firsts := firsts + [n];
      }
    }
  }

  function TotalUpstreams(response: seq<PoolResponse>): nat
  {
    if response == [] then 0 else TotalUpstreams(response[..|response| - 1]) + |response[|response| - 1].upstreams|
  }

  lemma {:induction false} TotalChange(a: seq<PoolResponse>, b: seq<PoolResponse>, j: nat, more: nat)
    requires |a| == |b| && j < |a| && |b[j].upstreams| == |a[j].upstreams| + more
    requires forall k :: 0 <= k < |a| && k != j ==> |b[k].upstreams| == |a[k].upstreams|
    ensures TotalUpstreams(b) == TotalUpstreams(a) + more
  {
    var n := |a| - 1;
    if j == n {
      TotalSame(a[..n], b[..n]);
    } else {
      TotalChange(a[..n], b[..n], j, more);
    }
  }

  lemma {:induction false} TotalSame(a: seq<PoolResponse>, b: seq<PoolResponse>)
    requires |a| == |b| && forall k :: 0 <= k < |a| ==> |b[k].upstreams| == |a[k].upstreams|
    ensures TotalUpstreams(b) == TotalUpstreams(a)
  {
    if a != [] {
      TotalSame(a[..|a| - 1], b[..|b| - 1]);
    }
  }

  /** No upstream is lost, invented or filed twice. */
  lemma {:induction false} GroupingConservesUpstreams(rows: seq<Row>)
    ensures TotalUpstreams(GroupBy(rows)) == |Upstreams(rows)|
  {
    if rows != [] {
      var n := |rows| - 1;
      var before, row := rows[..n], rows[n];
      assert rows == before + [row];
      GroupingConservesUpstreams(before);
      var j := GroupByOneMore(before, row);
      var grouped := GroupBy(before);
      if j < |grouped| {
        TotalChange(grouped, GroupBy(rows), j, if row.upstream.Some? then 1 else 0);
      } else {
        assert GroupBy(rows)[..j] == grouped;
      }
    }
  }

  /** Rows of one pool only make one entry, the one of the single-pool query. */
  lemma OnePoolGroups(rows: seq<Row>, id: int)
    requires rows != [] && forall r :: r in rows ==> r.poolId == id
    ensures GroupBy(rows) == [Entry(rows)]
  {
    OnePoolRows(rows, id);
    assert Ids(rows)[0] == id;
    assert GroupBy(rows)[0] == EntryOf(rows, id);
  }

  lemma {:induction false} RowsOfPool(rows: seq<Row>, id: int)
    ensures forall r :: r in RowsOf(rows, id) ==> r.poolId == id
  {
    if rows != [] {
      RowsOfPool(rows[..|rows| - 1], id);
    }
  }

  /** Grouping is local to a pool: the entry of a pool in the full response is the
      whole response to its own rows, and the one of the single-pool query, however
      the rows were interleaved with others. */
  lemma ByTagAgrees(rows: seq<Row>, j: nat)
    requires j < |Ids(rows)|
    ensures var own := RowsOf(rows, Ids(rows)[j]);
            own != [] && GroupBy(own) == [GroupBy(rows)[j]] == [Entry(own)]
  {
    IdsHaveRows(rows, Ids(rows)[j]);
    RowsOfPool(rows, Ids(rows)[j]);
    OnePoolGroups(RowsOf(rows, Ids(rows)[j]), Ids(rows)[j]);
  }

  lemma {:induction false} OnePoolRows(rows: seq<Row>, id: int)
    requires forall r :: r in rows ==> r.poolId == id
    ensures RowsOf(rows, id) == rows
    ensures Ids(rows) == if rows == [] then [] else [id]
  {
    if rows != [] {
      var n := |rows| - 1;
      assert rows[n] in rows;
      assert rows == rows[..n] + [rows[n]];
      OnePoolRows(rows[..n], id);
      RowsOneMore(rows[..n], rows[n], id);
    }
  }
}
