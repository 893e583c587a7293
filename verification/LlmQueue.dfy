/** The durable LLM analysis queue: one PostgreSQL table and the statements that change it
    (app/services/llm_analysis_queue.py). Times are seconds. */
module LlmQueue {
  import opened Common

  datatype Status = Pending | Processing | Done | Failed | Batched

  /** A payload column: JSON that parses, or a string that does not. */
  datatype Payload = Parsed(value: string) | Corrupt

  datatype ItemRow = ItemRow(
    jobId: string, payload: Payload, status: Status, attempts: nat, lastError: Option<string>,
    nextAttemptAt: int, claimedAt: Option<int>, workerId: Option<string>, batchId: Option<string>)

  type Table = map<string, ItemRow>

  datatype QueueItem = QueueItem(itemId: string, jobId: string, payload: string, attempts: nat)

  // ---------------------------------------------------------------------
  // What each statement does to one row
  // ---------------------------------------------------------------------

  function NewRow(jobId: string, payload: Payload, now: int): ItemRow {
    ItemRow(jobId, payload, Pending, 0, None, now, None, None, None)
  }

  function Claimed(row: ItemRow, now: int, workerId: string): ItemRow {
    row.(status := Processing, attempts := row.attempts + 1, claimedAt := Some(now), workerId := Some(workerId))
  }

  function Truncated(error: string): string {
    if |error| > 1000 then error[..1000] else error
  }

  function AfterFailure(row: ItemRow, error: string, retryIn: Option<int>, now: int): ItemRow {
    match retryIn
    case None => row.(status := Failed, lastError := Some(Truncated(error)))
    case Some(delay) =>
      row.(status := Pending, lastError := Some(Truncated(error)), nextAttemptAt := now + delay, claimedAt := None)
  }

  predicate BatchableBy(row: ItemRow, workerId: string) {
    row.status.Processing? && row.workerId == Some(workerId)
  }

  function IntoBatch(row: ItemRow, batch: string): ItemRow {
    row.(status := Batched, batchId := Some(batch), lastError := None, claimedAt := None)
  }

  predicate Expired(row: ItemRow, lease: int, now: int) {
    row.status.Processing? && row.claimedAt.Some? && row.claimedAt.value < now - lease
  }

  function Reclaimed(row: ItemRow): ItemRow {
    row.(status := Pending, claimedAt := None, workerId := None,
         lastError := if row.lastError.Some? then row.lastError else Some("worker lease expired"))
  }

  // ---------------------------------------------------------------------
  // What each statement does to the table
  // ---------------------------------------------------------------------

  predicate Due(row: ItemRow, now: int) {
    row.status.Pending? && row.nextAttemptAt <= now
  }

  /** SELECT ... ORDER BY next_attempt_at LIMIT limit FOR UPDATE SKIP LOCKED. */
  predicate IsTake(table: Table, now: int, locked: set<string>, limit: int, picked: seq<string>) {
    && |picked| <= limit
    && (forall i, j :: 0 <= i < j < |picked| ==> picked[i] != picked[j])
    && (forall x :: x in picked ==>
          x in table && x !in locked && table[x].status == Pending && table[x].nextAttemptAt <= now)
    && (forall i, j :: 0 <= i < j < |picked| ==> table[picked[i]].nextAttemptAt <= table[picked[j]].nextAttemptAt)
    && (forall y :: y in table && y !in locked && y !in picked
                    && table[y].status == Pending && table[y].nextAttemptAt <= now ==>
          |picked| == limit && forall x :: x in picked ==> table[x].nextAttemptAt <= table[y].nextAttemptAt)
  }

  function AfterClaim(table: Table, picked: seq<string>, now: int, workerId: string): Table {
    map x | x in table :: if x in picked then Claimed(table[x], now, workerId) else table[x]
  }

  function FailItem(table: Table, itemId: string, error: string, retryIn: Option<int>, now: int): Table {
    if itemId in table then table[itemId := AfterFailure(table[itemId], error, retryIn, now)] else table
  }

  /** The corrupt rows among the picked ones are failed as they come back. */
  function ParkCorrupt(table: Table, picked: seq<string>, now: int): Table {
    map x | x in table :: if x in picked && table[x].payload.Corrupt?
                          then AfterFailure(table[x], "corrupt payload", None, now) else table[x]
  }

  function ToItem(itemId: string, row: ItemRow): QueueItem
    requires row.payload.Parsed?
  {
    QueueItem(itemId, row.jobId, row.payload.value, row.attempts)
  }

  function InBatch(table: Table): string -> bool {
    (x: string) => x in table && table[x].status == Batched
  }

  /** Each entry is the id with the job and the payload of its own row. */
  predicate BatchRows(table: Table, ids: seq<string>, rows: seq<(string, string, string)>)
    requires |ids| == |rows|
  {
    forall i :: 0 <= i < |ids| ==>
      && rows[i].0 == ids[i] && ids[i] in table
      && table[ids[i]].jobId == rows[i].1 && table[ids[i]].payload == Parsed(rows[i].2)
  }

  /** The claimed items whose payload parses, in the order they came back. */
  function ParsedItems(table: Table, picked: seq<string>): seq<QueueItem>
    requires forall x :: x in picked ==> x in table
  {
    if picked == [] then []
    else
      var n := |picked| - 1;
      var x := picked[n];
      ParsedItems(table, picked[..n]) + (if table[x].payload.Parsed? then [ToItem(x, table[x])] else [])
  }

  /** The items are those of the ids in order, each with the content of its own row. */
  predicate ItemsOf(table: Table, ids: seq<string>, items: seq<QueueItem>) {
    && |items| == |ids|
    && forall i :: 0 <= i < |ids| ==>
         && items[i].itemId == ids[i] && ids[i] in table
         && table[ids[i]].jobId == items[i].jobId && table[ids[i]].payload == Parsed(items[i].payload)
         && table[ids[i]].attempts == items[i].attempts
  }

  function Parses(table: Table): string -> bool {
    (x: string) => x in table && table[x].payload.Parsed?
  }

  /** What a claim hands out: the picked rows whose payload parses, each once, in order. */
  lemma {:induction false} ParsedItemsExactly(table: Table, picked: seq<string>)
    requires forall x :: x in picked ==> x in table
    ensures ItemsOf(table, Filter(picked, Parses(table)), ParsedItems(table, picked))
  {
    if picked != [] {
      var n := |picked| - 1;
      ParsedItemsExactly(table, picked[..n]);
      assert picked == picked[..n] + [picked[n]];
      FilterAppend(picked[..n], [picked[n]], Parses(table));
    }
  }

  lemma ParsedOneMore(table: Table, rows: seq<string>, k: nat)
    requires k < |rows| && forall x :: x in rows ==> x in table
    ensures ParsedItems(table, rows[..k + 1])
         == ParsedItems(table, rows[..k])
            + (if table[rows[k]].payload.Parsed? then [ToItem(rows[k], table[rows[k]])] else [])
  {
    assert rows[..k + 1][..k] == rows[..k];
  }

  /** A claim neither changes which payloads parse nor what they say. */
  lemma ReturnedRows(table: Table, picked: seq<string>, now: int, workerId: string)
    requires forall x :: x in picked ==> x in table
    ensures var taken, returned := AfterClaim(table, picked, now, workerId), Filter(picked, Parses(table));
            && returned == Filter(picked, Parses(taken))
            && forall x :: x in returned ==> x in table && x in picked && table[x].payload.Parsed?
  {
    FilterAgrees(picked, Parses(table), Parses(AfterClaim(table, picked, now, workerId)));
    forall x {
      FilterMember(picked, Parses(table), x);
    }
  }

  lemma ParkOneMore(table: Table, rows: seq<string>, k: nat, now: int)
    requires k < |rows| && rows[k] in table
    requires forall i, j :: 0 <= i < j < |rows| ==> rows[i] != rows[j]
    ensures ParkCorrupt(table, rows[..k + 1], now)
         == if table[rows[k]].payload.Corrupt?
            then FailItem(ParkCorrupt(table, rows[..k], now), rows[k], "corrupt payload", None, now)
            else ParkCorrupt(table, rows[..k], now)
  {
    assert rows[..k + 1] == rows[..k] + [rows[k]];
    assert rows[k] !in rows[..k];
  }

  function MarkBatchedIn(table: Table, ids: seq<string>, workerId: string, batch: string): Table {
    map x | x in table :: if x in ids && BatchableBy(table[x], workerId) then IntoBatch(table[x], batch) else table[x]
  }

  function ReclaimIn(table: Table, lease: int, now: int): Table {
    map x | x in table :: if Expired(table[x], lease, now) then Reclaimed(table[x]) else table[x]
  }

  function Ids(entries: seq<(string, string)>): seq<string> {
    seq(|entries|, i requires 0 <= i < |entries| => entries[i].0)
  }

  lemma IdsMember(entries: seq<(string, string)>, x: string)
    ensures x in Ids(entries) <==> exists k :: 0 <= k < |entries| && entries[k].0 == x
  {
    if k :| 0 <= k < |entries| && entries[k].0 == x {
      assert Ids(entries)[k] == x;
    }
  }

  // ---------------------------------------------------------------------
  // A take always exists
  // ---------------------------------------------------------------------

  predicate Earliest(table: Table, candidates: set<string>, x: string)
    requires candidates <= table.Keys
  {
    x in candidates && forall y :: y in candidates ==> table[x].nextAttemptAt <= table[y].nextAttemptAt
  }

  lemma {:induction false} EarliestExists(table: Table, candidates: set<string>)
    requires candidates <= table.Keys && candidates != {}
    ensures exists x :: Earliest(table, candidates, x)
    decreases candidates
  {
    var a :| a in candidates;
    var rest := candidates - {a};
    if rest == {} {
      assert candidates == {a};
      assert Earliest(table, candidates, a);
    } else {
      EarliestExists(table, rest);
      var b :| Earliest(table, rest, b);
      var x := if table[a].nextAttemptAt <= table[b].nextAttemptAt then a else b;
      assert forall y :: y in candidates ==> y == a || y in rest;
      assert Earliest(table, candidates, x);
    }
  }

  /** Selecting the earliest remaining due row, limit times over, is a take. */
  method SelectDue(table: Table, now: int, locked: set<string>, limit: int) returns (picked: seq<string>)
    requires limit >= 0
    ensures IsTake(table, now, locked, limit, picked)
  {
    picked := [];
    var left := set x | x in table && x !in locked && Due(table[x], now);
    while |picked| < limit && left != {}
      invariant |picked| <= limit
      invariant forall x :: x in left <==> x in table && x !in locked && Due(table[x], now) && x !in picked
      invariant forall i, j :: 0 <= i < j < |picked| ==> picked[i] != picked[j]
      invariant forall x :: x in picked ==> x in table && x !in locked && Due(table[x], now)
      invariant forall i, j :: 0 <= i < j < |picked| ==>
                  table[picked[i]].nextAttemptAt <= table[picked[j]].nextAttemptAt
      invariant forall x, y :: x in picked && y in left ==> table[x].nextAttemptAt <= table[y].nextAttemptAt
      decreases left
    {
      EarliestExists(table, left);
      var x: string :| x in left && forall y :: y in left ==> table[x].nextAttemptAt <= table[y].nextAttemptAt;
      picked := picked + [x];
      left := left - {x};
    }
  }

  class LLMAnalysisQueue {
    var table: Table

    constructor ()
      ensures table == map[]
    {
      table := map[];
    }

    method Enqueue(itemId: string, jobId: string, payload: Payload, now: int) returns (added: bool)
      modifies this
      ensures added <==> itemId !in old(table)
      ensures table == if itemId in old(table) then old(table) else old(table)[itemId := NewRow(jobId, payload, now)]
      ensures added ==> table[itemId] == ItemRow(jobId, payload, Pending, 0, None, now, None, None, None)
    {
      if itemId in table {
        return false;
      }
      table := table[itemId := NewRow(jobId, payload, now)];
      added := true;
    }

    /** locked are the rows other transactions hold locked at this moment. */
    method Claim(limit: int, workerId: string, now: int, locked: set<string>)
      returns (claimed: seq<QueueItem>, ghost picked: seq<string>)
      modifies this
      ensures IsTake(old(table), now, locked, Max(limit, 0), picked)
      ensures var taken := AfterClaim(old(table), picked, now, workerId);
              table == ParkCorrupt(taken, picked, now) && claimed == ParsedItems(taken, picked)
      ensures table.Keys == old(table).Keys
      ensures forall x :: x in table ==>
                var was := old(table)[x];
                table[x] ==
                  if x !in picked then was
                  else if was.payload.Corrupt? then
                    was.(status := Failed, attempts := was.attempts + 1, lastError := Some("corrupt payload"),
                         claimedAt := Some(now), workerId := Some(workerId))
                  else
                    was.(status := Processing, attempts := was.attempts + 1,
                         claimedAt := Some(now), workerId := Some(workerId))
      ensures var returned := Filter(picked, Parses(old(table)));
              && |claimed| == |returned|
              && forall i :: 0 <= i < |claimed| ==>
                   && claimed[i].itemId == returned[i] && returned[i] in old(table)
                   && var q, was := claimed[i], old(table)[returned[i]];
                      q.jobId == was.jobId && was.payload == Parsed(q.payload) && q.attempts == was.attempts + 1
    {
      if limit <= 0 {
        picked := [];
        assert AfterClaim(table, [], now, workerId) == table == ParkCorrupt(table, [], now);
        return [], [];
      }
      var rows := SelectDue(table, now, locked, limit);
      picked := rows;
      ReturnedRows(table, rows, now, workerId);
      table := AfterClaim(table, rows, now, workerId);
      claimed := ReturnClaimed(rows, now);
    }

    /** The loop over the RETURNING rows. */
    method ReturnClaimed(rows: seq<string>, now: int) returns (claimed: seq<QueueItem>)
      requires forall x :: x in rows ==> x in table
      requires forall i, j :: 0 <= i < j < |rows| ==> rows[i] != rows[j]
      modifies this
      ensures table == ParkCorrupt(old(table), rows, now) && claimed == ParsedItems(old(table), rows)
      ensures ItemsOf(old(table), Filter(rows, Parses(old(table))), claimed)
    {
      claimed := [];
      ParsedItemsExactly(table, rows);
      var taken := table;
      var k := 0;
      assert ParkCorrupt(taken, rows[..0], now) == taken;
      while k < |rows|
        invariant 0 <= k <= |rows|
        invariant table == ParkCorrupt(taken, rows[..k], now)
        invariant claimed == ParsedItems(taken, rows[..k])
      {
        var x := rows[k];
        ParkOneMore(taken, rows, k, now);
        ParsedOneMore(taken, rows, k);
        if taken[x].payload.Corrupt? {
          Fail(x, "corrupt payload", None, now);
          assert ParsedItems(taken, rows[..k + 1]) == claimed;
        } else {
          claimed := claimed + [ToItem(x, taken[x])];
          assert ParsedItems(taken, rows[..k + 1]) == claimed;
        }
        assert table == ParkCorrupt(taken, rows[..k + 1], now);
        k := k + 1;
      }
      assert rows[..k] == rows;
    }

    method SettleSuccess(itemIds: seq<string>)
      modifies this
      ensures table == old(table) - set x | x in itemIds
    {
      if itemIds == [] {
        return;
      }
      table := table - set x | x in itemIds;
    }

    method Fail(itemId: string, error: string, retryIn: Option<int>, now: int)
      modifies this
      ensures table == FailItem(old(table), itemId, error, retryIn, now)
      ensures itemId !in old(table) ==> table == old(table)
      ensures itemId in old(table) ==>
                && table.Keys == old(table).Keys
                && (forall x :: x in table && x != itemId ==> table[x] == old(table)[x])
                && var was, text := old(table)[itemId], error[..Min(|error|, 1000)];
                   table[itemId] ==
                     if retryIn == None then was.(status := Failed, lastError := Some(text))
                     else was.(status := Pending, lastError := Some(text),
                               nextAttemptAt := now + retryIn.value, claimedAt := None)
    {
      if itemId in table {
        var row := table[itemId];
        var cut := if |error| > 1000 then error[..1000] else error;
        assert cut == error[..Min(|error|, 1000)];
        if retryIn == None {
          row := row.(status := Failed, lastError := Some(cut));
        } else {
          row := row.(status := Pending, lastError := Some(cut), nextAttemptAt := now + retryIn.value,
                      claimedAt := None);
        }
        table := table[itemId := row];
      }
    }

    /** The statement compares worker_id with the worker of the first entry only. */
    method MarkBatched(entries: seq<(string, string)>, batch: string) returns (moved: nat)
      modifies this
      ensures entries == [] ==> table == old(table) && moved == 0
      ensures entries != [] ==> table == MarkBatchedIn(old(table), Ids(entries), entries[0].1, batch)
      ensures entries != [] ==>
                moved == |set x | x in old(table) && x in Ids(entries)
                                  && old(table)[x].status == Processing && old(table)[x].workerId == Some(entries[0].1)|
      ensures table.Keys == old(table).Keys
      ensures forall x :: x in table ==>
                var was := old(table)[x];
                table[x] ==
                  if (exists k :: 0 <= k < |entries| && entries[k].0 == x)
                     && was.status == Processing && was.workerId == Some(entries[0].1)
                  then was.(status := Batched, batchId := Some(batch), lastError := None, claimedAt := None)
                  else was
    {
      if entries == [] {
        return 0;
      }
      var ids := Ids(entries);
      forall x {
        IdsMember(entries, x);
      }
      var hit := set x | x in table && x in ids && BatchableBy(table[x], entries[0].1);
      assert hit == set x | x in table && x in ids
                            && table[x].status == Processing && table[x].workerId == Some(entries[0].1);
      table := map x | x in table :: if x in hit then IntoBatch(table[x], batch) else table[x];
      moved := |hit|;
    }

    /** The batched rows behind the ids, in the order of the ids. None when a stored payload does
        not parse: json.loads raises here. */
    method RowsForBatch(itemIds: seq<string>) returns (out: Option<seq<(string, string, string)>>)
      ensures var batched := Filter(itemIds, InBatch(table));
              && (out == None <==> exists x :: x in batched && x in table && table[x].payload.Corrupt?)
              && (out.Some? ==> |out.value| == |batched| && BatchRows(table, batched, out.value))
    {
      var rows: seq<(string, string, string)> := [];
      for k := 0 to |itemIds|
        invariant var batched := Filter(itemIds[..k], InBatch(table));
                  |rows| == |batched| && BatchRows(table, batched, rows)
      {
        var x := itemIds[k];
        assert itemIds[..k + 1] == itemIds[..k] + [x];
        FilterAppend(itemIds[..k], [x], InBatch(table));
        if x in table && table[x].status.Batched? {
          if table[x].payload.Corrupt? {
            FilterMember(itemIds, InBatch(table), x);
            return None;
          }
          rows := rows + [(x, table[x].jobId, table[x].payload.value)];
        }
      }
      assert itemIds[..|itemIds|] == itemIds;
      out := Some(rows);
    }

    method ReclaimStalled(lease: int, now: int) returns (reclaimed: nat)
      modifies this
      ensures table == ReclaimIn(old(table), lease, now)
      ensures reclaimed == |set x | x in old(table) && old(table)[x].status == Processing
                                    && old(table)[x].claimedAt.Some? && old(table)[x].claimedAt.value < now - lease|
      ensures table.Keys == old(table).Keys
      ensures forall x :: x in table ==>
                var was := old(table)[x];
                table[x] ==
                  if was.status == Processing && was.claimedAt.Some? && was.claimedAt.value < now - lease
                  then was.(status := Pending, claimedAt := None, workerId := None,
                            lastError := if was.lastError == None then Some("worker lease expired") else was.lastError)
                  else was
    {
      var stalled := set x | x in table && Expired(table[x], lease, now);
      assert stalled == set x | x in table && table[x].status == Processing
                                && table[x].claimedAt.Some? && table[x].claimedAt.value < now - lease;
      table := map x | x in table :: if x in stalled then Reclaimed(table[x]) else table[x];
      reclaimed := |stalled|;
    }
  }
}
