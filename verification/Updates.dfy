/** `/updates`: read N rows of the World table one after the other, draw a new number for each,
    then write all of them and commit. Ids are drawn independently, so they may repeat. */
module Updates {
  import opened Words
  import opened Keyspace
  import opened KeyBuilders
  import opened FlatStore
  import opened Transactions

  const MAX_ID := 10000

  /** `get_random_world_id`: `get_random_number(max)` yields 1 to `max`, and 1 is added. */
  function WorldId(rand: nat): (id: u32)
    ensures 2 <= id <= MAX_ID + 1 && (id - 2 - rand) % MAX_ID == 0
  {
    1 + (rand % MAX_ID + 1)
  }

  datatype ReplyRow = ReplyRow(id: u32, randomNumber: u32)

  /** The last thing a callback does. */
  datatype Next = ReadNext(key: Bytes) | CommitWrites | Unavailable | Rows(rows: seq<ReplyRow>)

  /** The row writes of the batch, in loop order. */
  function BatchWrites(ids: seq<u32>, numbers: seq<u32>): seq<FlatWrite>
    requires |ids| == |numbers|
  {
    seq(|ids|, i requires 0 <= i < |ids| => FlatWrite(EncodeKey(World(ids[i])), EncodeU32(numbers[i])))
  }

  function Reply(ids: seq<u32>, numbers: seq<u32>): seq<ReplyRow>
    requires |ids| == |numbers|
  {
    seq(|ids|, i requires 0 <= i < |ids| => ReplyRow(ids[i], numbers[i]))
  }

  /** `update_ctx_t` */
  class Context {
    const tr: Transaction
    const numQuery: nat
    var numResult: nat
    const ids: array<u32>
    const randomNumbers: array<u32>
    var phase: bool
    var live: bool

    ghost predicate Valid()
      reads this, tr, ids, randomNumbers
    {
      && live && tr.live && ids != randomNumbers
      && ids.Length == randomNumbers.Length == numQuery
    }

    /** Waiting for row `numResult`. */
    ghost predicate Reading()
      reads this, tr, ids, randomNumbers
    {
      Valid() && !phase && numResult < numQuery && tr.buffer == []
    }

    /** Waiting for the commit: the buffer holds the whole batch. */
    ghost predicate Writing()
      reads this, tr, ids, randomNumbers
    {
      && Valid() && phase && numResult == numQuery
      && tr.buffer == BatchWrites(ids[..], randomNumbers[..])
    }

    /** `updates_handler`; `drawn` is what the generator yields. */
    constructor (t: Transaction, n: nat, drawn: seq<nat>)
      requires t.live && t.buffer == [] && 1 <= n <= |drawn|
      ensures Reading() && tr == t && numQuery == n && numResult == 0
      ensures fresh(ids) && fresh(randomNumbers)
      ensures forall i :: 0 <= i < n ==> ids[i] == WorldId(drawn[i])
    {
      tr, numQuery, numResult, phase, live := t, n, 0, false, true;
      ids := new u32[n];
      randomNumbers := new u32[n](_ => 0);
      new;
      var i := 0;
      while i < n
        invariant 0 <= i <= n
        invariant forall j :: 0 <= j < i ==> ids[j] == WorldId(drawn[j])
        modifies ids
      {
        ids[i] := WorldId(drawn[i]);
        i := i + 1;
      }
    }

    /** `update_on_read`: every future that carries no error counts as a row, present or not. */
    method OnRead(f: RawFuture, fallback: nat, rand: nat) returns (next: Next)
      requires Reading()
      modifies `numResult, `phase, `live, tr, randomNumbers
      ensures f.failed ==> next == Unavailable && !live && !tr.live && tr.buffer == []
      ensures !f.failed ==>
        && numResult == old(numResult) + 1
        && randomNumbers[..] == old(randomNumbers[..])[old(numResult) := WorldId(rand) - 1]
        && (if numResult < numQuery then Reading() && next == ReadNext(EncodeKey(World(ids[numResult])))
            else Writing() && next == CommitWrites)
    {
      if f.failed {
        next := Unavailable;
        tr.Destroy();
        live := false;
        return;
      }
      if f.unreadable || !f.present || |f.value| < 4 {
        randomNumbers[numResult] := WorldId(fallback);
      }
      randomNumbers[numResult] := WorldId(rand) - 1;
      assert randomNumbers[..] == old(randomNumbers[..])[old(numResult) := WorldId(rand) - 1];
      numResult := numResult + 1;
      if numResult < numQuery {
        var key := new byte[16];
        var klen := WorldKey(key, ids[numResult]);
        next := ReadNext(key[..klen]);
      } else {
        next := DoWrites();
      }
    }

    /** `update_do_writes` */
    method DoWrites() returns (next: Next)
      requires Valid() && numResult == numQuery && tr.buffer == []
      modifies `phase, tr
      ensures Writing() && next == CommitWrites
    {
      phase := true;
      ghost var ws := BatchWrites(ids[..], randomNumbers[..]);
      var i := 0;
      while i < numResult
        invariant 0 <= i <= numResult && tr.live
        invariant tr.buffer == ws[..i]
        modifies tr
      {
        var key := new byte[16];
        var klen := WorldKey(key, ids[i]);
        tr.Set(key[..klen], EncodeU32(randomNumbers[i]));
        assert tr.buffer == ws[..i] + [ws[i]] == ws[..i + 1];
        i := i + 1;
      }
      assert ws[..numResult] == ws;
      next := CommitWrites;
    }

    /** `update_on_commit`: the rows are sent whether or not the commit succeeded. */
    method OnCommit(f: RawFuture) returns (next: Next)
      requires Writing()
      modifies `live, tr`live
      ensures next == Rows(Reply(ids[..], randomNumbers[..])) && !live && !tr.live
    {
      var rows, i := [], 0;
      while i < numResult
        invariant 0 <= i <= numResult
        invariant rows == Reply(ids[..], randomNumbers[..])[..i]
      {
        rows := rows + [ReplyRow(ids[i], randomNumbers[i])];
        i := i + 1;
      }
      next := Rows(rows);
      tr.Destroy();
      live := false;
    }
  }

  /* --- What a committed batch leaves behind --- */

  /** Position `i` is the last one with its id. */
  predicate IsLast(ids: seq<u32>, i: nat)
  {
    i < |ids| && forall j :: i < j < |ids| ==> ids[j] != ids[i]
  }

  lemma {:induction false} FlatFrame(f: Flat, ws: seq<FlatWrite>, b: Bytes)
    requires forall i :: 0 <= i < |ws| ==> ws[i].key != b
    ensures b in ApplyFlat(f, ws) <==> b in f
    ensures b in f ==> ApplyFlat(f, ws)[b] == f[b]
  {
    if ws != [] { FlatFrame(f, ws[..|ws| - 1], b); }
  }

  lemma {:induction false} FlatLast(f: Flat, ws: seq<FlatWrite>, i: nat)
    requires i < |ws| && forall j :: i < j < |ws| ==> ws[j].key != ws[i].key
    ensures ws[i].key in ApplyFlat(f, ws) && ApplyFlat(f, ws)[ws[i].key] == ws[i].value
  {
    if i < |ws| - 1 { FlatLast(f, ws[..|ws| - 1], i); }
  }

  /** For a repeated id the number at its last position is stored. */
  lemma LastPositionWins(f: Flat, ids: seq<u32>, numbers: seq<u32>, i: nat)
    requires |ids| == |numbers| && IsLast(ids, i)
    ensures var f' := ApplyFlat(f, BatchWrites(ids, numbers));
      EncodeKey(World(ids[i])) in f' && f'[EncodeKey(World(ids[i]))] == EncodeU32(numbers[i])
  {
    var ws := BatchWrites(ids, numbers);
    forall j | i < j < |ws| ensures ws[j].key != ws[i].key {
      if ws[j].key == ws[i].key { KeyInjective(World(ids[j]), World(ids[i])); }
    }
    FlatLast(f, ws, i);
  }

  /** No other key, World row or not, changes. */
  lemma OthersUnchanged(f: Flat, ids: seq<u32>, numbers: seq<u32>, k: Key)
    requires |ids| == |numbers| && (k.World? ==> k.i !in ids)
    ensures var f' := ApplyFlat(f, BatchWrites(ids, numbers));
      (EncodeKey(k) in f' <==> EncodeKey(k) in f) && (EncodeKey(k) in f ==> f'[EncodeKey(k)] == f[EncodeKey(k)])
  {
    var ws := BatchWrites(ids, numbers);
    forall i | 0 <= i < |ws| ensures ws[i].key != EncodeKey(k) {
      if ws[i].key == EncodeKey(k) { KeyInjective(World(ids[i]), k); }
    }
    FlatFrame(f, ws, EncodeKey(k));
  }

  /** The last position with the id of position `i`. */
  function LastIndex(ids: seq<u32>, i: nat): (l: nat)
    requires i < |ids|
    ensures i <= l && IsLast(ids, l) && ids[l] == ids[i]
  {
    var n := |ids| - 1;
    if ids[n] == ids[i] then n else LastIndex(ids[..n], i)
  }

  /** The table holds the number that position `i` of the reply gives for its id. */
  predicate Agrees(f: Flat, ids: seq<u32>, numbers: seq<u32>, i: nat)
    requires |ids| == |numbers| && i < |ids|
  {
    var row := Reply(ids, numbers)[i];
    EncodeKey(World(row.id)) in f && f[EncodeKey(World(row.id))] == EncodeU32(row.randomNumber)
  }

  /** After an applied batch, position `i` of the reply is what the table holds exactly when it
      repeats the number of the last position with the same id. */
  lemma ReplyIsStored(f: Flat, ids: seq<u32>, numbers: seq<u32>, i: nat)
    requires |ids| == |numbers| && i < |ids|
    ensures Agrees(ApplyFlat(f, BatchWrites(ids, numbers)), ids, numbers, i)
       <==> numbers[i] == numbers[LastIndex(ids, i)]
  {
    var l := LastIndex(ids, i);
    LastPositionWins(f, ids, numbers, l);
    U32RoundTrip(numbers[i]);
    U32RoundTrip(numbers[l]);
  }

  /** The store after the commit, which the reply does not wait to learn about. */
  function Committed(f: Flat, ids: seq<u32>, numbers: seq<u32>, applied: bool): Flat
    requires |ids| == |numbers|
  {
    if applied then ApplyFlat(f, BatchWrites(ids, numbers)) else f
  }

  /** Main result: the reply is sent whatever became of the commit, so a position of it agrees with
      the table exactly when the batch was applied and the position repeats the last number of its
      id, or the batch was not applied and the row already held that number. */
  lemma ReplyAfterCommit(f: Flat, ids: seq<u32>, numbers: seq<u32>, i: nat, applied: bool)
    requires |ids| == |numbers| && i < |ids|
    ensures Agrees(Committed(f, ids, numbers, applied), ids, numbers, i)
       <==> || (applied && numbers[i] == numbers[LastIndex(ids, i)])
            || (!applied && EncodeKey(World(ids[i])) in f && f[EncodeKey(World(ids[i]))] == EncodeU32(numbers[i]))
  {
    if applied { ReplyIsStored(f, ids, numbers, i); }
  }

  predicate NoneRepeats(ids: seq<u32>)
  {
    forall i, j :: 0 <= i < j < |ids| ==> ids[i] != ids[j]
  }

  /** Without repeated ids an applied batch is answered truthfully throughout. */
  lemma DistinctIdsAgree(f: Flat, ids: seq<u32>, numbers: seq<u32>, i: nat)
    requires |ids| == |numbers| && i < |ids| && NoneRepeats(ids)
    ensures Agrees(ApplyFlat(f, BatchWrites(ids, numbers)), ids, numbers, i)
  {
    ReplyIsStored(f, ids, numbers, i);
    assert LastIndex(ids, i) == i;
  }

  /** One id drawn twice, with two numbers: the first position of the reply is wrong. */
  lemma RepeatedIdMisreported()
    ensures !Agrees(Committed(map[], [2, 2], [7, 8], true), [2, 2], [7, 8], 0)
  {
    ReplyAfterCommit(map[], [2, 2], [7, 8], 0, true);
    assert LastIndex([2, 2], 0) == 1;
  }

  /** A commit that failed on an empty table: the reply reports a row that is not there. */
  lemma FailedCommitMisreported()
    ensures !Agrees(Committed(map[], [2], [7], false), [2], [7], 0)
  {
  }
}
