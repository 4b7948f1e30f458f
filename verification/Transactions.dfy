/** What the handlers share when they run against the client library: the transaction handle
    they mutate, the future a callback is given, and the asynchronous call it ends with. */
module Transactions {
  import opened Words
  import opened Keyspace
  import opened Rows
  import opened Serial
  import opened Chains
  import opened FlatStore

  /** An `FDBTransaction` handle: its write buffer, until it is destroyed. */
  class Transaction {
    var buffer: seq<FlatWrite>
    var live: bool

    constructor ()
      ensures buffer == [] && live
    {
      buffer := [];
      live := true;
    }

    /** `fdb_sync_set` */
    method Set(key: Bytes, value: Bytes)
      requires live
      modifies this
      ensures live && buffer == old(buffer) + [FlatWrite(key, value)]
    {
      buffer := buffer + [FlatWrite(key, value)];
    }

    /** The same for the next row of a batch `ws`, whose earlier rows are set. */
    method SetRow(key: Bytes, row: Row, ghost before: seq<FlatWrite>, ghost ws: seq<Write>, ghost i: nat)
      requires live && i < |ws| && key == EncodeKey(ws[i].key) && row == ws[i].value
      requires buffer == before + EncodeWrites(ws[..i])
      modifies this
      ensures live && buffer == before + EncodeWrites(ws[..i + 1])
    {
      EncodeSnoc(ws, i);
      Set(key, EncodeRow(row));
    }

    /** `fdb_transaction_destroy` */
    method Destroy()
      requires live
      modifies this`live
      ensures !live
    {
      live := false;
    }
  }

  /** A ready future: its error, the error of reading its value, and the value. */
  datatype RawFuture = RawFuture(failed: bool, unreadable: bool, present: bool, value: Bytes)

  /** The last call of a callback. */
  datatype Call =
    | GetCall(key: Bytes, cb: Callback)
    | CommitCall
    | OnErrorCall
    | Response(status: nat, body: Body)

  /** What the row machine says about a future for the row under `k`. */
  function Seen(k: Key, f: RawFuture): FutureResult
  {
    if f.failed then Failed
    else if f.unreadable then Unreadable
    else if !f.present then Absent
    else Found(View(k, f.value))
  }

  /** What it says about a future without a value. */
  function Settled(f: RawFuture): FutureResult { if f.failed then Failed else Ready }

  /** What a read ends with, from its future alone: an error goes to `on_error`; a value that is
      missing, unreadable or shorter than its struct is answered with 500, and nothing else is. */
  predicate ReadAnswers(f: RawFuture, size: nat, a: Call)
  {
    && (a == OnErrorCall <==> f.failed)
    && (a.Response? <==> !f.failed && (f.unreadable || !f.present || |f.value| < size))
    && (a.Response? ==> a == Response(500, Message))
  }

  /** A failed commit goes to `on_error`, a successful one is answered with 200. */
  predicate CommitAnswers(f: RawFuture, a: Call)
  {
    if f.failed then a == OnErrorCall else a.Response? && a.status == 200
  }

  /** A failed `on_error` is answered with 503, after a successful one the first row is read again. */
  predicate ErrorAnswers(f: RawFuture, first: Key, a: Call)
  {
    if f.failed then a == Response(503, Message) else a.GetCall? && a.key == EncodeKey(first)
  }

  function EncodeAction(a: Action): Call
  {
    match a
    case Get(k, cb) => GetCall(EncodeKey(k), cb)
    case Commit => CommitCall
    case HandleError => OnErrorCall
    case Respond(status, body) => Response(status, body)
  }

  lemma EncodeSnoc(ws: seq<Write>, i: nat)
    requires i < |ws|
    ensures EncodeWrites(ws[..i + 1]) == EncodeWrites(ws[..i]) + [EncodeWrite(ws[i])]
  {
    MapSnoc(EncodeWrite, ws, i);
  }

  lemma EncodeConcat(a: seq<Write>, b: seq<Write>)
    ensures EncodeWrites(a + b) == EncodeWrites(a) + EncodeWrites(b)
  {
    MapConcat(EncodeWrite, a, b);
  }
}
