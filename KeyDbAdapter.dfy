/** The store adapter of the `keydb` synchronizer.

    Unlike the `dynamodb-runtime` adapter it makes one attempt per call: a
    failed `get` or `put` is returned to the caller, and the `.unwrap()`s on
    `connect` and on the tip-height `SET` abort the process.  Each call takes
    the outcome of its attempts as flags.  Keys are never labeled. */
module KeyDbAdapter {
  import opened Outcome
  import opened Bytes
  import opened Store

  /** `RedisBatch`: the pipeline's queued `SET` commands. */
  class Batch {
    var cmds: seq<Cmd>

    /** `BatchLike::default`: an empty pipeline. */
    constructor Default()
      ensures cmds == []
    {
      cmds := [];
    }

    /** `RedisBatch::put`: queues a `SET` of the key as it is. */
    method Put(k: Bytes, v: Bytes)
      modifies this
      ensures cmds == old(cmds) + [Set(k, v)]
    {
      cmds := cmds + [Set(ToRedisArgs(k)[0], ToRedisArgs(v)[0])];
    }
  }

  /** The store after `write` as far as it got: nothing if the connection or
      the tip-height `SET` failed; otherwise the tip height and then the
      whole batch, or, when the non-transactional pipeline failed, the
      first `applied` of its commands (possibly none, possibly all). */
  function WriteEffect(m: map<Bytes, Bytes>, cmds: seq<Cmd>, height: u32,
                       connectOk: bool, setOk: bool, queryOk: bool, applied: nat): (r: map<Bytes, Bytes>)
    ensures !(connectOk && setOk) ==> r == m
    ensures connectOk && setOk ==>
              exists n :: 0 <= n <= |cmds| && r == ApplyAll(m[TIP_HEIGHT_KEY := LeBytes(height)], cmds[..n])
    ensures connectOk && setOk && queryOk ==> r == ApplyAll(m[TIP_HEIGHT_KEY := LeBytes(height)], cmds)
    ensures connectOk && setOk && queryOk ==> ReadBytes(r, TIP_HEIGHT_KEY) == LastWriteOr(cmds, LeBytes(height))
    ensures connectOk && setOk && LastWrite(cmds, TIP_HEIGHT_KEY).None? ==> ReadBytes(r, TIP_HEIGHT_KEY) == LeBytes(height)
  {
    if !(connectOk && setOk) then m
    else
      var tipped := m[TIP_HEIGHT_KEY := LeBytes(height)];
      var n := if queryOk || applied > |cmds| then |cmds| else applied;
      assert cmds[..|cmds|] == cmds;
      ApplyAllLookup(tipped, cmds[..n], TIP_HEIGHT_KEY);
      LastWritePrefix(cmds, n, TIP_HEIGHT_KEY);
      ApplyAll(tipped, cmds[..n])
  }

  /** The tip-height bytes after a `write` whose pipeline ran: the batch's
      own last write of the tip key if it has one, else the separately set
      value. */
  function LastWriteOr(cmds: seq<Cmd>, tip: Bytes): Bytes
  {
    if LastWrite(cmds, TIP_HEIGHT_KEY).Some? then LastWrite(cmds, TIP_HEIGHT_KEY).value else tip
  }

  /** As written, `write` is not atomic: when the pipeline fails after the
      separate tip-height `SET`, the stored tip height has moved to `height`
      however much of a batch that leaves the tip key alone ran, none of it
      included. */
  lemma WriteAdvancesTipWithoutBatch(m: map<Bytes, Bytes>, cmds: seq<Cmd>, height: u32, applied: nat)
    requires LastWrite(cmds, TIP_HEIGHT_KEY).None?
    ensures DecodeTipHeight(Some(ReadBytes(WriteEffect(m, cmds, height, true, true, false, applied), TIP_HEIGHT_KEY)), 0) == Ok(height)
    ensures WriteEffect(m, cmds, height, true, true, false, 0) == m[TIP_HEIGHT_KEY := LeBytes(height)]
  {
    TipHeightRoundTrip(height, 0);
  }

  /** A concrete instance: an empty store, a batch putting `k ↦ v`, a
      pipeline that failed before running anything.  Afterwards the tip
      height reads 7 and `k` is absent. */
  lemma WriteNotAtomicExample()
    ensures var k := AsciiBytes("k");
            var after := WriteEffect(map[], [Set(k, AsciiBytes("v"))], 7, true, true, false, 0);
            && DecodeTipHeight(Some(ReadBytes(after, TIP_HEIGHT_KEY)), 0) == Ok(7)
            && k !in after
  {
    var k := AsciiBytes("k");
    assert |k| != |TIP_HEIGHT_KEY|;
    assert LastWrite([Set(k, AsciiBytes("v"))], TIP_HEIGHT_KEY).None?;
    WriteAdvancesTipWithoutBatch(map[], [Set(k, AsciiBytes("v"))], 7, 0);
  }

  /** `RedisRuntimeAdapter(uri, connection)`. */
  class Adapter {
    const uri: string
    var conn: Connection

    constructor (uri: string, conn: Connection)
      ensures this.uri == uri && this.conn == conn
    {
      this.uri := uri;
      this.conn := conn;
    }

    /** `open`: one connection attempt. */
    static method Open(uri: string, reachable: bool) returns (r: Res<Adapter>)
      ensures reachable ==> r.Ok? && fresh(r.value) && fresh(r.value.conn) && r.value.uri == uri
      ensures !reachable ==> r == Err(StoreFailed)
    {
      if !reachable {
        return Err(StoreFailed);
      }
      var c := new Connection();
      var a := new Adapter(uri, c);
      return Ok(a);
    }

    /** `connect`: one connection attempt to the same URI. */
    method Connect(reachable: bool) returns (r: Res<Connection>)
      ensures reachable ==> r.Ok? && fresh(r.value)
      ensures !reachable ==> r == Err(StoreFailed)
    {
      if !reachable {
        return Err(StoreFailed);
      }
      var c := new Connection();
      return Ok(c);
    }

    /** `reset_connection`: installs a new handle; `connect().unwrap()`
        aborts when the attempt fails. */
    method ResetConnection(reachable: bool) returns (r: Res<()>)
      modifies this
      ensures reachable ==> r == Ok(()) && fresh(conn)
      ensures !reachable ==> r == Abort(Unwrapped(StoreFailed)) && conn == old(conn)
    {
      var c := Connect(reachable);
      if c.Err? {
        return Abort(Unwrapped(c.error));
      }
      conn := c.value;
      return Ok(());
    }

    /** `clone`: shares the connection handle. */
    method Clone() returns (c: Adapter)
      ensures fresh(c) && c.uri == uri && c.conn == conn
    {
      c := new Adapter(uri, conn);
    }

    /** `write`: on a new connection, `SET`s the tip-height key to the
        little-endian `height` (the process-wide `_HEIGHT`), then submits the
        pipeline (which, failing, ran its first `applied` commands), then
        resets the shared connection and returns the pipeline's result. */
    method Write(db: Server, batch: Batch, height: u32,
                 connectOk: bool, setOk: bool, queryOk: bool, applied: nat, reconnectOk: bool) returns (r: Res<()>)
      modifies this, db
      ensures db.data == WriteEffect(old(db.data), batch.cmds, height, connectOk, setOk, queryOk, applied)
      ensures !(connectOk && setOk) ==> r == Abort(Unwrapped(StoreFailed)) && conn == old(conn)
      ensures connectOk && setOk && !reconnectOk ==> r == Abort(Unwrapped(StoreFailed))
      ensures connectOk && setOk && reconnectOk ==>
                r == (if queryOk then Ok(()) else Err(StoreFailed)) && fresh(conn)
    {
      var keyBytes := TIP_HEIGHT_KEY;
      var heightBytes := LeBytes(height);
      var connection := Connect(connectOk);
      if connection.Err? {
        return Abort(Unwrapped(connection.error));
      }
      if !setOk {
        return Abort(Unwrapped(StoreFailed));
      }
      db.data := db.data[ToRedisArgs(keyBytes)[0] := ToRedisArgs(heightBytes)[0]];
      var result: Res<()> := Err(StoreFailed);
      if queryOk {
        assert batch.cmds[..|batch.cmds|] == batch.cmds;
        db.data := ApplyAll(db.data, batch.cmds);
        result := Ok(());
      } else {
        var n := if applied > |batch.cmds| then |batch.cmds| else applied;
        db.data := ApplyAll(db.data, batch.cmds[..n]);
      }
      var reset := ResetConnection(reconnectOk);
      if reset.Abort? {
        return reset;
      }
      return result;
    }

    /** `get`: one attempt on the shared connection. */
    method Get(db: Server, key: Bytes, ok: bool) returns (r: Res<Option<Bytes>>)
      ensures ok ==> r == Ok(Lookup(db.data, key))
      ensures !ok ==> r == Err(StoreFailed)
    {
      if !ok {
        return Err(StoreFailed);
      }
      return Ok(Lookup(db.data, ToRedisArgs(key)[0]));
    }

    /** `put`: one attempt on the shared connection. */
    method Put(db: Server, key: Bytes, value: Bytes, ok: bool) returns (r: Res<()>)
      modifies db
      ensures ok ==> r == Ok(()) && db.data == old(db.data)[key := value]
      ensures !ok ==> r == Err(StoreFailed) && db.data == old(db.data)
    {
      if !ok {
        return Err(StoreFailed);
      }
      db.data := db.data[ToRedisArgs(key)[0] := ToRedisArgs(value)[0]];
      return Ok(());
    }

    /** `delete`: one attempt on a new connection; `connect().unwrap()`
        aborts when the connection attempt fails. */
    method Delete(db: Server, key: Bytes, connectOk: bool, ok: bool) returns (r: Res<()>)
      modifies db
      ensures !connectOk ==> r == Abort(Unwrapped(StoreFailed)) && db.data == old(db.data)
      ensures connectOk && ok ==> r == Ok(()) && db.data == old(db.data) - {key}
      ensures connectOk && !ok ==> r == Err(StoreFailed) && db.data == old(db.data)
    {
      var connection := Connect(connectOk);
      if connection.Err? {
        return Abort(Unwrapped(connection.error));
      }
      if !ok {
        return Err(StoreFailed);
      }
      db.data := db.data - {ToRedisArgs(key)[0]};
      return Ok(());
    }
  }
}
