/** The resilient, namespaced store adapter of the `dynamodb-runtime` crate.

    Keys may be namespaced by a process-wide label; `get`, `put`, `delete`
    and `write` retry forever, resetting the connection after every failed
    attempt.  Each retry loop is modelled over a finite sequence of attempt
    outcomes (`true` = the attempt succeeded) that contains a success: the
    service is assumed to come back eventually, as the source assumes. */
module RuntimeAdapter {
  import opened Outcome
  import opened Bytes
  import opened Store

  const SEPARATOR: Bytes := AsciiBytes("://")

  /** A stored label has the shape `set_label` gives it: some string
      followed by the separator. */
  predicate LabelShape(prefix: Option<Bytes>)
  {
    prefix.Some? ==> |prefix.value| >= |SEPARATOR| && prefix.value[|prefix.value| - |SEPARATOR|..] == SEPARATOR
  }

  /** The process-wide `_LABEL`; `None` until `set_label` runs. */
  class LabelCell {
    var prefix: Option<Bytes>

    constructor ()
      ensures prefix == None
      ensures !HasLabel()
    {
      prefix := None;
    }

    /** `set_label(s)`; `s` is given as its UTF-8 bytes. */
    method SetLabel(s: Bytes)
      modifies this
      ensures prefix == Some(s + SEPARATOR)
      ensures LabelShape(prefix)
      ensures HasLabel()
      ensures forall k :: ToLabeledKey(prefix, k) == s + SEPARATOR + k
    {
      prefix := Some(s + SEPARATOR);
      assert (s + SEPARATOR)[|s + SEPARATOR| - |SEPARATOR|..] == SEPARATOR;
    }

    function HasLabel(): (r: bool)
      reads this
      ensures r <==> prefix != None
    {
      prefix.Some?
    }
  }

  // ---------------------------------------------------------------------
  // Key namespacing

  /** `to_labeled_key`: the stored label (`label + "://"`), when one is set, followed by the key. */
  function ToLabeledKey(prefix: Option<Bytes>, key: Bytes): (r: Bytes)
    ensures prefix.None? ==> r == key
    ensures prefix.Some? ==> |r| == |prefix.value| + |key|
    ensures prefix.Some? ==> r[..|prefix.value|] == prefix.value && r[|prefix.value|..] == key
  {
    if prefix.Some? then prefix.value + key else key
  }

  /** The inverse of `ToLabeledKey`: removes the stored label, if the storage key
      carries it. */
  function StripLabel(prefix: Option<Bytes>, storageKey: Bytes): (r: Option<Bytes>)
    ensures r.Some? ==> ToLabeledKey(prefix, r.value) == storageKey
  {
    if prefix.None? then Some(storageKey)
    else if |prefix.value| <= |storageKey| && storageKey[..|prefix.value|] == prefix.value
    then Some(storageKey[|prefix.value|..])
    else None
  }

  lemma StripLabeledKey(prefix: Option<Bytes>, key: Bytes)
    ensures StripLabel(prefix, ToLabeledKey(prefix, key)) == Some(key)
  {
  }

  /** Under one label, distinct keys never share a storage key. */
  lemma LabeledKeyInjective(prefix: Option<Bytes>, a: Bytes, b: Bytes)
    requires ToLabeledKey(prefix, a) == ToLabeledKey(prefix, b)
    ensures a == b
  {
    StripLabeledKey(prefix, a);
    StripLabeledKey(prefix, b);
  }

  /** With a label set, the storage key of `k` is never `k` itself. */
  lemma LabeledKeyDiffers(prefix: Option<Bytes>, key: Bytes)
    requires LabelShape(prefix)
    ensures prefix.Some? <==> ToLabeledKey(prefix, key) != key
  {
    if prefix.Some? {
      assert |ToLabeledKey(prefix, key)| > |key|;
    }
  }

  /** `to_redis_key`: the single storage-key argument of a command. */
  function ToRedisKey(prefix: Option<Bytes>, key: Bytes): (r: seq<Bytes>)
    ensures r == [ToLabeledKey(prefix, key)]
  {
    if prefix.Some? then [prefix.value + key] else ToRedisArgs(key)
  }

  /** `to_redis_args` is `to_redis_key` with no label; with a label set the
      two address different storage keys. */
  lemma RedisArgsUnlabeled(prefix: Option<Bytes>, key: Bytes)
    requires LabelShape(prefix)
    ensures ToRedisArgs(key) == ToRedisKey(None, key)
    ensures ToRedisArgs(key) == ToRedisKey(prefix, key) <==> prefix.None?
  {
    LabeledKeyDiffers(prefix, key);
  }

  /** `query_height`: reads the labeled tip-height key; a failed read or an
      empty value gives `startBlock`, exactly 4 bytes decode little-endian,
      any other length aborts. */
  function QueryHeight(data: map<Bytes, Bytes>, prefix: Option<Bytes>, startBlock: u32, readOk: bool): (r: Res<u32>)
    ensures !readOk ==> r == Ok(startBlock)
    ensures readOk ==> r == DecodeTipHeight(Some(ReadBytes(data, ToLabeledKey(prefix, TIP_HEIGHT_KEY))), startBlock)
  {
    var read := if readOk then Some(ReadBytes(data, ToLabeledKey(prefix, TIP_HEIGHT_KEY))) else None;
    DecodeTipHeight(read, startBlock)
  }

  /** The put `write` adds to every batch. */
  function TipPut(prefix: Option<Bytes>, height: u32): (c: Cmd)
    requires height < U32_LIMIT - 1
    ensures c.key == ToLabeledKey(prefix, TIP_HEIGHT_KEY)
    ensures DecodeTipHeight(Some(c.value), 0) == Ok(height + 1)
  {
    TipHeightRoundTrip(height + 1, 0);
    Set(ToLabeledKey(prefix, TIP_HEIGHT_KEY), LeBytes(height + 1))
  }

  /** One submission of a pipeline (`redis::pipe()`, not a `MULTI`
      transaction): on success every command has run; on failure the
      service ran the first `applied` commands, possibly all of them.
      Either way, a later successful submission of the same batch ends in
      the store one clean run would give. */
  function Attempt(m: map<Bytes, Bytes>, cmds: seq<Cmd>, ok: bool, applied: nat): (r: map<Bytes, Bytes>)
    ensures ok ==> r == ApplyAll(m, cmds)
    ensures !ok ==> exists n :: 0 <= n <= |cmds| && r == ApplyAll(m, cmds[..n])
    ensures ApplyAll(r, cmds) == ApplyAll(m, cmds)
  {
    var n := if applied < |cmds| then applied else |cmds|;
    ReplayAbsorbsPrefix(m, cmds, n);
    ReplayAbsorbsPrefix(m, cmds, |cmds|);
    assert cmds[..|cmds|] == cmds;
    if ok then ApplyAll(m, cmds) else ApplyAll(m, cmds[..n])
  }

  /** Whatever the caller's puts, once a batch built by `write` lands, the
      tip height reads back as the advanced counter. */
  lemma WriteThenQueryHeight(m: map<Bytes, Bytes>, cmds: seq<Cmd>, prefix: Option<Bytes>, height: u32, startBlock: u32)
    requires height < U32_LIMIT - 1
    ensures QueryHeight(ApplyAll(m, cmds + [TipPut(prefix, height)]), prefix, startBlock, true) == Ok(height + 1)
  {
    var c := TipPut(prefix, height);
    ApplyAllLast(m, cmds, c);
    TipHeightRoundTrip(height + 1, startBlock);
  }

  /** Atomic height/commit pairing, for one submission that may land only
      a prefix of the batch: when the caller's puts leave the tip key alone
      and it did not already read `height + 1`, it reads so afterwards
      exactly when the whole batch, the caller's puts included, has landed. */
  lemma TipAdvancesOnlyWithWholeBatch(m: map<Bytes, Bytes>, cmds: seq<Cmd>, prefix: Option<Bytes>, height: u32,
                                      startBlock: u32, ok: bool, applied: nat)
    requires height < U32_LIMIT - 1
    requires LastWrite(cmds, ToLabeledKey(prefix, TIP_HEIGHT_KEY)).None?
    requires QueryHeight(m, prefix, startBlock, true) != Ok(height + 1)
    ensures var full := cmds + [TipPut(prefix, height)];
            var after := Attempt(m, full, ok, applied);
            (QueryHeight(after, prefix, startBlock, true) == Ok(height + 1)) <==> after == ApplyAll(m, full)
  {
    var tipKey := ToLabeledKey(prefix, TIP_HEIGHT_KEY);
    var full := cmds + [TipPut(prefix, height)];
    var after := Attempt(m, full, ok, applied);
    WriteThenQueryHeight(m, cmds, prefix, height, startBlock);
    if !ok && applied < |full| {
      assert after == ApplyAll(m, cmds[..applied]) by {
        assert full[..applied] == cmds[..applied];
      }
      LastWritePrefix(cmds, applied, tipKey);
      ApplyAllLookup(m, cmds[..applied], tipKey);
      assert ReadBytes(after, tipKey) == ReadBytes(m, tipKey);
    } else {
      assert full[..|full|] == full;
    }
  }

  /** `put(k, v)` writes the labeled key but `get(k)` reads the raw key: a
      later `get(k)` sees `v` exactly when no label is set, and with a label
      it still sees what was stored under the raw key before. */
  lemma PutThenGet(m: map<Bytes, Bytes>, prefix: Option<Bytes>, key: Bytes, value: Bytes)
    requires LabelShape(prefix)
    ensures prefix.None? ==> Lookup(m[ToLabeledKey(prefix, key) := value], key) == Some(value)
    ensures prefix.Some? ==> Lookup(m[ToLabeledKey(prefix, key) := value], key) == Lookup(m, key)
  {
    LabeledKeyDiffers(prefix, key);
  }

  /** A concrete instance of the asymmetry: with label `foo`, `put("bar", v)`
      on an empty store is not seen by `get("bar")`. */
  lemma PutThenGetExample()
    ensures var prefix := Some(AsciiBytes("foo") + SEPARATOR);
            var key := AsciiBytes("bar");
            Lookup(map[][ToLabeledKey(prefix, key) := AsciiBytes("v")], key) == None
  {
    var prefix := Some(AsciiBytes("foo") + SEPARATOR);
    assert (AsciiBytes("foo") + SEPARATOR)[|AsciiBytes("foo") + SEPARATOR| - |SEPARATOR|..] == SEPARATOR;
    PutThenGet(map[], prefix, AsciiBytes("bar"), AsciiBytes("v"));
  }

  /** The namespaced read path: a read of the labeled key after `put(k, v)`
      sees `v`, and the puts of other keys do not disturb it. */
  lemma LabeledPutThenGet(m: map<Bytes, Bytes>, prefix: Option<Bytes>, key: Bytes, value: Bytes, other: Bytes)
    ensures Lookup(m[ToLabeledKey(prefix, key) := value], ToLabeledKey(prefix, key)) == Some(value)
    ensures other != key ==>
              Lookup(m[ToLabeledKey(prefix, other) := value], ToLabeledKey(prefix, key)) == Lookup(m, ToLabeledKey(prefix, key))
  {
    if other != key && ToLabeledKey(prefix, other) == ToLabeledKey(prefix, key) {
      LabeledKeyInjective(prefix, other, key);
    }
  }

  /** Index of the first successful attempt. */
  function FirstSuccess(outcomes: seq<bool>): (k: nat)
    requires true in outcomes
    ensures k < |outcomes| && outcomes[k]
    ensures forall j :: 0 <= j < k ==> !outcomes[j]
  {
    if outcomes[0] then 0 else 1 + FirstSuccess(outcomes[1..])
  }

  // ---------------------------------------------------------------------
  // Batches and the adapter

  /** `RedisBatch`: the pipeline's queued `SET` commands. */
  class Batch {
    var cmds: seq<Cmd>

    /** `BatchLike::default`: an empty pipeline. */
    constructor Default()
      ensures cmds == []
    {
      cmds := [];
    }

    /** `RedisBatch::put`: queues a `SET` of the labeled key. */
    method Put(cell: LabelCell, k: Bytes, v: Bytes)
      modifies this
      ensures cmds == old(cmds) + [Set(ToLabeledKey(cell.prefix, k), v)]
    {
      cmds := cmds + [Set(ToRedisKey(cell.prefix, k)[0], ToRedisArgs(v)[0])];
    }
  }

  /** `RedisRuntimeAdapter(uri, connection, height)`. */
  class Adapter {
    const uri: string
    var conn: Connection
    var height: u32

    constructor (uri: string, conn: Connection, height: u32)
      ensures this.uri == uri && this.conn == conn && this.height == height
    {
      this.uri := uri;
      this.conn := conn;
      this.height := height;
    }

    /** `open`: a single connection attempt; the height counter starts at 0. */
    static method Open(uri: string, reachable: bool) returns (r: Res<Adapter>)
      ensures reachable ==> r.Ok? && fresh(r.value) && fresh(r.value.conn)
      ensures reachable ==> r.value.uri == uri && r.value.height == 0
      ensures !reachable ==> r == Err(StoreFailed)
    {
      if !reachable {
        return Err(StoreFailed);
      }
      var c := new Connection();
      var a := new Adapter(uri, c, 0);
      return Ok(a);
    }

    /** `clone`: shares the connection handle, copies URI and counter. */
    method Clone() returns (c: Adapter)
      ensures fresh(c)
      ensures c.uri == uri && c.conn == conn && c.height == height
    {
      c := new Adapter(uri, conn, height);
    }

    /** `reset_connection`: waits, then installs a freshly connected handle
        (`connect` retries until it succeeds). */
    method ResetConnection()
      modifies this
      ensures fresh(conn)
      ensures height == old(height)
    {
      conn := new Connection();
    }

    /** `write`: appends the tip-height put `height + 1` to the batch, then
        submits the whole batch until a submission succeeds; `applied[k]`
        is how many commands the `k`-th submission ran if it failed. */
    method Write(cell: LabelCell, db: Server, batch: Batch, outcomes: seq<bool>, applied: seq<nat>)
      returns (r: Res<()>, ghost resets: nat)
      requires true in outcomes && |applied| == |outcomes|
      modifies this, db, batch
      ensures height == old(height)
      ensures old(height) == U32_LIMIT - 1 ==>
                r == Abort(HeightOverflow) && db.data == old(db.data) && batch.cmds == old(batch.cmds) && conn == old(conn)
      ensures old(height) < U32_LIMIT - 1 ==>
                && r == Ok(())
                && batch.cmds == old(batch.cmds) + [TipPut(cell.prefix, old(height))]
                && db.data == ApplyAll(old(db.data), batch.cmds)
                && resets == FirstSuccess(outcomes)
                && (resets == 0 ==> conn == old(conn))
                && (resets > 0 ==> fresh(conn))
    {
      if height == U32_LIMIT - 1 {
        return Abort(HeightOverflow), 0;
      }
      var keyBytes := TIP_HEIGHT_KEY;
      var heightBytes := LeBytes(height + 1);
      batch.Put(cell, keyBytes, heightBytes);
      ghost var first := FirstSuccess(outcomes);
      var k := 0;
      while true
        invariant 0 <= k <= first
        invariant ApplyAll(db.data, batch.cmds) == ApplyAll(old(db.data), batch.cmds)
        invariant batch.cmds == old(batch.cmds) + [TipPut(cell.prefix, old(height))]
        invariant height == old(height)
        invariant k == 0 ==> conn == old(conn)
        invariant k > 0 ==> fresh(conn)
        decreases first - k
      {
        db.data := Attempt(db.data, batch.cmds, outcomes[k], applied[k]);
        if outcomes[k] {
          return Ok(()), k;
        }
        ResetConnection();
        k := k + 1;
      }
    }

    /** `get`: reads the raw (unlabeled) key, retrying until an attempt
        succeeds; never returns an error. */
    method Get(db: Server, key: Bytes, outcomes: seq<bool>) returns (v: Option<Bytes>, ghost resets: nat)
      requires true in outcomes
      modifies this
      ensures v == Lookup(db.data, ToRedisArgs(key)[0])
      ensures v.Some? <==> key in db.data
      ensures v.Some? ==> v.value == db.data[key]
      ensures height == old(height)
      ensures resets == FirstSuccess(outcomes)
      ensures resets == 0 ==> conn == old(conn)
      ensures resets > 0 ==> fresh(conn)
    {
      ghost var first := FirstSuccess(outcomes);
      var k := 0;
      while !outcomes[k]
        invariant 0 <= k <= first
        invariant k == 0 ==> conn == old(conn)
        invariant height == old(height)
        invariant k > 0 ==> fresh(conn)
        decreases first - k
      {
        ResetConnection();
        k := k + 1;
      }
      v, resets := Lookup(db.data, ToRedisArgs(key)[0]), k;
    }

    /** `get` with the key namespaced as `put` namespaces it: reads the
        labeled key, retrying until an attempt succeeds. */
    method GetLabeled(cell: LabelCell, db: Server, key: Bytes, outcomes: seq<bool>) returns (v: Option<Bytes>, ghost resets: nat)
      requires true in outcomes
      modifies this
      ensures v == Lookup(db.data, ToLabeledKey(cell.prefix, key))
      ensures height == old(height)
      ensures resets == FirstSuccess(outcomes)
      ensures resets == 0 ==> conn == old(conn)
      ensures resets > 0 ==> fresh(conn)
    {
      ghost var first := FirstSuccess(outcomes);
      var k := 0;
      while !outcomes[k]
        invariant 0 <= k <= first
        invariant k == 0 ==> conn == old(conn)
        invariant height == old(height)
        invariant k > 0 ==> fresh(conn)
        decreases first - k
      {
        ResetConnection();
        k := k + 1;
      }
      v, resets := Lookup(db.data, ToRedisKey(cell.prefix, key)[0]), k;
    }

    /** `put`: sets the labeled key, retrying until an attempt succeeds. */
    method Put(cell: LabelCell, db: Server, key: Bytes, value: Bytes, outcomes: seq<bool>) returns (r: Res<()>, ghost resets: nat)
      requires true in outcomes
      modifies this, db
      ensures r == Ok(())
      ensures db.data == old(db.data)[ToLabeledKey(cell.prefix, key) := value]
      ensures height == old(height)
      ensures resets == FirstSuccess(outcomes)
      ensures resets == 0 ==> conn == old(conn)
      ensures resets > 0 ==> fresh(conn)
    {
      ghost var first := FirstSuccess(outcomes);
      var k := 0;
      while !outcomes[k]
        invariant 0 <= k <= first
        invariant k == 0 ==> conn == old(conn)
        invariant db.data == old(db.data)
        invariant height == old(height)
        invariant k > 0 ==> fresh(conn)
        decreases first - k
      {
        ResetConnection();
        k := k + 1;
      }
      db.data := db.data[ToRedisKey(cell.prefix, key)[0] := ToRedisArgs(value)[0]];
      return Ok(()), k;
    }

    /** `delete`: removes the raw (unlabeled) key, retrying until an
        attempt succeeds. */
    method Delete(db: Server, key: Bytes, outcomes: seq<bool>) returns (r: Res<()>, ghost resets: nat)
      requires true in outcomes
      modifies this, db
      ensures r == Ok(())
      ensures db.data == old(db.data) - {key}
      ensures key !in db.data
      ensures height == old(height)
      ensures resets == FirstSuccess(outcomes)
      ensures resets == 0 ==> conn == old(conn)
      ensures resets > 0 ==> fresh(conn)
    {
      ghost var first := FirstSuccess(outcomes);
      var k := 0;
      while !outcomes[k]
        invariant 0 <= k <= first
        invariant k == 0 ==> conn == old(conn)
        invariant db.data == old(db.data)
        invariant height == old(height)
        invariant k > 0 ==> fresh(conn)
        decreases first - k
      {
        ResetConnection();
        k := k + 1;
      }
      db.data := db.data - {ToRedisArgs(key)[0]};
      return Ok(()), k;
    }
  }
}
