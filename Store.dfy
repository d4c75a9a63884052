/** The key-value service both store adapters talk to, the commands a batch
    holds, and the tip-height record both crates persist.

    The service is an object holding a map from keys to values; a
    connection is an object whose identity stands for one `Arc` handle, so
    that "a clone shares the handle" and "a reset installs a new handle"
    are stated by reference equality and `fresh`. */
module Store {
  import opened Outcome
  import opened Bytes

  /** The key-value service behind a URI. */
  class Server {
    var data: map<Bytes, Bytes>

    constructor (initial: map<Bytes, Bytes>)
      ensures data == initial
    {
      data := initial;
    }
  }

  /** One open connection (the `Arc<Mutex<redis::Connection>>` handle). */
  class Connection {
    constructor ()
    {
    }
  }

  /** One `SET key value` command queued in a pipeline. */
  datatype Cmd = Set(key: Bytes, value: Bytes)

  /** `to_redis_args`: a key or value passed as one command argument, as it is. */
  function ToRedisArgs(v: Bytes): (r: seq<Bytes>)
    ensures |r| == 1 && r[0] == v
  {
    [v]
  }

  function Lookup(m: map<Bytes, Bytes>, k: Bytes): (r: Option<Bytes>)
    ensures r.Some? <==> k in m
    ensures r.Some? ==> r.value == m[k]
  {
    if k in m then Some(m[k]) else None
  }

  /** The map after running the commands in order. */
  function ApplyAll(m: map<Bytes, Bytes>, cmds: seq<Cmd>): map<Bytes, Bytes>
    decreases |cmds|
  {
    if cmds == [] then m
    else
      var last := cmds[|cmds| - 1];
      ApplyAll(m, cmds[..|cmds| - 1])[last.key := last.value]
  }

  /** Reference definition: the value written by the last command on `k`. */
  function LastWrite(cmds: seq<Cmd>, k: Bytes): Option<Bytes>
    decreases |cmds|
  {
    if cmds == [] then None
    else if cmds[|cmds| - 1].key == k then Some(cmds[|cmds| - 1].value)
    else LastWrite(cmds[..|cmds| - 1], k)
  }

  /** After a batch, every key holds the value of the last command that
      wrote it, and keys no command wrote keep their old value. */
  lemma {:induction false} ApplyAllLookup(m: map<Bytes, Bytes>, cmds: seq<Cmd>, k: Bytes)
    ensures Lookup(ApplyAll(m, cmds), k) ==
            (if LastWrite(cmds, k).Some? then LastWrite(cmds, k) else Lookup(m, k))
    decreases |cmds|
  {
    if cmds != [] {
      ApplyAllLookup(m, cmds[..|cmds| - 1], k);
    }
  }

  /** A key some command of a prefix writes is written by the whole batch. */
  lemma {:induction false} LastWritePrefix(cmds: seq<Cmd>, n: nat, k: Bytes)
    requires n <= |cmds|
    ensures LastWrite(cmds[..n], k).Some? ==> LastWrite(cmds, k).Some?
    decreases |cmds|
  {
    if n == |cmds| {
      assert cmds[..n] == cmds;
    } else if cmds[|cmds| - 1].key != k {
      assert cmds[..|cmds| - 1][..n] == cmds[..n];
      LastWritePrefix(cmds[..|cmds| - 1], n, k);
    }
  }

  /** Two maps that agree on every lookup are equal. */
  lemma LookupExtensional(a: map<Bytes, Bytes>, b: map<Bytes, Bytes>)
    requires forall k :: Lookup(a, k) == Lookup(b, k)
    ensures a == b
  {
    assert forall k :: k in a <==> k in b by {
      forall k ensures k in a <==> k in b {
        assert Lookup(a, k).Some? == Lookup(b, k).Some?;
      }
    }
    forall k | k in a ensures a[k] == b[k] {
      assert Lookup(a, k) == Lookup(b, k);
    }
  }

  /** Replaying a whole batch over a state where only a prefix of it landed
      gives the same store as running the batch once. */
  lemma ReplayAbsorbsPrefix(m: map<Bytes, Bytes>, cmds: seq<Cmd>, n: nat)
    requires n <= |cmds|
    ensures ApplyAll(ApplyAll(m, cmds[..n]), cmds) == ApplyAll(m, cmds)
  {
    var partial := ApplyAll(m, cmds[..n]);
    forall k ensures Lookup(ApplyAll(partial, cmds), k) == Lookup(ApplyAll(m, cmds), k) {
      ApplyAllLookup(partial, cmds, k);
      ApplyAllLookup(m, cmds[..n], k);
      ApplyAllLookup(m, cmds, k);
      LastWritePrefix(cmds, n, k);
    }
    LookupExtensional(ApplyAll(partial, cmds), ApplyAll(m, cmds));
  }

  /** The last command of a batch wins on its key. */
  lemma ApplyAllLast(m: map<Bytes, Bytes>, cmds: seq<Cmd>, c: Cmd)
    ensures c.key in ApplyAll(m, cmds + [c])
    ensures ApplyAll(m, cmds + [c])[c.key] == c.value
  {
    assert (cmds + [c])[..|cmds|] == cmds;
  }

  // ---------------------------------------------------------------------
  // The tip-height record

  const TIP_HEIGHT_KEY: Bytes := AsciiBytes("/__INTERNAL/tip-height")

  /** What a GET of `k` converted to `Vec<u8>` yields: the stored value, or
      the empty string when the key is absent (a nil reply). */
  function ReadBytes(m: map<Bytes, Bytes>, k: Bytes): (r: Bytes)
    ensures k in m ==> r == m[k]
    ensures k !in m ==> r == []
  {
    if k in m then m[k] else []
  }

  /** Decodes the bytes read from the tip-height key. `read` is `None` when
      the GET itself failed; a missing key reads as the empty string. */
  function DecodeTipHeight(read: Option<Bytes>, startBlock: u32): (r: Res<u32>)
    ensures r.Ok? || r == Abort(TipHeightMalformed)
    ensures r.Abort? <==> read.Some? && |read.value| != 0 && |read.value| != 4
    ensures read.None? || read.value == [] ==> r == Ok(startBlock)
    ensures read.Some? && |read.value| == 4 ==> r.Ok? && LeBytes(r.value) == read.value
  {
    if read.None? || |read.value| == 0 then Ok(startBlock)
    else if |read.value| == 4 then Ok(FromLeBytes(read.value))
    else Abort(TipHeightMalformed)
  }

  /** Decoding a height the writer encoded gives the height back. */
  lemma TipHeightRoundTrip(h: u32, startBlock: u32)
    ensures DecodeTipHeight(Some(LeBytes(h)), startBlock) == Ok(h)
  {
    LeBytesInjective(FromLeBytes(LeBytes(h)), h);
  }
}
