/** The chain-tip synchronizer of the `keydb` crate: the persisted tip height,
    the height-to-hash ledger, the reorg-aware height resolver, block pulling
    and the sync loop with its retry-once policy for the indexing engine.

    The remote chain daemon is a value: the hash it reports per height and
    the raw block per hash (a missing entry is a failed call).  Block counts
    are given per call, since the daemon's tip moves while the loop waits.
    `up` says whether the store answers this iteration's single attempts. */
module KeyDbSync {
  import opened Outcome
  import opened Bytes
  import opened Store
  import KeyDbAdapter

  const HEIGHT_TO_HASH: Bytes := AsciiBytes("/__INTERNAL/height-to-hash/")

  /** The remote daemon: `getblockhash(h)` and `getblock(hash, 0)`. */
  datatype Daemon = Daemon(hashes: map<nat, Bytes>, blocks: map<Bytes, Bytes>)

  /** What one iteration of the loop observes of the world. */
  datatype Tick = Tick(
    count: Option<u32>,          // `getblockcount` as seen by `best_height`
    polls: seq<Option<u32>>,     // successive `getblockcount` polls in `pull_block`
    daemon: Daemon,
    up: bool,
    firstRun: bool,              // outcome of the engine's first run
    retryRun: bool)              // outcome of its run after `refresh_memory`

  // ---------------------------------------------------------------------
  // The height-to-hash ledger

  /** `HEIGHT_TO_HASH + block_number.to_string()`. */
  function HashKey(h: nat): (r: Bytes)
    ensures |r| > |HEIGHT_TO_HASH| && r[..|HEIGHT_TO_HASH|] == HEIGHT_TO_HASH
    ensures r[|HEIGHT_TO_HASH|..] == Decimal(h)
  {
    HEIGHT_TO_HASH + Decimal(h)
  }

  /** Each height has its own hash record. */
  lemma HashKeyInjective(a: nat, b: nat)
    requires HashKey(a) == HashKey(b)
    ensures a == b
  {
    assert Decimal(a) == HashKey(a)[|HEIGHT_TO_HASH|..];
    assert Decimal(b) == HashKey(b)[|HEIGHT_TO_HASH|..];
    DecimalInjective(a, b);
  }

  /** No hash record shares its key with the tip height. */
  lemma HashKeyNotTip(h: nat)
    ensures HashKey(h) != TIP_HEIGHT_KEY
  {
    assert HashKey(h)[12] == HEIGHT_TO_HASH[12];
    assert HEIGHT_TO_HASH[12] as int == 'h' as int;
    assert TIP_HEIGHT_KEY[12] as int == 't' as int;
  }

  /** `get_blockhash`: the recorded hash at `h`; the store read is unwrapped. */
  function LocalHash(data: map<Bytes, Bytes>, up: bool, h: nat): (r: Res<Option<Bytes>>)
    ensures up ==> r == Ok(Lookup(data, HashKey(h)))
    ensures !up ==> r == Abort(Unwrapped(StoreFailed))
  {
    if up then Ok(Lookup(data, HashKey(h))) else Abort(Unwrapped(StoreFailed))
  }

  /** Recording a hash at `h` makes a later lookup at `h` return it and
      leaves the records of all other heights and the tip height as they
      were. */
  lemma RecordThenLookup(data: map<Bytes, Bytes>, h: nat, hash: Bytes, other: nat)
    ensures LocalHash(data[HashKey(h) := hash], true, h) == Ok(Some(hash))
    ensures other != h ==> LocalHash(data[HashKey(h) := hash], true, other) == LocalHash(data, true, other)
    ensures ReadBytes(data[HashKey(h) := hash], TIP_HEIGHT_KEY) == ReadBytes(data, TIP_HEIGHT_KEY)
  {
    if other != h && HashKey(other) == HashKey(h) {
      HashKeyInjective(other, h);
    }
    HashKeyNotTip(h);
  }

  /** `query_height`: the stored tip height, or `startBlock` when the read
      fails or finds nothing; any length other than 0 or 4 aborts. */
  function QueryHeight(data: map<Bytes, Bytes>, up: bool, startBlock: u32): (r: Res<u32>)
    ensures !up || TIP_HEIGHT_KEY !in data ==> r == Ok(startBlock)
    ensures up && TIP_HEIGHT_KEY in data && data[TIP_HEIGHT_KEY] == [] ==> r == Ok(startBlock)
    ensures up && TIP_HEIGHT_KEY in data && |data[TIP_HEIGHT_KEY]| == 4 ==>
              r.Ok? && LeBytes(r.value) == data[TIP_HEIGHT_KEY]
    ensures r.Abort? <==> up && TIP_HEIGHT_KEY in data && |data[TIP_HEIGHT_KEY]| !in {0, 4}
  {
    DecodeTipHeight(if up then Some(ReadBytes(data, TIP_HEIGHT_KEY)) else None, startBlock)
  }

  // ---------------------------------------------------------------------
  // The reorg resolver

  /** The local record at `h` and the daemon's hash at `h` both exist and agree. */
  ghost predicate Matches(data: map<Bytes, Bytes>, remote: map<nat, Bytes>, h: nat)
  {
    HashKey(h) in data && h in remote && data[HashKey(h)] == remote[h]
  }

  /** Both exist and disagree: the local block at `h` is on an abandoned fork. */
  ghost predicate Mismatch(data: map<Bytes, Bytes>, remote: map<nat, Bytes>, h: nat)
  {
    HashKey(h) in data && h in remote && data[HashKey(h)] != remote[h]
  }

  /** The walk back of `best_height` from `best`. */
  function Walk(data: map<Bytes, Bytes>, up: bool, remote: map<nat, Bytes>, best: u32): (r: Res<u32>)
    ensures r.Ok? ==> r.value <= best
    ensures r.Abort? ==> r == Abort(Unwrapped(StoreFailed))
    decreases best
  {
    if best == 0 then Ok(0)
    else if !up then Abort(Unwrapped(StoreFailed))
    else if HashKey(best) !in data then Err(MissingBlockhash)
    else if best !in remote then Err(RpcFailed)
    else if data[HashKey(best)] == remote[best] then Ok(best)
    else Walk(data, up, remote, best - 1)
  }

  /** `best_height`: fetch the tip; far below it, the candidate stands;
      near it, walk back to the last height whose hashes agree. */
  function BestHeightOf(data: map<Bytes, Bytes>, up: bool, count: Option<u32>, remote: map<nat, Bytes>, b: u32): (r: Res<u32>)
    ensures r.Abort? ==> r == Abort(HeightUnderflow) || r == Abort(Unwrapped(StoreFailed))
  {
    if count.None? then Err(RpcFailed)
    else if count.value < 6 then Abort(HeightUnderflow)
    else if b >= count.value - 6 then Walk(data, up, remote, b)
    else Ok(b)
  }

  /** Walking past heights that all mismatch changes nothing. */
  lemma {:induction false} WalkPastMismatches(data: map<Bytes, Bytes>, up: bool, remote: map<nat, Bytes>, b: u32, r: u32)
    requires up && r <= b
    requires forall h: nat :: r < h <= b ==> Mismatch(data, remote, h)
    ensures Walk(data, up, remote, b) == Walk(data, up, remote, r)
    decreases b - r
  {
    if r < b {
      assert Mismatch(data, remote, b);
      WalkPastMismatches(data, up, remote, b - 1, r);
    }
  }

  /** The walk from `b` yields `r` exactly when `r <= b`, `r` is 0 or its
      hashes agree, and every height in `(r, b]` had both hashes and they
      disagreed. */
  lemma {:induction false} WalkResult(data: map<Bytes, Bytes>, up: bool, remote: map<nat, Bytes>, b: u32, r: u32)
    requires up
    ensures Walk(data, up, remote, b) == Ok(r) <==>
            && r <= b
            && (r == 0 || Matches(data, remote, r))
            && forall h: nat :: r < h <= b ==> Mismatch(data, remote, h)
    decreases b
  {
    if Walk(data, up, remote, b) == Ok(r) && b > 0 && r != b {
      assert Mismatch(data, remote, b);
      WalkResult(data, up, remote, b - 1, r);
    }
    if r <= b && (r == 0 || Matches(data, remote, r)) && forall h: nat :: r < h <= b ==> Mismatch(data, remote, h) {
      WalkPastMismatches(data, up, remote, b, r);
    }
  }

  /** A gap in the ledger below a run of mismatches is an error, and every
      such error comes from a gap. */
  lemma WalkReachesGap(data: map<Bytes, Bytes>, up: bool, remote: map<nat, Bytes>, b: u32, g: u32)
    requires up && 0 < g <= b && HashKey(g) !in data
    requires forall h: nat :: g < h <= b ==> Mismatch(data, remote, h)
    ensures Walk(data, up, remote, b) == Err(MissingBlockhash)
  {
    WalkPastMismatches(data, up, remote, b, g);
  }

  lemma {:induction false} WalkGapFound(data: map<Bytes, Bytes>, up: bool, remote: map<nat, Bytes>, b: u32) returns (g: u32)
    requires Walk(data, up, remote, b) == Err(MissingBlockhash)
    ensures up && 0 < g <= b && HashKey(g) !in data
    ensures forall h: nat :: g < h <= b ==> Mismatch(data, remote, h)
    decreases b
  {
    if HashKey(b) !in data {
      g := b;
    } else {
      g := WalkGapFound(data, up, remote, b - 1);
    }
  }

  /** `best_height` never returns more than its argument. */
  lemma BestHeightBounded(data: map<Bytes, Bytes>, up: bool, count: Option<u32>, remote: map<nat, Bytes>, b: u32)
    ensures BestHeightOf(data, up, count, remote, b).Ok? ==> BestHeightOf(data, up, count, remote, b).value <= b
  {
    var r := BestHeightOf(data, up, count, remote, b);
    if r.Ok? && count.Some? && count.value >= 6 && b >= count.value - 6 {
      if b == 0 {
      } else {
        WalkResult(data, up, remote, b, r.value);
      }
    }
  }

  /** Reorg detection: near the tip, a mismatch at `h` over agreement at
      `h - 1` resolves to `h - 1`. */
  lemma ReorgDetected(data: map<Bytes, Bytes>, count: Option<u32>, remote: map<nat, Bytes>, h: u32)
    requires count.Some? && count.value >= 6 && h >= count.value - 6
    requires h >= 1 && Mismatch(data, remote, h) && Matches(data, remote, h - 1)
    ensures BestHeightOf(data, true, count, remote, h) == Ok(h - 1)
  {
    WalkResult(data, true, remote, h, h - 1);
  }

  /** As written, forward sync compares no hash: near the tip the walk
      starts at the candidate itself, whose hash `pull_block` records only
      later, so it fails at once and `run` indexes the candidate even when
      the block below it has been replaced on the daemon. */
  lemma ForwardSyncMissesReorg(data: map<Bytes, Bytes>, count: Option<u32>, remote: map<nat, Bytes>, i: u32)
    requires count.Some? && count.value >= 6 && i >= count.value - 6
    requires i >= 1 && HashKey(i) !in data && Mismatch(data, remote, i - 1)
    ensures BestHeightOf(data, true, count, remote, i) == Err(MissingBlockhash)
    ensures Resolved(BestHeightOf(data, true, count, remote, i), i) == i
  {
  }

  /** Where the loop should go on from counter `i`: near the tip, one past
      the highest height at or below the last indexed one (`i - 1`) whose
      recorded hash agrees with the daemon's, height 0 counting as agreeing;
      far from the tip, `i` itself. */
  function ResumeHeight(data: map<Bytes, Bytes>, up: bool, count: Option<u32>, remote: map<nat, Bytes>, i: u32): (r: Res<u32>)
    ensures r.Ok? ==> r.value <= i
    ensures r.Ok? && i >= 1 ==> r.value >= 1
    ensures r.Abort? ==> r == Abort(HeightUnderflow) || r == Abort(Unwrapped(StoreFailed))
  {
    if count.None? then Err(RpcFailed)
    else if count.value < 6 then Abort(HeightUnderflow)
    else if i < count.value - 6 || i == 0 then Ok(i)
    else
      match Walk(data, up, remote, i - 1)
      case Ok(h) => Ok(h + 1)
      case Err(e) => Err(e)
      case Abort(f) => Abort(f)
  }

  /** Near the tip, the corrected resolver resumes at `v` exactly when the
      hashes agree at `v - 1` (or `v - 1` is 0) and every height from `v`
      up to the last indexed one has a recorded hash the daemon replaced:
      with no reorg it goes on at `i`, and a replaced block at `i - 1` over
      agreement at `i - 2` is indexed again. */
  lemma ResumeHeightResult(data: map<Bytes, Bytes>, count: Option<u32>, remote: map<nat, Bytes>, i: u32, v: u32)
    requires count.Some? && count.value >= 6 && i >= count.value - 6 && i >= 1
    requires v >= 1
    ensures ResumeHeight(data, true, count, remote, i) == Ok(v) <==>
            && v <= i
            && (v == 1 || Matches(data, remote, v - 1))
            && forall h: nat :: v <= h < i ==> Mismatch(data, remote, h)
  {
    WalkResult(data, true, remote, i - 1, v - 1);
  }

  /** `Ok(v) => v, Err(_) => i`: the height `run` indexes. */
  function Resolved(res: Res<u32>, i: u32): (r: u32)
    requires !res.Abort?
    ensures res.Ok? ==> r == res.value
    ensures res.Err? ==> r == i
  {
    if res.Ok? then res.value else i
  }

  // ---------------------------------------------------------------------
  // Block pulling

  /** A poll ends the wait: the call failed, or the count reached `b`. */
  predicate Decisive(poll: Option<u32>, b: u32)
  {
    poll.None? || b <= poll.value
  }

  /** Some observed poll ends the wait. */
  predicate Settles(polls: seq<Option<u32>>, b: u32)
  {
    exists k | 0 <= k < |polls| :: Decisive(polls[k], b)
  }

  /** The poll at which `pull_block` stops waiting. */
  function FirstDecisive(polls: seq<Option<u32>>, b: u32): (k: nat)
    requires Settles(polls, b)
    ensures k < |polls| && Decisive(polls[k], b)
    ensures forall j :: 0 <= j < k ==> polls[j].Some? && b > polls[j].value
  {
    if Decisive(polls[0], b) then 0
    else
      assert Settles(polls[1..], b) by {
        var k :| 0 <= k < |polls| && Decisive(polls[k], b);
        assert polls[1..][k - 1] == polls[k];
      }
      1 + FirstDecisive(polls[1..], b)
  }

  // ---------------------------------------------------------------------
  // The engine's retry-once policy

  datatype EngineRun = RanFirstTime | RanAfterRefresh | FailedTwice

  /** First run; on failure `refresh_memory` and exactly one more run. */
  function RetryOnce(first: bool, retry: bool): (r: EngineRun)
    ensures r == RanFirstTime <==> first
    ensures r == RanAfterRefresh <==> !first && retry
    ensures r == FailedTwice <==> !first && !retry
  {
    if first then RanFirstTime else if retry then RanAfterRefresh else FailedTwice
  }

  // ---------------------------------------------------------------------
  // The synchronizer

  /** How one iteration of `run` ends: the counter advanced; the polls seen
      never let `pull_block` stop waiting (it would go on polling); or the
      process aborted. */
  datatype StepEnd = Advanced(next: u32) | Waiting | Stopped(fatal: Fatal)

  /** `best_height(i)` as one iteration observes it. */
  ghost function Resolution(data: map<Bytes, Bytes>, i: u32, t: Tick): Res<u32>
  {
    BestHeightOf(data, t.up, t.count, t.daemon.hashes, i)
  }

  /** `pull_block(b)` returns a block: its wait ends on a successful poll,
      the hash fetch and the put succeed, and so does the block fetch. */
  ghost predicate Pulls(t: Tick, b: u32)
    requires Settles(t.polls, b)
  {
    && t.polls[FirstDecisive(t.polls, b)].Some?
    && b in t.daemon.hashes && t.up
    && t.daemon.hashes[b] in t.daemon.blocks
  }

  /** The iteration reaches the engine: the height resolves without an
      abort, the wait for it ends, and its block is pulled. */
  ghost predicate Feeds(data: map<Bytes, Bytes>, i: u32, t: Tick)
  {
    var res := Resolution(data, i, t);
    && !res.Abort?
    && Settles(t.polls, Resolved(res, i))
    && Pulls(t, Resolved(res, i))
  }

  /** `MetashrewKeyDBSync` with the process-wide `_HEIGHT`, the engine
      context fields (`block`, `height`) it sets, and the number of times
      the engine's memory has been refreshed. */
  class Sync {
    const adapter: KeyDbAdapter.Adapter
    const server: Server
    const startBlock: u32
    var height: u32
    var block: Bytes
    var blockHeight: u32
    var refreshes: nat

    constructor (adapter: KeyDbAdapter.Adapter, server: Server, startBlock: u32)
      ensures this.adapter == adapter && this.server == server && this.startBlock == startBlock
      ensures height == 0 && refreshes == 0
    {
      this.adapter := adapter;
      this.server := server;
      this.startBlock := startBlock;
      height := 0;
      block := [];
      blockHeight := 0;
      refreshes := 0;
    }
    /** `get_blockhash` through the adapter's single-attempt `get`. */
    method GetBlockhash(h: u32, up: bool) returns (r: Res<Option<Bytes>>)
      ensures r == LocalHash(server.data, up, h)
    {
      var got := adapter.Get(server, HashKey(h), up);
      if got.Err? {
        return Abort(Unwrapped(got.error));
      }
      return got;
    }

    /** `best_height(b)`; `probed` lists the heights whose hashes were
        compared, in order. */
    method BestHeight(b: u32, count: Option<u32>, remote: map<nat, Bytes>, up: bool) returns (r: Res<u32>, ghost probed: seq<nat>)
      ensures r == BestHeightOf(server.data, up, count, remote, b)
      ensures r.Ok? ==> r.value <= b
      ensures count.Some? && count.value >= 6 && b < count.value - 6 ==> r == Ok(b) && probed == []
      ensures forall j :: 0 <= j < |probed| ==> probed[j] == b - j && probed[j] > 0
    {
      probed := [];
      var best := b;
      if count.None? {
        return Err(RpcFailed), probed;
      }
      var tip := count.value;
      if tip < 6 {
        return Abort(HeightUnderflow), probed;
      }
      if best >= tip - 6 {
        while true
          invariant best <= b
          invariant Walk(server.data, up, remote, best) == Walk(server.data, up, remote, b)
          invariant |probed| == b - best
          invariant forall j :: 0 <= j < |probed| ==> probed[j] == b - j && probed[j] > 0
          decreases best
        {
          if best == 0 {
            break;
          }
          var local := GetBlockhash(best, up);
          if local.Abort? {
            return Abort(local.fatal), probed;
          }
          if local.Ok? && local.value.None? {
            return Err(MissingBlockhash), probed;
          }
          if best !in remote {
            return Err(RpcFailed), probed;
          }
          probed := probed + [best];
          if local.value.value == remote[best] {
            break;
          }
          best := best - 1;
        }
      }
      BestHeightBounded(server.data, up, count, remote, b);
      return Ok(best), probed;
    }

    /** `pull_block(b)`: polls the block count while it is below `b`, fetches
        the hash (unwrapped), records it under `HashKey(b)` (unwrapped), and
        fetches the raw block for that hash. */
    method PullBlock(b: u32, polls: seq<Option<u32>>, daemon: Daemon, up: bool) returns (r: Res<Bytes>)
      requires Settles(polls, b)
      modifies server
      ensures polls[FirstDecisive(polls, b)].None? ==> r == Err(RpcFailed) && server.data == old(server.data)
      ensures polls[FirstDecisive(polls, b)].Some? && b !in daemon.hashes ==>
                r == Abort(Unwrapped(RpcFailed)) && server.data == old(server.data)
      ensures polls[FirstDecisive(polls, b)].Some? && b in daemon.hashes && !up ==>
                r == Abort(Unwrapped(StoreFailed)) && server.data == old(server.data)
      ensures polls[FirstDecisive(polls, b)].Some? && b in daemon.hashes && up ==>
                && server.data == old(server.data)[HashKey(b) := daemon.hashes[b]]
                && r == (if daemon.hashes[b] in daemon.blocks then Ok(daemon.blocks[daemon.hashes[b]]) else Err(RpcFailed))
    {
      ghost var first := FirstDecisive(polls, b);
      var k := 0;
      while true
        invariant 0 <= k <= first
        decreases first - k
      {
        var count := polls[k];
        if count.None? {
          return Err(RpcFailed);
        }
        if b > count.value {
          k := k + 1;
        } else {
          break;
        }
      }
      if b !in daemon.hashes {
        return Abort(Unwrapped(RpcFailed));
      }
      var blockhash := daemon.hashes[b];
      var put := adapter.Put(server, HashKey(b), blockhash, up);
      if put.Err? {
        return Abort(Unwrapped(put.error));
      }
      if blockhash !in daemon.blocks {
        return Err(RpcFailed);
      }
      return Ok(daemon.blocks[blockhash]);
    }

    /** One iteration of `run` from counter `i`: resolve the height, pull
        its block (a failed pull aborts), hand it to the engine (refreshing
        its memory and retrying once on failure), then advance the counter
        by one and publish it as `_HEIGHT`. */
    method Step(i: u32, t: Tick) returns (r: StepEnd, ghost best: u32)
      modifies this, server
      ensures Resolution(old(server.data), i, t).Abort? ==>
                r == Stopped(Resolution(old(server.data), i, t).fatal) && server.data == old(server.data)
      ensures !Resolution(old(server.data), i, t).Abort? ==> best == Resolved(Resolution(old(server.data), i, t), i) && best <= i
      ensures r.Waiting? <==> !Resolution(old(server.data), i, t).Abort? && !Settles(t.polls, best)
      ensures r.Waiting? ==> server.data == old(server.data)
      ensures r.Advanced? <==>
                && Feeds(old(server.data), i, t)
                && RetryOnce(t.firstRun, t.retryRun) != FailedTwice
                && i < U32_LIMIT - 1
      ensures r.Advanced? ==>
                && r.next == i + 1 && height == i + 1
                && server.data == old(server.data)[HashKey(best) := t.daemon.hashes[best]]
                && blockHeight == best
                && block == t.daemon.blocks[t.daemon.hashes[best]]
      ensures !t.firstRun && !t.retryRun ==> !r.Advanced?
      ensures !Resolution(old(server.data), i, t).Abort? && Settles(t.polls, best) &&
              t.polls[FirstDecisive(t.polls, best)].None? ==>
                r == Stopped(Unwrapped(RpcFailed)) && server.data == old(server.data)
      ensures !Resolution(old(server.data), i, t).Abort? && Settles(t.polls, best) &&
              t.polls[FirstDecisive(t.polls, best)].Some? && best !in t.daemon.hashes ==>
                r == Stopped(Unwrapped(RpcFailed)) && server.data == old(server.data)
      ensures !Resolution(old(server.data), i, t).Abort? && Settles(t.polls, best) &&
              t.polls[FirstDecisive(t.polls, best)].Some? && best in t.daemon.hashes && !t.up ==>
                r == Stopped(Unwrapped(StoreFailed)) && server.data == old(server.data)
      ensures !Resolution(old(server.data), i, t).Abort? && Settles(t.polls, best) &&
              t.polls[FirstDecisive(t.polls, best)].Some? && best in t.daemon.hashes && t.up &&
              t.daemon.hashes[best] !in t.daemon.blocks ==>
                && r == Stopped(Unwrapped(RpcFailed))
                && server.data == old(server.data)[HashKey(best) := t.daemon.hashes[best]]
      ensures r.Stopped? && Feeds(old(server.data), i, t) ==>
                server.data == old(server.data)[HashKey(best) := t.daemon.hashes[best]]
      ensures r == Stopped(EngineFailedAfterRetry) <==>
                Feeds(old(server.data), i, t) && !t.firstRun && !t.retryRun
      ensures refreshes == old(refreshes) + (if Feeds(old(server.data), i, t) && !t.firstRun then 1 else 0)
      ensures !r.Advanced? ==> height == old(height)
    {
      var resolved, probed := BestHeight(i, t.count, t.daemon.hashes, t.up);
      if resolved.Abort? {
        return Stopped(resolved.fatal), 0;
      }
      var target := Resolved(resolved, i);
      best := target;
      if !Settles(t.polls, target) {
        return Waiting, best;
      }
      var pulled := PullBlock(target, t.polls, t.daemon, t.up);
      if pulled.Err? {
        return Stopped(Unwrapped(pulled.error)), best;
      }
      if pulled.Abort? {
        return Stopped(pulled.fatal), best;
      }
      block := pulled.value;
      blockHeight := target;
      if !t.firstRun {
        refreshes := refreshes + 1;
        if !t.retryRun {
          return Stopped(EngineFailedAfterRetry), best;
        }
      }
      if i == U32_LIMIT - 1 {
        return Stopped(HeightOverflow), best;
      }
      height := i + 1;
      return Advanced(i + 1), best;
    }

    /** `run` over a finite prefix of its endless loop: reads the tip height,
        then runs one iteration per tick.  It stops with `Ok(i)` when the
        ticks run out or when an iteration is left waiting for the block
        count to reach the resolved height; `done` counts the iterations
        completed and `fed` the heights handed to the engine. */
    method Run(up: bool, ticks: seq<Tick>) returns (r: Res<u32>, ghost done: nat, ghost fed: seq<u32>)
      modifies this, server
      ensures r.Ok? || r.Abort?
      ensures done <= |ticks| && |fed| == done
      ensures QueryHeight(old(server.data), up, startBlock).Abort? ==>
                r == QueryHeight(old(server.data), up, startBlock) && done == 0
      ensures QueryHeight(old(server.data), up, startBlock).Ok? ==>
                var start := QueryHeight(old(server.data), up, startBlock).value;
                && (r.Ok? ==> r.value == start + done)
                && (forall k :: 0 <= k < done ==> fed[k] <= start + k)
      ensures r.Ok? && done > 0 ==> height == r.value
      ensures r.Ok? && done < |ticks| ==>
                && !Resolution(server.data, r.value, ticks[done]).Abort?
                && !Settles(ticks[done].polls, Resolved(Resolution(server.data, r.value, ticks[done]), r.value))
      ensures done == 0 ==> height == old(height)
    {
      done, fed := 0, [];
      var q := QueryHeight(server.data, up, startBlock);
      if q.Abort? {
        return q, done, fed;
      }
      ghost var start := q.value;
      var i := q.value;
      var k := 0;
      while k < |ticks|
        invariant k == done && |fed| == done && done <= |ticks|
        invariant i == start + done
        invariant forall j :: 0 <= j < done ==> fed[j] <= start + j
        invariant done > 0 ==> height == i
        invariant done == 0 ==> height == old(height)
        invariant start == QueryHeight(old(server.data), up, startBlock).value
      {
        var next, best := Step(i, ticks[k]);
        match next {
          case Stopped(fatal) =>
            return Abort(fatal), done, fed;
          case Waiting =>
            return Ok(i), done, fed;
          case Advanced(n) =>
            fed := fed + [best];
            i := n;
            k := k + 1;
            done := done + 1;
        }
      }
      return Ok(i), done, fed;
    }
  }
}
