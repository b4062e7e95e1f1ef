/** The block feed: a scanner that polls a node's tip, walks parent links back to blocks it already knows, and
    replays what it found, oldest first, to the feed's subscribers. */
module BlockFeed {
  import opened Wrappers
  import opened Ledger

  type HeaderId = nat

  datatype Block = Block(parent: HeaderId, transactions: seq<LedgerTx>)
  datatype BlockRecord = BlockRecord(header: HeaderId, block: Block)
  datatype ConsensusInfo = ConsensusInfo(tip: HeaderId, height: nat)

  /** What the node answers during one poll. No `info`: the request failed. A header outside `blocks`: fetching it
      fails or finds nothing, which the scanner treats alike. */
  datatype Answers = Answers(info: Option<ConsensusInfo>, blocks: map<HeaderId, Block>)

  datatype CatchUpError = InfoUnavailable | BlockUnavailable(header: HeaderId)

  // ----- what one poll delivers -----

  /** Outcome of the backward walk: the blocks to deliver, oldest first, and the header (if any) that was marked
      as known without being delivered because the reported height was used up. */
  datatype Walk = Failed(at: HeaderId) | Walked(found: seq<BlockRecord>, root: Option<HeaderId>)

  function Extend(w: Walk, newer: seq<BlockRecord>): Walk {
    match w
    case Failed(at) => w
    case Walked(found, root) => Walked(found + newer, root)
  }

  function WalkBack(blocks: map<HeaderId, Block>, seen: set<HeaderId>, cursor: HeaderId, remaining: nat): Walk
    decreases remaining
  {
    if cursor in seen then Walked([], None)
    else if remaining == 0 then Walked([], Some(cursor))
    else if cursor !in blocks then Failed(cursor)
    else
      var record := BlockRecord(cursor, blocks[cursor]);
      if record.block.parent in seen || record.block.parent == cursor then Walked([record], None)
      else Extend(WalkBack(blocks, seen, record.block.parent, remaining - 1), [record])
  }

  ghost function Headers(records: seq<BlockRecord>): set<HeaderId> {
    set record | record in records :: record.header
  }

  function HeaderList(records: seq<BlockRecord>): seq<HeaderId> {
    seq(|records|, i requires 0 <= i < |records| => records[i].header)
  }

  function TxCount(records: seq<BlockRecord>): nat {
    if records == [] then 0 else |records[0].block.transactions| + TxCount(records[1..])
  }

  /** `fetch_add` on the 64-bit counter. */
  function WrappingAdd(total: nat, n: nat): nat {
    (total + n) % U64_MODULUS
  }

  /** The counter after `records` have been ingested one by one. */
  function Counted(total: nat, records: seq<BlockRecord>): nat
    decreases |records|
  {
    if records == [] then total
    else Counted(WrappingAdd(total, |records[0].block.transactions|), records[1..])
  }

  function Reverse<T>(s: seq<T>): (r: seq<T>)
    ensures |r| == |s|
  {
    if s == [] then [] else [s[|s| - 1]] + Reverse(s[..|s| - 1])
  }

  ghost function Marked(root: Option<HeaderId>): set<HeaderId> {
    match root case None => {} case Some(h) => {h}
  }

  /** The scanner's observable state: known headers, everything sent to subscribers, and the transaction counter. */
  datatype Index = Index(seen: set<HeaderId>, sent: seq<BlockRecord>, total: nat)

  const EMPTY_INDEX := Index({}, [], 0)

  ghost function WalkOf(index: Index, a: Answers): Walk
    requires a.info.Some?
  {
    WalkBack(a.blocks, index.seen, a.info.value.tip, a.info.value.height)
  }

  ghost predicate Succeeds(index: Index, a: Answers) {
    a.info.Some? && WalkOf(index, a).Walked?
  }

  /** State after one poll: unchanged when it fails. */
  ghost function Poll(index: Index, a: Answers): Index {
    if !Succeeds(index, a) then index
    else
      var w := WalkOf(index, a);
      Index(index.seen + Headers(w.found) + Marked(w.root),
            index.sent + w.found,
            Counted(index.total, w.found))
  }

  /** State after a whole run of polls, oldest poll first. */
  ghost function Run(index: Index, polls: seq<Answers>): Index {
    if polls == [] then index
    else Poll(Run(index, polls[..|polls| - 1]), polls[|polls| - 1])
  }

  // ----- the scanner itself -----

  class ApiClient {
    var answers: Answers
    var fetches: seq<HeaderId>  // block requests made so far

    constructor (answers: Answers) {
      this.answers := answers;
      fetches := [];
    }

    method ConsensusInfo() returns (info: Option<ConsensusInfo>)
      ensures info == answers.info
    {
      info := answers.info;
    }

    method StorageBlock(header: HeaderId) returns (block: Option<Block>)
      modifies this`fetches
      ensures fetches == old(fetches) + [header]
      ensures block == if header in answers.blocks then Some(answers.blocks[header]) else None
    {
      fetches := fetches + [header];
      block := if header in answers.blocks then Some(answers.blocks[header]) else None;
    }
  }

  class BlockStats {
    var totalTransactions: nat

    constructor ()
      ensures totalTransactions == 0
    {
      totalTransactions := 0;
    }

    method RecordBlock(block: Block)
      modifies this
      ensures totalTransactions == WrappingAdd(old(totalTransactions), |block.transactions|)
    {
      totalTransactions := WrappingAdd(totalTransactions, |block.transactions|);
    }
  }

  class Feed {
    const stats: BlockStats
    var sent: seq<BlockRecord>

    constructor ()
      ensures sent == [] && fresh(stats) && stats.totalTransactions == 0
    {
      stats := new BlockStats();
      sent := [];
    }

    method Ingest(header: HeaderId, block: Block)
      modifies this`sent, stats
      ensures sent == old(sent) + [BlockRecord(header, block)]
      ensures stats.totalTransactions == WrappingAdd(old(stats.totalTransactions), |block.transactions|)
    {
      stats.RecordBlock(block);
      sent := sent + [BlockRecord(header, block)];
    }
  }

  class BlockScanner {
    const client: ApiClient
    const feed: Feed
    var seen: set<HeaderId>

    constructor (client: ApiClient, feed: Feed)
      ensures this.client == client && this.feed == feed && seen == {}
    {
      this.client := client;
      this.feed := feed;
      seen := {};
    }

    ghost function View(): Index
      reads this, feed, feed.stats
    {
      Index(seen, feed.sent, feed.stats.totalTransactions)
    }

    /** One poll. The last postcondition: a successful poll requests each block it delivers once, newest first,
        and nothing else. */
    method CatchUp() returns (r: Outcome<CatchUpError>)
      modifies this`seen, feed`sent, feed.stats, client`fetches
      ensures View() == Poll(old(View()), client.answers)
      ensures r.Pass? <==> Succeeds(old(View()), client.answers)
      ensures r.Fail? ==>
                r.error == if client.answers.info.None? then InfoUnavailable
                           else BlockUnavailable(WalkOf(old(View()), client.answers).at)
      ensures r.Pass? ==>
                client.fetches == old(client.fetches) + HeaderList(Reverse(WalkOf(old(View()), client.answers).found))
    {
      var info := client.ConsensusInfo();
      if info.None? {
        return Fail(InfoUnavailable);
      }
      var stack := Walk(info.value);
      if stack.Err? {
        return Fail(stack.error);
      }
      ReverseTwice(stack.value);
      Replay(stack.value);
      return Pass;
    }

    /** The first loop of a poll: stacks unknown blocks from the tip backwards. */
    method Walk(info: ConsensusInfo) returns (r: Result<seq<BlockRecord>, CatchUpError>)
      modifies this`seen, client`fetches
      ensures var walk := WalkBack(client.answers.blocks, old(seen), info.tip, info.height);
              match r
              case Err(error) => walk.Failed? && error == BlockUnavailable(walk.at) && seen == old(seen)
              case Ok(stack) =>
                && walk.Walked? && walk.found == Reverse(stack)
                && seen == old(seen) + Marked(walk.root)
                && client.fetches == old(client.fetches) + HeaderList(stack)
    {
      var remainingHeight := info.height;
      var stack: seq<BlockRecord> := [];
      var cursor := info.tip;
      ghost var blocks := client.answers.blocks;

      while true
        invariant seen == old(seen)
        invariant WalkBack(blocks, seen, info.tip, info.height)
               == Extend(WalkBack(blocks, seen, cursor, remainingHeight), Reverse(stack))
        invariant client.fetches == old(client.fetches) + HeaderList(stack)
        decreases remainingHeight
      {
        if cursor in seen {
          break;
        }
        if remainingHeight == 0 {
          seen := seen + {cursor};
          break;
        }
        var block := client.StorageBlock(cursor);
        if block.None? {
          return Err(BlockUnavailable(cursor));
        }
        var parent := block.value.parent;
        WalkStep(blocks, seen, cursor, remainingHeight, stack);
        stack := stack + [BlockRecord(cursor, block.value)];
        if parent in seen || parent == cursor {
          break;
        }
        cursor := parent;
        remainingHeight := remainingHeight - 1;
      }
      return Ok(stack);
    }

    /** The second loop of a poll: pops the stack, so the oldest block is delivered first. */
    method Replay(found: seq<BlockRecord>)
      modifies this`seen, feed`sent, feed.stats
      ensures feed.sent == old(feed.sent) + Reverse(found)
      ensures seen == old(seen) + Headers(Reverse(found))
      ensures feed.stats.totalTransactions == Counted(old(feed.stats.totalTransactions), Reverse(found))
    {
      var stack := found;
      ghost var done := [];
      while stack != []
        invariant done + Reverse(stack) == Reverse(found)
        invariant feed.sent == old(feed.sent) + done
        invariant seen == old(seen) + Headers(done)
        invariant feed.stats.totalTransactions == Counted(old(feed.stats.totalTransactions), done)
        decreases |stack|
      {
        var record := stack[|stack| - 1];
        Delivered(old(feed.stats.totalTransactions), done, record, Reverse(stack[..|stack| - 1]));
        stack := stack[..|stack| - 1];
        feed.Ingest(record.header, record.block);
        seen := seen + {record.header};
        done := done + [record];
      }
      assert done == Reverse(found);
    }
  }

  lemma {:induction false} CountedSnoc(total: nat, done: seq<BlockRecord>, record: BlockRecord)
    ensures Counted(total, done + [record]) == WrappingAdd(Counted(total, done), |record.block.transactions|)
    decreases |done|
  {
    if done == [] {
      assert [record][1..] == [];
    } else {
      assert (done + [record])[1..] == done[1..] + [record];
      CountedSnoc(WrappingAdd(total, |done[0].block.transactions|), done[1..], record);
    }
  }

  lemma Delivered(total: nat, done: seq<BlockRecord>, record: BlockRecord, rest: seq<BlockRecord>)
    ensures done + ([record] + rest) == (done + [record]) + rest
    ensures Headers(done + [record]) == Headers(done) + {record.header}
    ensures Counted(total, done + [record]) == WrappingAdd(Counted(total, done), |record.block.transactions|)
  {
    CountedSnoc(total, done, record);
  }

  lemma PushReversed<T>(s: seq<T>, x: T)
    ensures Reverse(s + [x]) == [x] + Reverse(s)
  {
    assert (s + [x])[..|s|] == s;
  }

  /** One iteration of the walk: the block just stacked moves from the part still to be walked to the stack. */
  lemma WalkStep(
      blocks: map<HeaderId, Block>, seen: set<HeaderId>, cursor: HeaderId, remaining: nat, stack: seq<BlockRecord>)
    requires cursor !in seen && remaining != 0 && cursor in blocks
    ensures
      var record := BlockRecord(cursor, blocks[cursor]);
      var parent := record.block.parent;
      Extend(WalkBack(blocks, seen, cursor, remaining), Reverse(stack)) ==
      if parent in seen || parent == cursor then Walked(Reverse(stack + [record]), None)
      else Extend(WalkBack(blocks, seen, parent, remaining - 1), Reverse(stack + [record]))
  {
    var record := BlockRecord(cursor, blocks[cursor]);
    PushReversed(stack, record);
    var below := WalkBack(blocks, seen, record.block.parent, remaining - 1);
    if below.Walked? {
      assert below.found + ([record] + Reverse(stack)) == (below.found + [record]) + Reverse(stack);
    }
  }

  lemma {:induction false} ReverseCons<T>(x: T, s: seq<T>)
    ensures Reverse([x] + s) == Reverse(s) + [x]
  {
    if s != [] {
      assert ([x] + s)[..|s|] == [x] + s[..|s| - 1];
      ReverseCons(x, s[..|s| - 1]);
    }
  }

  lemma {:induction false} ReverseTwice<T>(s: seq<T>)
    ensures Reverse(Reverse(s)) == s
  {
    if s != [] {
      ReverseCons(s[|s| - 1], Reverse(s[..|s| - 1]));
      ReverseTwice(s[..|s| - 1]);
    }
  }

  lemma HeadersConcat(a: seq<BlockRecord>, b: seq<BlockRecord>)
    ensures Headers(a + b) == Headers(a) + Headers(b)
  {
  }
}
