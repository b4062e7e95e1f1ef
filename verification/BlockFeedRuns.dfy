/** What the block feed guarantees over whole runs: against any block tree, with the tip jumping between forks and
    polls failing at will, the feed is an exact, duplicate-free, parents-first index of every chain it was shown. */
module BlockFeedRuns {
  import opened Wrappers
  import opened BlockFeed

  /** All blocks that exist during a run, with their distance from genesis. */
  datatype Tree = Tree(genesis: HeaderId, blocks: map<HeaderId, Block>, depth: map<HeaderId, nat>) {
    ghost predicate Valid() {
      && genesis in depth && depth[genesis] == 0
      && (forall h <- depth :: h != genesis ==> h in blocks)
      && (forall h <- blocks :: h != genesis ==>
            h in depth && blocks[h].parent in depth && depth[h] == depth[blocks[h].parent] + 1)
    }

    /** The node never invents blocks, and reports its tip's true depth. */
    ghost predicate Truthful(a: Answers) {
      && BlocksTruthful(a)
      && (a.info.Some? ==> a.info.value.tip in depth && a.info.value.height == depth[a.info.value.tip])
    }

    ghost predicate BlocksTruthful(a: Answers) {
      forall h <- a.blocks :: h != genesis ==> h in blocks && a.blocks[h] == blocks[h]
    }

    /** `h` and all its ancestors. */
    ghost function Chain(h: HeaderId): set<HeaderId>
      requires Valid() && h in depth
      decreases depth[h]
    {
      if h == genesis then {h} else {h} + Chain(blocks[h].parent)
    }

    /** The part of `h`'s chain above the known blocks, oldest first. */
    ghost function Missing(seen: set<HeaderId>, h: HeaderId): seq<BlockRecord>
      requires Valid() && h in depth
      decreases depth[h]
    {
      if h in seen || h == genesis then []
      else Missing(seen, blocks[h].parent) + [BlockRecord(h, blocks[h])]
    }

    ghost predicate Closed(seen: set<HeaderId>) {
      forall h <- seen :: h in depth && (h != genesis ==> h in blocks && blocks[h].parent in seen)
    }

    ghost function Chains(tips: seq<HeaderId>): set<HeaderId>
      requires Valid() && forall t <- tips :: t in depth
    {
      if tips == [] then {} else Chains(tips[..|tips| - 1]) + Chain(tips[|tips| - 1])
    }
  }

  ghost predicate Distinct<T>(s: seq<T>) {
    forall i, j :: 0 <= i < j < |s| ==> s[i] != s[j]
  }

  /** Every delivered block is a block of the tree whose parent is genesis or was delivered strictly earlier. */
  ghost predicate ParentsFirst(tree: Tree, sent: seq<BlockRecord>) {
    forall i :: 0 <= i < |sent| ==>
      && sent[i].header in tree.blocks && sent[i].block == tree.blocks[sent[i].header]
      && (sent[i].block.parent == tree.genesis || sent[i].block.parent in Headers(sent[..i]))
  }

  /** The index is exact for the chains of `tips`. */
  ghost predicate Indexes(tree: Tree, tips: seq<HeaderId>, index: Index)
    requires tree.Valid()
  {
    && (forall t <- tips :: t in tree.depth)
    && index.seen == tree.Chains(tips)
    && Headers(index.sent) == index.seen - {tree.genesis}
    && Distinct(HeaderList(index.sent))
    && ParentsFirst(tree, index.sent)
    && index.total == TxCount(index.sent) % U64_MODULUS
  }

  ghost function SuccessfulTips(index: Index, polls: seq<Answers>): seq<HeaderId> {
    if polls == [] then []
    else
      var before, last := polls[..|polls| - 1], polls[|polls| - 1];
      SuccessfulTips(index, before) +
      if Succeeds(Run(index, before), last) then [last.info.value.tip] else []
  }

  ghost function Successful(index: Index, polls: seq<Answers>): seq<Answers> {
    if polls == [] then []
    else
      var before, last := polls[..|polls| - 1], polls[|polls| - 1];
      Successful(index, before) + if Succeeds(Run(index, before), last) then [last] else []
  }

  // ----- the walk against the tree -----

  ghost predicate Available(records: seq<BlockRecord>, blocks: map<HeaderId, Block>) {
    forall r <- records :: r.header in blocks
  }

  ghost predicate ReachesGenesis(tree: Tree, seen: set<HeaderId>, h: HeaderId)
    requires tree.Valid() && h in tree.depth
    decreases tree.depth[h]
  {
    h !in seen && (h == tree.genesis || ReachesGenesis(tree, seen, tree.blocks[h].parent))
  }

  /** With the tip's true depth as fuel, the walk finds exactly the missing part of the chain, and fails exactly
      when one of those blocks cannot be fetched. Only genesis can be marked without being delivered. */
  lemma {:induction false} WalkFindsMissing(tree: Tree, seen: set<HeaderId>, a: Answers, h: HeaderId)
    requires tree.Valid() && tree.BlocksTruthful(a) && h in tree.depth
    ensures var walk, missing := WalkBack(a.blocks, seen, h, tree.depth[h]), tree.Missing(seen, h);
            if Available(missing, a.blocks)
            then walk == Walked(missing, if ReachesGenesis(tree, seen, h) then Some(tree.genesis) else None)
            else walk.Failed? && walk.at in Headers(missing) - a.blocks.Keys
    decreases tree.depth[h]
  {
    if h !in seen && h != tree.genesis {
      var parent := tree.blocks[h].parent;
      WalkFindsMissing(tree, seen, a, parent);
      var older, newest := tree.Missing(seen, parent), BlockRecord(h, tree.blocks[h]);
      AvailableSnoc(older, newest, a.blocks);
      HeadersConcat(older, [newest]);
      if parent in seen {
        assert older + [newest] == [newest];
      }
    }
  }

  lemma AvailableSnoc(older: seq<BlockRecord>, newest: BlockRecord, blocks: map<HeaderId, Block>)
    ensures Available(older + [newest], blocks) <==> Available(older, blocks) && newest.header in blocks
  {
    assert newest in older + [newest];
    assert forall r <- older :: r in older + [newest];
  }

  /** A poll succeeds exactly when the node answers and every missing block of the tip's chain can be fetched. */
  lemma PollSucceedsIff(tree: Tree, index: Index, a: Answers)
    requires tree.Valid() && tree.Truthful(a)
    ensures Succeeds(index, a) <==>
            a.info.Some? && Available(tree.Missing(index.seen, a.info.value.tip), a.blocks)
  {
    if a.info.Some? {
      WalkFindsMissing(tree, index.seen, a, a.info.value.tip);
    }
  }

  // ----- the missing part of a chain -----

  lemma {:induction false} KnownChain(tree: Tree, seen: set<HeaderId>, h: HeaderId)
    requires tree.Valid() && h in tree.depth && tree.Closed(seen) && h in seen
    ensures tree.Chain(h) <= seen && tree.genesis in seen
    decreases tree.depth[h]
  {
    if h != tree.genesis {
      KnownChain(tree, seen, tree.blocks[h].parent);
    }
  }

  lemma {:induction false} ChainClosed(tree: Tree, h: HeaderId)
    requires tree.Valid() && h in tree.depth
    ensures tree.Closed(tree.Chain(h)) && tree.genesis in tree.Chain(h)
    decreases tree.depth[h]
  {
    if h != tree.genesis {
      ChainClosed(tree, tree.blocks[h].parent);
      assert tree.blocks[h].parent in tree.Chain(tree.blocks[h].parent);
    }
  }

  lemma {:induction false} ChainsClosed(tree: Tree, tips: seq<HeaderId>)
    requires tree.Valid() && forall t <- tips :: t in tree.depth
    ensures tree.Closed(tree.Chains(tips))
  {
    if tips != [] {
      ChainsClosed(tree, tips[..|tips| - 1]);
      ChainClosed(tree, tips[|tips| - 1]);
    }
  }

  /** A run of tree blocks, each the parent of the next, that starts on a known block or on genesis. */
  ghost predicate Linked(tree: Tree, seen: set<HeaderId>, records: seq<BlockRecord>) {
    && (forall r <- records :: r.header in tree.blocks && r.block == tree.blocks[r.header])
    && (records != [] ==> records[0].block.parent in seen || records[0].block.parent == tree.genesis)
    && (forall i, j :: 0 <= i && j == i + 1 < |records| ==> records[j].block.parent == records[i].header)
  }

  /** The missing part is the chain minus what is known, each block once, every parent known, genesis or earlier. */
  lemma {:induction false} MissingIsChain(tree: Tree, seen: set<HeaderId>, h: HeaderId)
    requires tree.Valid() && h in tree.depth && tree.Closed(seen)
    ensures Headers(tree.Missing(seen, h)) == tree.Chain(h) - seen - {tree.genesis}
    ensures forall r <- tree.Missing(seen, h) ::
              r.header in tree.depth && tree.depth[r.header] <= tree.depth[h]
    ensures Distinct(HeaderList(tree.Missing(seen, h)))
    ensures Linked(tree, seen, tree.Missing(seen, h))
    ensures ReachesGenesis(tree, seen, h) <==> tree.genesis !in seen
    ensures h !in seen && h != tree.genesis ==>
              var m := tree.Missing(seen, h); m != [] && m[|m| - 1].header == h
    decreases tree.depth[h]
  {
    if h in seen {
      KnownChain(tree, seen, h);
    } else if h != tree.genesis {
      var parent := tree.blocks[h].parent;
      MissingIsChain(tree, seen, parent);
      var older, newest := tree.Missing(seen, parent), BlockRecord(h, tree.blocks[h]);
      HeadersConcat(older, [newest]);
      assert Headers([newest]) == {h};
      LinkedSnoc(tree, seen, older, newest);
      DistinctSnoc(older, newest);
    }
  }

  lemma LinkedSnoc(tree: Tree, seen: set<HeaderId>, older: seq<BlockRecord>, newest: BlockRecord)
    requires Linked(tree, seen, older)
    requires newest.header in tree.blocks && newest.block == tree.blocks[newest.header]
    requires if older == [] then newest.block.parent in seen || newest.block.parent == tree.genesis
             else newest.block.parent == older[|older| - 1].header
    ensures Linked(tree, seen, older + [newest])
  {
  }

  lemma DistinctSnoc(older: seq<BlockRecord>, newest: BlockRecord)
    requires Distinct(HeaderList(older)) && newest.header !in Headers(older)
    ensures Distinct(HeaderList(older + [newest]))
  {
    NoRepeats(older, [newest]);
  }

  // ----- runs -----

  lemma {:induction false} CountedIsSum(total: nat, records: seq<BlockRecord>)
    requires total < U64_MODULUS
    ensures Counted(total, records) == (total + TxCount(records)) % U64_MODULUS
    decreases |records|
  {
    if records != [] {
      var n := |records[0].block.transactions|;
      CountedIsSum(WrappingAdd(total, n), records[1..]);
      ModuloSum(total, n, TxCount(records[1..]));
    }
  }

  lemma ModuloSum(a: nat, b: nat, c: nat)
    ensures ((a + b) % U64_MODULUS + c) % U64_MODULUS == (a + (b + c)) % U64_MODULUS
  {
    var q := (a + b) / U64_MODULUS;
    assert a + b == q * U64_MODULUS + (a + b) % U64_MODULUS;
  }

  lemma {:induction false} TxCountConcat(a: seq<BlockRecord>, b: seq<BlockRecord>)
    ensures TxCount(a + b) == TxCount(a) + TxCount(b)
  {
    if a == [] {
      assert a + b == b;
    } else {
      assert (a + b)[1..] == a[1..] + b;
      TxCountConcat(a[1..], b);
    }
  }

  /** One successful poll keeps the index exact and adds the polled chain. */
  lemma PollIndexes(tree: Tree, tips: seq<HeaderId>, index: Index, a: Answers)
    requires tree.Valid() && tree.Truthful(a) && Indexes(tree, tips, index) && Succeeds(index, a)
    ensures Indexes(tree, tips + [a.info.value.tip], Poll(index, a))
    ensures Poll(index, a).sent == index.sent + tree.Missing(index.seen, a.info.value.tip)
  {
    var tip := a.info.value.tip;
    ChainsClosed(tree, tips);
    WalkFindsMissing(tree, index.seen, a, tip);
    SeenAfterPoll(tree, index.seen, tip);
    assert (tips + [tip])[..|tips|] == tips;
    SentAfterPoll(tree, index, tip);
    ChainClosed(tree, tip);
  }

  lemma SentAfterPoll(tree: Tree, index: Index, tip: HeaderId)
    requires tree.Valid() && tree.Closed(index.seen) && tip in tree.depth
    requires Headers(index.sent) == index.seen - {tree.genesis}
    requires Distinct(HeaderList(index.sent)) && ParentsFirst(tree, index.sent)
    requires index.total == TxCount(index.sent) % U64_MODULUS
    ensures var missing := tree.Missing(index.seen, tip); var sent := index.sent + missing;
            && Headers(sent) == index.seen + tree.Chain(tip) - {tree.genesis}
            && Distinct(HeaderList(sent)) && ParentsFirst(tree, sent)
            && Counted(index.total, missing) == TxCount(sent) % U64_MODULUS
  {
    var missing := tree.Missing(index.seen, tip);
    MissingIsChain(tree, index.seen, tip);
    HeadersConcat(index.sent, missing);
    NoRepeats(index.sent, missing);
    StaysParentsFirst(tree, index, missing);
    CountedAfterSum(index.total, index.sent, missing);
  }

  lemma CountedAfterSum(total: nat, sent: seq<BlockRecord>, more: seq<BlockRecord>)
    requires total == TxCount(sent) % U64_MODULUS
    ensures Counted(total, more) == TxCount(sent + more) % U64_MODULUS
  {
    CountedIsSum(total, more);
    TxCountConcat(sent, more);
    ModuloSum(0, TxCount(sent), TxCount(more));
  }

  lemma SeenAfterPoll(tree: Tree, seen: set<HeaderId>, tip: HeaderId)
    requires tree.Valid() && tree.Closed(seen) && tip in tree.depth
    ensures var root := if ReachesGenesis(tree, seen, tip) then {tree.genesis} else {};
            seen + Headers(tree.Missing(seen, tip)) + root == seen + tree.Chain(tip)
  {
    MissingIsChain(tree, seen, tip);
    ChainClosed(tree, tip);
  }

  lemma NoRepeats(a: seq<BlockRecord>, b: seq<BlockRecord>)
    requires Distinct(HeaderList(a)) && Distinct(HeaderList(b)) && Headers(a) !! Headers(b)
    ensures Distinct(HeaderList(a + b))
  {
    forall i, j | 0 <= i < j < |a + b|
      ensures HeaderList(a + b)[i] != HeaderList(a + b)[j]
    {
      if i < |a| <= j {
        assert a[i] in a && b[j - |a|] in b;
        assert a[i].header in Headers(a) && b[j - |a|].header in Headers(b);
      } else if j < |a| {
        assert HeaderList(a)[i] != HeaderList(a)[j];
      } else {
        assert HeaderList(b)[i - |a|] != HeaderList(b)[j - |a|];
      }
    }
  }

  lemma StaysParentsFirst(tree: Tree, index: Index, missing: seq<BlockRecord>)
    requires ParentsFirst(tree, index.sent) && Headers(index.sent) == index.seen - {tree.genesis}
    requires Linked(tree, index.seen, missing)
    ensures ParentsFirst(tree, index.sent + missing)
  {
    var all := index.sent + missing;
    forall i | 0 <= i < |all|
      ensures all[i].header in tree.blocks && all[i].block == tree.blocks[all[i].header]
      ensures all[i].block.parent == tree.genesis || all[i].block.parent in Headers(all[..i])
    {
      if i < |index.sent| {
        assert all[..i] == index.sent[..i];
      } else {
        var k := i - |index.sent|;
        assert all[i] == missing[k] && all[..i] == index.sent + missing[..k];
        HeadersConcat(index.sent, missing[..k]);
        if k > 0 {
          assert missing[..k][k - 1] == missing[k - 1];
          assert missing[k - 1].header in Headers(missing[..k]);
        }
      }
    }
  }

  /** Main theorem. After any run of truthful polls, failing or not, the known headers are the union of the chains
      of all successfully polled tips; everything known except genesis was delivered, exactly once, parents first;
      and the counter is the number of transactions delivered (modulo its width). */
  lemma {:induction false} RunIndexesEveryPolledChain(tree: Tree, polls: seq<Answers>)
    requires tree.Valid() && forall a <- polls :: tree.Truthful(a)
    ensures Indexes(tree, SuccessfulTips(EMPTY_INDEX, polls), Run(EMPTY_INDEX, polls))
  {
    if polls != [] {
      var before, last := polls[..|polls| - 1], polls[|polls| - 1];
      RunIndexesEveryPolledChain(tree, before);
      if Succeeds(Run(EMPTY_INDEX, before), last) {
        PollIndexes(tree, SuccessfulTips(EMPTY_INDEX, before), Run(EMPTY_INDEX, before), last);
      } else {
        assert SuccessfulTips(EMPTY_INDEX, polls) == SuccessfulTips(EMPTY_INDEX, before);
      }
    }
  }

  /** Failed polls are stutter steps: erasing them changes nothing, and none of the remaining polls fails. */
  lemma {:induction false} FailedPollsStutter(index: Index, polls: seq<Answers>)
    ensures Run(index, polls) == Run(index, Successful(index, polls))
    ensures Successful(index, Successful(index, polls)) == Successful(index, polls)
  {
    if polls != [] {
      var before, last := polls[..|polls| - 1], polls[|polls| - 1];
      FailedPollsStutter(index, before);
      var kept := Successful(index, before);
      if Succeeds(Run(index, before), last) {
        assert (kept + [last])[..|kept|] == kept;
      } else {
        assert kept + [] == kept;
      }
    }
  }

  /** What was delivered stays delivered, in the same order. */
  lemma {:induction false} FeedOnlyGrows(index: Index, polls: seq<Answers>, k: nat)
    requires k <= |polls|
    ensures Run(index, polls[..k]).sent <= Run(index, polls).sent
    ensures Run(index, polls[..k]).seen <= Run(index, polls).seen
  {
    if k == |polls| {
      assert polls[..k] == polls;
    } else {
      var before := polls[..|polls| - 1];
      FeedOnlyGrows(index, before, k);
      assert before[..k] == polls[..k];
    }
  }

  // ----- a node that reports a wrong height -----

  /** Some known header other than genesis was never delivered; no later poll can deliver it. */
  ghost predicate HasHole(tree: Tree, index: Index) {
    exists h <- index.seen :: h != tree.genesis && h !in Headers(index.sent)
  }

  /** A height below the number of missing blocks cuts the walk short and marks the block it stops at. */
  lemma {:induction false} CutWalk(tree: Tree, seen: set<HeaderId>, a: Answers, h: HeaderId, height: nat)
    requires tree.Valid() && tree.BlocksTruthful(a) && h in tree.depth
    requires height < |tree.Missing(seen, h)|
    ensures var walk, missing := WalkBack(a.blocks, seen, h, height), tree.Missing(seen, h);
            walk.Walked? ==>
              && walk.found == missing[|missing| - height..]
              && walk.root == Some(missing[|missing| - height - 1].header)
    decreases tree.depth[h]
  {
    var parent := tree.blocks[h].parent;
    var older, newest := tree.Missing(seen, parent), BlockRecord(h, tree.blocks[h]);
    if height != 0 && h in a.blocks && parent !in seen {
      CutWalk(tree, seen, a, parent, height - 1);
      SuffixSnoc(older, newest, height);
      assert WalkBack(a.blocks, seen, h, height) == Extend(WalkBack(a.blocks, seen, parent, height - 1), [newest]);
    }
  }

  /** Any larger height finds all missing blocks. */
  lemma {:induction false} FullWalk(tree: Tree, seen: set<HeaderId>, a: Answers, h: HeaderId, height: nat)
    requires tree.Valid() && tree.BlocksTruthful(a) && h in tree.depth
    requires tree.genesis in seen || height <= tree.depth[h]
    requires height >= |tree.Missing(seen, h)|
    ensures var walk := WalkBack(a.blocks, seen, h, height);
            walk.Walked? ==> walk.found == tree.Missing(seen, h) && Marked(walk.root) <= {tree.genesis}
    decreases tree.depth[h]
  {
    if h !in seen && h != tree.genesis && h in a.blocks {
      var parent := tree.blocks[h].parent;
      var older, newest := tree.Missing(seen, parent), BlockRecord(h, tree.blocks[h]);
      if parent in seen {
        assert older + [newest] == [newest];
      } else {
        FullWalk(tree, seen, a, parent, height - 1);
        assert WalkBack(a.blocks, seen, h, height) == Extend(WalkBack(a.blocks, seen, parent, height - 1), [newest]);
      }
    }
  }

  lemma SuffixSnoc<T>(older: seq<T>, newest: T, n: nat)
    requires 0 < n
    ensures n <= |older| ==>
              && (older + [newest])[|older| + 1 - n..] == older[|older| - (n - 1)..] + [newest]
              && (older + [newest])[|older| - n] == older[|older| - n]
  {
  }

  /** Nothing of the tree precedes genesis: its block, if the node serves one, is its own parent or has a parent that
      the node does not serve. */
  ghost predicate GenesisIsFirst(tree: Tree, a: Answers) {
    tree.genesis in a.blocks ==>
      a.blocks[tree.genesis].parent == tree.genesis || a.blocks[tree.genesis].parent !in a.blocks
  }

  /** A height above the tip's depth makes a first walk fetch genesis too, and go on to its parent if that is another
      header: it then succeeds only if the height ends right there. */
  lemma {:induction false} LongWalk(tree: Tree, a: Answers, h: HeaderId, height: nat)
    requires tree.Valid() && tree.BlocksTruthful(a) && GenesisIsFirst(tree, a)
    requires h in tree.depth && height > tree.depth[h]
    ensures var walk := WalkBack(a.blocks, {}, h, height);
            walk.Walked? ==>
              && tree.genesis in a.blocks
              && walk.found == [BlockRecord(tree.genesis, a.blocks[tree.genesis])] + tree.Missing({}, h)
              && (if a.blocks[tree.genesis].parent == tree.genesis then walk.root == None
                  else walk.root == Some(a.blocks[tree.genesis].parent) && height == tree.depth[h] + 1)
    decreases tree.depth[h]
  {
    if h != tree.genesis && h in a.blocks {
      var parent := tree.blocks[h].parent;
      LongWalk(tree, a, parent, height - 1);
      var older, newest := tree.Missing({}, parent), BlockRecord(h, tree.blocks[h]);
      assert WalkBack(a.blocks, {}, h, height) == Extend(WalkBack(a.blocks, {}, parent, height - 1), [newest]);
      if tree.genesis in a.blocks {
        var first := [BlockRecord(tree.genesis, a.blocks[tree.genesis])];
        assert first + (older + [newest]) == (first + older) + [newest];
      }
    }
  }

  /** A first poll with an overstated height marks a header before genesis that is never delivered, unless genesis is
      its own parent. */
  ghost predicate OverrunsGenesis(tree: Tree, index: Index, a: Answers) {
    && tree.genesis !in index.seen && tree.genesis in a.blocks && a.blocks[tree.genesis].parent != tree.genesis
    && a.info.Some? && a.info.value.tip in tree.depth && a.info.value.height > tree.depth[a.info.value.tip]
  }

  /** If blocks are truthful but the reported height may be anything, a successful poll of an exact index leaves a
      header undelivered for good exactly when the height is smaller than the number of blocks missing, or so large that
      a first walk runs past genesis. */
  lemma HoleIffHeightWrong(tree: Tree, tips: seq<HeaderId>, index: Index, a: Answers)
    requires tree.Valid() && tree.BlocksTruthful(a) && GenesisIsFirst(tree, a) && Indexes(tree, tips, index)
    requires a.info.Some? && a.info.value.tip in tree.depth
    requires Succeeds(index, a)
    ensures HasHole(tree, Poll(index, a)) <==>
            || a.info.value.height < |tree.Missing(index.seen, a.info.value.tip)|
            || OverrunsGenesis(tree, index, a)
  {
    var tip, height := a.info.value.tip, a.info.value.height;
    var missing := tree.Missing(index.seen, tip);
    ChainsClosed(tree, tips);
    MissingIsChain(tree, index.seen, tip);
    HoleIffMarked(tree, index, a);
    if height < |missing| {
      CutWalk(tree, index.seen, a, tip, height);
      var k := |missing| - height - 1;
      NotInSuffix(missing, k);
      assert missing[k] in missing;
      assert missing[k].header in Headers(missing);
    } else if tree.genesis in index.seen || height <= tree.depth[tip] {
      FullWalk(tree, index.seen, a, tip, height);
    } else {
      OverstatedFirstPoll(tree, index, a);
    }
  }

  lemma OverstatedFirstPoll(tree: Tree, index: Index, a: Answers)
    requires tree.Valid() && tree.BlocksTruthful(a) && GenesisIsFirst(tree, a) && tree.Closed(index.seen)
    requires a.info.Some? && a.info.value.tip in tree.depth && Succeeds(index, a)
    requires tree.genesis !in index.seen && a.info.value.height > tree.depth[a.info.value.tip]
    ensures var walk := WalkOf(index, a);
            OverrunsGenesis(tree, index, a) <==>
            walk.root.Some? && walk.root.value != tree.genesis && walk.root.value !in index.seen + Headers(walk.found)
  {
    forall h | h in index.seen
      ensures false
    {
      KnownChain(tree, index.seen, h);
    }
    assert index.seen == {};
    var tip := a.info.value.tip;
    LongWalk(tree, a, tip, a.info.value.height);
    WalkServed(a.blocks, {}, tip, a.info.value.height);
  }

  /** Only blocks that were fetched are found. */
  lemma {:induction false} WalkServed(
      blocks: map<HeaderId, Block>, seen: set<HeaderId>, cursor: HeaderId, remaining: nat)
    ensures var walk := WalkBack(blocks, seen, cursor, remaining); walk.Walked? ==> Headers(walk.found) <= blocks.Keys
    decreases remaining
  {
    if cursor !in seen && remaining != 0 && cursor in blocks && blocks[cursor].parent !in seen
       && blocks[cursor].parent != cursor {
      WalkServed(blocks, seen, blocks[cursor].parent, remaining - 1);
    }
  }

  lemma HoleIffMarked(tree: Tree, index: Index, a: Answers)
    requires Succeeds(index, a) && Headers(index.sent) == index.seen - {tree.genesis}
    ensures var walk := WalkOf(index, a);
            HasHole(tree, Poll(index, a)) <==>
            walk.root.Some? && walk.root.value != tree.genesis && walk.root.value !in index.seen + Headers(walk.found)
  {
    var walk, next := WalkOf(index, a), Poll(index, a);
    HeadersConcat(index.sent, walk.found);
    assert Headers(next.sent) == (index.seen - {tree.genesis}) + Headers(walk.found);
    assert next.seen == index.seen + Headers(walk.found) + Marked(walk.root);
    if walk.root.Some? {
      assert walk.root.value in next.seen;
    }
  }

  lemma NotInSuffix(records: seq<BlockRecord>, k: nat)
    requires k < |records| && Distinct(HeaderList(records))
    ensures records[k].header !in Headers(records[k + 1..])
  {
    forall r | r in records[k + 1..]
      ensures r.header != records[k].header
    {
      var i :| k < i < |records| && records[i] == r;
      assert HeaderList(records)[k] != HeaderList(records)[i];
    }
  }

  /** A hole is permanent: a known header is never fetched, so it is never delivered later. */
  lemma {:induction false} HoleIsPermanent(index: Index, polls: seq<Answers>, h: HeaderId)
    requires h in index.seen && h !in Headers(index.sent)
    ensures h in Run(index, polls).seen && h !in Headers(Run(index, polls).sent)
  {
    if polls != [] {
      var before, last := polls[..|polls| - 1], polls[|polls| - 1];
      HoleIsPermanent(index, before, h);
      var mid := Run(index, before);
      if Succeeds(mid, last) {
        WalkSkipsKnown(last.blocks, mid.seen, last.info.value.tip, last.info.value.height);
        HeadersConcat(mid.sent, WalkOf(mid, last).found);
      }
    }
  }

  lemma {:induction false} WalkSkipsKnown(
      blocks: map<HeaderId, Block>, seen: set<HeaderId>, cursor: HeaderId, remaining: nat)
    ensures var walk := WalkBack(blocks, seen, cursor, remaining); walk.Walked? ==> Headers(walk.found) !! seen
    ensures var walk := WalkBack(blocks, seen, cursor, remaining); walk.Walked? ==> |walk.found| <= remaining
    decreases remaining
  {
    if cursor !in seen && remaining != 0 && cursor in blocks {
      var record := BlockRecord(cursor, blocks[cursor]);
      assert Headers([record]) == {cursor};
      if record.block.parent !in seen && record.block.parent != cursor {
        WalkSkipsKnown(blocks, seen, record.block.parent, remaining - 1);
        var below := WalkBack(blocks, seen, record.block.parent, remaining - 1);
        if below.Walked? {
          HeadersConcat(below.found, [record]);
        }
      }
    }
  }
}
