/**
 The main-chain membership cache and the depth of a wallet transaction.

 `GetBlockHeightIfMainChain` keeps a mutable fact, whether a block is in the main chain, in a
 cache meant for constants of blocks.  It drops the cache when the best block changes, except
 when the new best block sits right on top of the one the cache was filled for.
 */
module MainChainCache {
  import opened Wrappers
  import opened BlockTree
  import opened ChainState
  import opened ChainRuns
  import opened LruCache

  const ABANDON_HASH: Hash := 1

  // What the cache extracts from an index entry.
  function HeightIfMain(best: Hash): Index -> Option<nat> {
    (i: Index) => if IsInMainChain(i, best) then Some(i.node.height) else None
  }

  // The membership cache with the best block it is filled for, and the height last looked up.
  datatype MainCache = MainCache(best: Hash, lru: Cache<Option<nat>>)
  datatype Thread = Thread(main: MainCache, height: (Hash, nat))

  // The cache adjusted to a new best block.
  function Tuned(m: MainCache, index: map<Hash, Index>, best: Hash, size: nat): MainCache
    requires best in index
  {
    if m.best == best then m
    else if index[best].node.prev != m.best then MainCache(best, Cache([], size, m.lru.counter))
    else m.(best := best)
  }

  ghost function Queried(m: MainCache, index: map<Hash, Index>, h: Hash, best: Hash, size: nat)
    : (MainCache, Option<nat>)
  {
    if m.best != best && best !in index then (m, None)
    else
      var m1 := if m.best == best then m else Tuned(m, index, best, size);
      var (c, r) := Looked(m1.lru, index, h, HeightIfMain(best));
      (MainCache(best, c), if r.None? then None else r.value.value)
  }

  function HeightQueried(c: (Hash, nat), index: map<Hash, Index>, best: Hash): ((Hash, nat), nat) {
    if c.0 == best then (c, c.1)
    else if best !in index then (c, 0)
    else ((best, index[best].node.height), index[best].node.height)
  }

  // A wallet transaction: the block it claims to be in, and its index there (-1 when unknown).
  datatype MerkleTx = MerkleTx(hashBlock: Hash, nIndex: int)

  predicate InNoBlock(tx: MerkleTx) { tx.hashBlock == 0 || tx.hashBlock == ABANDON_HASH }

  function Signed(tx: MerkleTx, depth: int): int { (if tx.nIndex == -1 then -1 else 1) * depth }

  ghost function DepthQueried(t: Thread, index: map<Hash, Index>, tx: MerkleTx, best: Hash, size: nat): (Thread, int) {
    if InNoBlock(tx) then (t, 0)
    else
      var (m, a) := Queried(t.main, index, tx.hashBlock, best, size);
      if a.None? then (t.(main := m), 0)
      else
        var (c, b) := HeightQueried(t.height, index, best);
        (Thread(m, c), Signed(tx, b - a.value + 1))
  }

  // ---------- the direct answers ----------

  ghost function Links(s: State): map<Hash, Index>
    requires Inv(s)
  {
    RenderIndex(s.tree, s.genesis, s.tip)
  }

  ghost function HeightInMainChain(s: State, h: Hash): Option<nat>
    requires Inv(s)
  {
    if h in s.tree && IsAncestor(s.tree, s.genesis, h, s.tip) then Some(s.tree[h].height) else None
  }

  // The number of main-chain blocks from the transaction's block up to the best one, or 0.
  ghost function Depth(s: State, tx: MerkleTx): int
    requires Inv(s)
  {
    var h := HeightInMainChain(s, tx.hashBlock);
    if InNoBlock(tx) || h.None? then 0
    else Signed(tx, |Path(s.tree, s.genesis, s.tip)| - h.value)
  }

  // A transaction in a main-chain block is as deep as there are blocks from that one up to the best one,
  // itself counted; the sign says whether its place in the block is known.  Any other is not deep at all.
  ghost predicate IsDepth(s: State, tx: MerkleTx, depth: int)
    requires Inv(s)
  {
    if && tx.hashBlock != 0 && tx.hashBlock != ABANDON_HASH
       && tx.hashBlock in s.tree && IsAncestor(s.tree, s.genesis, tx.hashBlock, s.tip)
    then var n := s.tree[s.tip].height - s.tree[tx.hashBlock].height + 1;
         n >= 1 && depth == if tx.nIndex != -1 then n else -n
    else depth == 0
  }

  lemma DepthIs(s: State, tx: MerkleTx)
    requires Inv(s)
    ensures IsDepth(s, tx, Depth(s, tx))
  {
    hide Path, IsAncestor;
    InvTree(s);
    if tx.hashBlock in s.tree && IsAncestor(s.tree, s.genesis, tx.hashBlock, s.tip) {
      AncestorAtHeight(s.tree, s.genesis, tx.hashBlock, s.tip);
    }
  }

  lemma ExtractedIsDirect(s: State, h: Hash)
    requires Inv(s) && h in s.tree
    ensures h in Links(s) && HeightIfMain(s.tip)(Links(s)[h]) == HeightInMainChain(s, h)
    ensures Links(s)[h].node == s.tree[h] && KeyedByHash(Links(s))
  {
    hide Inv, NextOn, IsAncestor;
    InvTree(s);
    InMainChainIffAncestor(s.tree, s.genesis, s.tip, h);
  }

  // ---------- soundness ----------

  // The cache is right for the best block it was filled for.
  ghost predicate SoundMain(m: MainCache, t: Tree, genesis: Hash)
    requires WellFormed(t, genesis)
  {
    && Valid(m.lru)
    && if m.best == 0 then m.lru.entries == []
       else m.best in t && Agrees(m.lru.entries, RenderIndex(t, genesis, m.best), HeightIfMain(m.best))
  }

  ghost predicate SoundHeight(c: (Hash, nat), t: Tree) { c.0 == 0 || (c.0 in t && c.1 == t[c.0].height) }

  ghost predicate Sound(t: Thread, s: State)
    requires Inv(s)
  {
    SoundMain(t.main, s.tree, s.genesis) && SoundHeight(t.height, s.tree)
  }

  // The cache is not about to be kept with an entry for the new best block in it.
  ghost predicate TipUnseen(m: MainCache, s: State)
    requires Inv(s)
  {
    s.tip == m.best || s.tree[s.tip].prev != m.best || !Holds(m.lru.entries, s.tip)
  }

  // Blocks indexed since do not matter.
  lemma SoundGrows(m: MainCache, t: Tree, t': Tree, genesis: Hash)
    requires WellFormed(t, genesis) && WellFormed(t', genesis) && SoundMain(m, t, genesis)
    requires forall x :: x in t ==> x in t' && t'[x] == t[x]
    ensures SoundMain(m, t', genesis)
  {
    hide NextOn, WellFormed, Valid;
    if m.best != 0 {
      forall x | x in t ensures RenderIndex(t', genesis, m.best)[x] == RenderIndex(t, genesis, m.best)[x] {
        SameLink(t, t', genesis, m.best, x);
      }
    }
  }

  lemma SameLink(t: Tree, t': Tree, genesis: Hash, tip: Hash, x: Hash)
    requires WellFormed(t, genesis) && WellFormed(t', genesis) && tip in t && x in t
    requires forall y :: y in t ==> y in t' && t'[y] == t[y]
    ensures NextOn(t', genesis, tip, x) == NextOn(t, genesis, tip, x)
  {
    PathExtended(t, t', genesis, tip);
  }

  // An extension of the main chain by one block leaves the membership of all other blocks alone.
  lemma ExtensionKeeps(t: Tree, genesis: Hash, tip: Hash, x: Hash)
    requires WellFormed(t, genesis) && tip in t && tip != genesis && x in t && x != tip
    ensures t[tip].prev in t
    ensures HeightIfMain(tip)(RenderIndex(t, genesis, tip)[x]) ==
              HeightIfMain(t[tip].prev)(RenderIndex(t, genesis, t[tip].prev)[x])
  {
    hide NextOn;
    assert LinkedBack(t, tip);
    NextStep(t, genesis, tip, x);
  }

  lemma TunedIsSound(m: MainCache, s: State, size: nat)
    requires Inv(s) && SoundMain(m, s.tree, s.genesis) && TipUnseen(m, s) && s.tip in Links(s)
    ensures var m' := Tuned(m, Links(s), s.tip, size); m'.best == s.tip && SoundMain(m', s.tree, s.genesis)
    ensures var m' := Tuned(m, Links(s), s.tip, size); m'.lru.entries == m.lru.entries || m'.lru.entries == []
  {
    hide Inv, NextOn;
    InvTree(s);
    if s.tip != m.best && s.tree[s.tip].prev == m.best && s.tip != s.genesis {
      var es := m.lru.entries;
      forall i | 0 <= i < |es|
        ensures es[i].val == HeightIfMain(s.tip)(Links(s)[es[i].key])
      {
        assert Holds(es, es[i].key);
        ExtensionKeeps(s.tree, s.genesis, s.tip, es[i].key);
      }
    }
  }

  // A query is answered as the index would answer it, and the cache stays right.
  lemma QueryIsDirect(m: MainCache, s: State, h: Hash, size: nat)
    requires Inv(s) && SoundMain(m, s.tree, s.genesis) && TipUnseen(m, s)
    ensures var (m', a) := Queried(m, Links(s), h, s.tip, size);
            && a == HeightInMainChain(s, h)
            && m'.best == s.tip && SoundMain(m', s.tree, s.genesis)
            && (forall k :: Holds(m'.lru.entries, k) ==> Holds(m.lru.entries, k) || (k == h && h in s.tree))
  {
    hide Inv, IsAncestor, Looked, NextOn, Valid, Agrees;
    InvTree(s);
    NullNotIndexed(s);
    ExtractedIsDirect(s, s.tip);
    if h in s.tree {
      ExtractedIsDirect(s, h);
    }
    TunedIsSound(m, s, size);
    LookupIsTransparent(Tuned(m, Links(s), s.tip, size).lru, Links(s), h, HeightIfMain(s.tip));
  }

  // Exactly when every block may be asked for: otherwise the new best block itself is denied.
  lemma RightExactlyWhenUnseen(m: MainCache, s: State, size: nat)
    requires Inv(s) && SoundMain(m, s.tree, s.genesis)
    ensures (forall h :: Queried(m, Links(s), h, s.tip, size).1 == HeightInMainChain(s, h)) <==> TipUnseen(m, s)
  {
    hide Inv, NextOn, HeightInMainChain, Queried;
    if TipUnseen(m, s) {
      forall h ensures Queried(m, Links(s), h, s.tip, size).1 == HeightInMainChain(s, h) {
        QueryIsDirect(m, s, h, size);
      }
    } else {
      SeenTipIsDenied(m, s, size);
    }
  }

  lemma SeenTipIsDenied(m: MainCache, s: State, size: nat)
    requires Inv(s) && SoundMain(m, s.tree, s.genesis) && !TipUnseen(m, s)
    ensures Queried(m, Links(s), s.tip, s.tip, size).1 == None
    ensures HeightInMainChain(s, s.tip) == Some(s.tree[s.tip].height)
  {
    hide Inv, Valid;
    InvTree(s);
    SelfAncestor(s.tree, s.genesis, s.tip);
    NullNotIndexed(s);
    TipLink(s.tree, s.genesis, s.tip);
    var e := ValueOf(m.lru.entries, s.tip);
    assert s.tip != s.genesis;
    NextStep(s.tree, s.genesis, s.tip, s.tip);
  }

  // The offending situation as a concrete cache and chain.
  lemma SeenTipExists(head: Header) returns (m: MainCache, s: State)
    ensures Inv(s) && SoundMain(m, s.tree, s.genesis) && !TipUnseen(m, s)
  {
    hide Inv, Run, SoundMain, NextOn, WellFormed;
    var s0, first := FirstBlock(head);
    s := Run(s0, [first]);
    m := MainCache(1, Cache([Entry(2, 1, None, 0)], 1, 1));
    InvTree(s);
    SoundOnGenesis(s.tree, m);
    assert m.lru.entries[0].key == 2;
  }

  // A block above the tip is off the main chain.
  lemma SoundOnGenesis(t: Tree, m: MainCache)
    requires WellFormed(t, 1) && 2 in t && t[2].prev == 1
    requires m == MainCache(1, Cache([Entry(2, 1, None, 0)], 1, 1))
    ensures SoundMain(m, t, 1)
  {
    assert Path(t, 1, 1) == [1];
    assert NextOn(t, 1, 1, 2) == 0;
  }

  // ---------- the thread ----------

  // The question is about the stored chain and its best block, and the cache is right and not
  // about to be kept wrongly.
  ghost predicate AskedRightly(db: Db, s: State, best: Hash, m: MainCache) {
    Stores(db, s) && best == db.best && SoundMain(m, s.tree, s.genesis) && TipUnseen(m, s)
  }

  lemma LinksStored(db: Db, s: State)
    requires Stores(db, s)
    ensures Inv(s) && db.index == Links(s) && db.best == s.tip
  {
  }

  class ThreadCaches {
    var cachedBestHash: Hash
    var cachedBestHeight: (Hash, nat)
    const mainChainCache: BlockIndexLRUCache<Option<nat>>

    ghost function Contents(): Thread
      reads this, mainChainCache
    {
      Thread(MainCache(cachedBestHash, mainChainCache.Contents()), cachedBestHeight)
    }

    ghost predicate Tied()
      reads this, mainChainCache
    {
      mainChainCache.extractor == HeightIfMain(cachedBestHash) && Valid(mainChainCache.Contents())
    }

    constructor (walletTxs: nat)
      ensures Tied() && fresh(mainChainCache) && Contents() == Thread(MainCache(0, Cache([], 2 * walletTxs, 0)), (0, 0))
    {
      cachedBestHash, cachedBestHeight := 0, (0, 0);
      mainChainCache := new BlockIndexLRUCache(2 * walletTxs, HeightIfMain(0));
    }

    // The height of the best block; heights never change, so a remembered one stays right.
    method GetBestBlockHeight(db: Db, best: Hash, ghost s: State) returns (r: nat)
      modifies this`cachedBestHeight
      ensures (cachedBestHeight, r) == HeightQueried(old(cachedBestHeight), db.index, best)
      ensures Stores(db, s) && best == db.best && SoundHeight(old(cachedBestHeight), s.tree) ==>
                s.tip in s.tree && r == s.tree[s.tip].height && SoundHeight(cachedBestHeight, s.tree)
    {
      hide Stores, Inv, NextOn;
      if Stores(db, s) {
        StoredEntry(db, s, s.tip);
      }
      r := 0;
      if cachedBestHeight.0 == best {
        return cachedBestHeight.1;
      } else {
        if best in db.index {
          r := db.index[best].node.height;
          cachedBestHeight := (best, r);
        }
      }
    }

    // The height of a block if it is in the main chain.
    method GetBlockHeightIfMainChain(db: Db, h: Hash, best: Hash, walletTxs: nat, ghost s: State)
      returns (r: Option<nat>)
      requires Tied()
      modifies this`cachedBestHash, mainChainCache
      ensures Tied() && (Contents().main, r) == Queried(old(Contents()).main, db.index, h, best, 2 * walletTxs)
      ensures AskedRightly(db, s, best, old(Contents()).main) ==>
                r == HeightInMainChain(s, h) && SoundMain(Contents().main, s.tree, s.genesis)
    {
      hide Stores, Inv, SoundMain, TipUnseen, Looked, Valid, HeightInMainChain;
      if AskedRightly(db, s, best, Contents().main) {
        LinksStored(db, s);
        QueryIsDirect(Contents().main, s, h, 2 * walletTxs);
      }
      if cachedBestHash != best {
        if best !in db.index {
          return None;
        }
        if db.index[best].node.prev != cachedBestHash {
          mainChainCache.Clear();
          mainChainCache.UpdateCacheSize(2 * walletTxs);
          EmptyIsValid(mainChainCache.Contents());
        }
        mainChainCache.SetExtractor(HeightIfMain(best));
        cachedBestHash := best;
      }
      LookupKeepsValid(mainChainCache.Contents(), db.index, h, mainChainCache.extractor);
      var entry := mainChainCache.Get(db, h);
      r := if entry.None? then None else entry.value.value;
    }

    // The depth by way of the cache.
    method GetDepthInMainChain(db: Db, tx: MerkleTx, best: Hash, walletTxs: nat, ghost s: State) returns (depth: int)
      requires Tied()
      modifies this`cachedBestHash, this`cachedBestHeight, mainChainCache
      ensures Tied() && (Contents(), depth) == DepthQueried(old(Contents()), db.index, tx, best, 2 * walletTxs)
      ensures AskedRightly(db, s, best, old(Contents()).main) && SoundHeight(old(cachedBestHeight), s.tree) ==>
                depth == Depth(s, tx) && IsDepth(s, tx, depth) && Sound(Contents(), s)
    {
      hide Stores, Inv, SoundMain, TipUnseen, Looked, Valid, Queried, Depth, SoundHeight, IsDepth;
      if AskedRightly(db, s, best, Contents().main) && SoundHeight(cachedBestHeight, s.tree) {
        LinksStored(db, s);
        DepthIsDirect(Contents(), s, tx, 2 * walletTxs);
        DepthIs(s, tx);
      }
      if tx.hashBlock == 0 || tx.hashBlock == ABANDON_HASH {
        return 0;
      }
      depth := 0;
      var height := GetBlockHeightIfMainChain(db, tx.hashBlock, best, walletTxs, s);
      if height.Some? {
        var bestHeight := GetBestBlockHeight(db, best, s);
        depth := Signed(tx, bestHeight as int - height.value + 1);
      }
    }

    // The depth by way of the index.
    method GetDepthAndIndex(db: Db, tx: MerkleTx, best: Hash, ghost s: State)
      returns (depth: int, pindexRet: Option<Index>)
      requires Stores(db, s) && best == db.best && SoundHeight(cachedBestHeight, s.tree)
      modifies this`cachedBestHeight
      ensures Inv(s) && depth == Depth(s, tx) && IsDepth(s, tx, depth) && SoundHeight(cachedBestHeight, s.tree)
      ensures pindexRet.Some? ==> tx.hashBlock in db.index && pindexRet.value == db.index[tx.hashBlock]
      ensures pindexRet.Some? <==> depth != 0
    {
      hide Stores, NextOn, IsAncestor, Path, IsDepth;
      StoredEntry(db, s, s.tip);
      DepthIs(s, tx);
      if tx.hashBlock == 0 || tx.hashBlock == ABANDON_HASH {
        return 0, None;
      }
      StoredEntry(db, s, tx.hashBlock);
      StoredLinks(db, s, tx.hashBlock);
      if tx.hashBlock !in db.index || !IsInMainChain(db.index[tx.hashBlock], db.best) {
        depth, pindexRet := 0, None;
      } else {
        var bestHeight := GetBestBlockHeight(db, best, s);
        depth := Signed(tx, bestHeight - db.index[tx.hashBlock].node.height + 1);
        pindexRet := Some(db.index[tx.hashBlock]);
      }
    }
  }

  lemma StoredLinks(db: Db, s: State, h: Hash)
    requires Stores(db, s)
    ensures Inv(s)
    ensures (h in s.tree ==> h in db.index && (HeightInMainChain(s, h).Some? <==> IsInMainChain(db.index[h], db.best)))
    ensures h in s.tree && IsAncestor(s.tree, s.genesis, h, s.tip) ==> s.tree[h].height <= s.tree[s.tip].height
  {
    InvTree(s);
    if h in s.tree {
      ExtractedIsDirect(s, h);
      if IsAncestor(s.tree, s.genesis, h, s.tip) {
        AncestorAtHeight(s.tree, s.genesis, h, s.tip);
      }
    }
  }

  // Both ways of computing a depth agree.
  lemma DepthIsDirect(t: Thread, s: State, tx: MerkleTx, size: nat)
    requires Inv(s) && Sound(t, s) && TipUnseen(t.main, s)
    ensures var (t', d) := DepthQueried(t, Links(s), tx, s.tip, size);
            && d == Depth(s, tx) && Sound(t', s)
            && (if InNoBlock(tx) then t'.main == t.main else t'.main.best == s.tip)
            && (forall k :: Holds(t'.main.lru.entries, k) ==>
                  Holds(t.main.lru.entries, k) || (k == tx.hashBlock && k in s.tree))
  {
    hide Inv, SoundMain, Queried, Path, IsAncestor, NextOn;
    InvTree(s);
    NullNotIndexed(s);
    QueryIsDirect(t.main, s, tx.hashBlock, size);
    ExtractedIsDirect(s, s.tip);
  }

  // ---------- runs ----------

  datatype Event = Offer(request: Request) | Ask(tx: MerkleTx, size: nat)

  ghost predicate PlayableEvents(s: State, es: seq<Event>)
    requires Inv(s)
    decreases |es|
  {
    if es == [] then true
    else match es[0]
      case Offer(r) => Offered(s, r) && PlayableEvents(Step(s, r).0, es[1..])
      case Ask(_, _) => PlayableEvents(s, es[1..])
  }

  // Every depth asked for during the run is the direct one at that moment.
  ghost predicate AllRight(s: State, t: Thread, es: seq<Event>)
    requires Inv(s) && PlayableEvents(s, es)
    decreases |es|
  {
    if es == [] then true
    else match es[0]
      case Offer(r) => AllRight(Step(s, r).0, t, es[1..])
      case Ask(tx, size) =>
        && DepthQueried(t, Links(s), tx, s.tip, size).1 == Depth(s, tx)
        && AllRight(s, DepthQueried(t, Links(s), tx, s.tip, size).0, es[1..])
  }

  // No block is asked for before the offer that makes it the best one; `asked` are those asked for so far.
  ghost predicate NotAskedEarly(s: State, es: seq<Event>, asked: set<Hash>)
    requires Inv(s) && PlayableEvents(s, es)
    decreases |es|
  {
    if es == [] then true
    else match es[0]
      case Offer(r) =>
        var s' := Step(s, r).0;
        (s'.tip == s.tip || s'.tip !in asked) && NotAskedEarly(s', es[1..], asked)
      case Ask(tx, _) => NotAskedEarly(s, es[1..], asked + (if InNoBlock(tx) then {} else {tx.hashBlock}))
  }

  lemma OfferKeepsSound(t: Thread, s: State, r: Request)
    requires Inv(s) && Offered(s, r) && Sound(t, s)
    ensures Sound(t, Step(s, r).0)
  {
    hide Inv, Step, SoundMain;
    InvTree(s);
    InvTree(Step(s, r).0);
    TrustRises(s, r);
    StepGenesis(s, r);
    SoundGrows(t.main, s.tree, Step(s, r).0.tree, s.genesis);
  }

  lemma StepGenesis(s: State, r: Request)
    requires Inv(s) && Offered(s, r)
    ensures Step(s, r).0.genesis == s.genesis
  {
    hide Inv, CanSwitch;
  }

  // From any stored chain, all answers of a run are right if no block is asked for early.
  lemma {:induction false} RightIfNotAskedEarly(s: State, t: Thread, es: seq<Event>, asked: set<Hash>)
    requires Inv(s) && PlayableEvents(s, es) && Sound(t, s) && NotAskedEarly(s, es, asked)
    requires (forall k :: Holds(t.main.lru.entries, k) ==> k in asked) && (s.tip == t.main.best || s.tip !in asked)
    ensures AllRight(s, t, es)
    decreases |es|
  {
    hide Inv, Step, Sound, DepthQueried, Depth;
    if es != [] {
      match es[0]
      case Offer(r) =>
        OfferKeepsSound(t, s, r);
        RightIfNotAskedEarly(Step(s, r).0, t, es[1..], asked);
      case Ask(tx, size) =>
        DepthIsDirect(t, s, tx, size);
        RightIfNotAskedEarly(s, DepthQueried(t, Links(s), tx, s.tip, size).0, es[1..],
                             asked + (if InNoBlock(tx) then {} else {tx.hashBlock}));
    }
  }

  // What holds at every moment of a run from the genesis block: the best block is a most trusted
  // one, only indexed blocks are in the cache, and a new best block is not.
  ghost predicate Ready(t: Thread, s: State)
    requires Inv(s)
  {
    && Sound(t, s) && Heaviest(s)
    && (forall k :: Holds(t.main.lru.entries, k) ==> k in s.tree)
    && (s.tip == t.main.best || !Holds(t.main.lru.entries, s.tip))
  }

  // A block becomes best only in the moment it is indexed, and a block not indexed yet cannot be
  // in the cache.
  lemma OfferKeepsReady(t: Thread, s: State, r: Request)
    requires Inv(s) && Offered(s, r) && Ready(t, s)
    ensures Ready(t, Step(s, r).0)
  {
    hide Inv, Step, Sound, Heaviest, Holds;
    OfferKeepsSound(t, s, r);
    StepHeaviest(s, r);
    TrustRises(s, r);
  }

  lemma AskKeepsReady(t: Thread, s: State, tx: MerkleTx, size: nat)
    requires Inv(s) && Ready(t, s)
    ensures TipUnseen(t.main, s) && Ready(DepthQueried(t, Links(s), tx, s.tip, size).0, s)
    ensures DepthQueried(t, Links(s), tx, s.tip, size).1 == Depth(s, tx)
  {
    hide Inv, Sound, DepthQueried, Depth, Heaviest, Holds;
    DepthIsDirect(t, s, tx, size);
  }

  // From such a moment on, and so from the genesis block, all answers of every run are right.
  lemma {:induction false} RightFromGenesis(s: State, t: Thread, es: seq<Event>)
    requires Inv(s) && PlayableEvents(s, es) && Ready(t, s)
    ensures AllRight(s, t, es)
    decreases |es|
  {
    hide Inv, Step, Ready, DepthQueried, Depth;
    if es != [] {
      match es[0]
      case Offer(r) =>
        OfferKeepsReady(t, s, r);
        RightFromGenesis(Step(s, r).0, t, es[1..]);
      case Ask(tx, size) =>
        AskKeepsReady(t, s, tx, size);
        RightFromGenesis(s, DepthQueried(t, Links(s), tx, s.tip, size).0, es[1..]);
    }
  }

  ghost function EmptyThread(size: nat): Thread { Thread(MainCache(0, Cache([], size, 0)), (0, 0)) }

  // A node that starts on its genesis block with empty caches.
  lemma StartsReady(s: State, size: nat)
    requires Initial(s) && Inv(s)
    ensures Ready(EmptyThread(size), s)
  {
  }

  lemma CachedDepthsAreRight(s: State, es: seq<Event>, size: nat)
    requires Initial(s) && Inv(s) && PlayableEvents(s, es)
    ensures AllRight(s, EmptyThread(size), es)
  {
    hide AllRight, PlayableEvents, Ready;
    StartsReady(s, size);
    RightFromGenesis(s, EmptyThread(size), es);
  }
}
