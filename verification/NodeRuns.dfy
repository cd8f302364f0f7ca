/**
 The chain database under whole runs of block offers, and under a reorganisation there and back.
 */
module NodeRuns {
  import opened BlockTree
  import opened Transactions
  import opened ChainState
  import opened BestChain
  import opened ChainRuns
  import opened MainChainCache

  // A node offered the blocks of `rs`, one after the other, goes through the states of the run.
  method OfferAll(c: ChainDb, rs: seq<Request>)
    requires c.Valid() && Inv(c.s) && Playable(c.s, rs)
    modifies c
    ensures c.Valid() && c.s == Run(old(c.s), rs)
  {
    hide Inv, Stores, Step, GenesisLinkAfter;
    ghost var s0 := c.s;
    for i := 0 to |rs|
      invariant c.Valid() && Inv(c.s) && Playable(c.s, rs[i..]) && Run(c.s, rs[i..]) == Run(s0, rs)
    {
      assert rs[i..][0] == rs[i] && rs[i..][1..] == rs[i + 1..];
      StoredEntry(c.db, c.s, c.s.tip);
      var _ := c.WriteToDisk(rs[i]);
      StoredEntry(c.db, c.s, c.s.tip);
    }
  }

  // After every run from the genesis block, the links and the height map are those of the main chain.
  method RunFromGenesis(hash: Hash, block: Block, trust: nat, head: Header, rs: seq<Request>) returns (c: ChainDb)
    requires hash != 0 && block.hashPrev == 0
    requires Inv(GenesisState(hash, block, trust, head)) && Playable(GenesisState(hash, block, trust, head), rs)
    ensures fresh(c) && c.Valid() && c.s == Run(GenesisState(hash, block, trust, head), rs)
    ensures LinksMainChain(c.db, c.s) && Heaviest(c.s)
  {
    hide Inv, Stores, Run, Playable, LinksMainChain, Heaviest;
    c := new ChainDb(hash, block, trust, head);
    InitialInv(hash, block, trust, head);
    OfferAll(c, rs);
    StoredMainChain(c.db, c.s);
    HeaviestAfterRun(GenesisState(hash, block, trust, head), rs);
  }

  // The blocks of `p` from height `c` on connect under `rules`.
  ghost predicate AllConnect(s: State, p: seq<Hash>, c: nat, rules: Rules)
    requires forall j :: 0 <= j < |p| ==> p[j] in s.blocks
  {
    forall j :: c <= j < |p| ==> Connectable(s, p[j], rules)
  }

  // Reorganises to `pindexNew` and, if that succeeds, back to the block that was best before.
  // Success there and back restores every `hashNext` link, the height map and the best hash; it is
  // certain if the blocks above the fork connect on both sides.
  method ThereAndBack(c: ChainDb, pindexNew: Index, there: Rules, home: Rules) returns (away: bool, back: bool)
    requires c.Valid() && c.IsEntry(pindexNew) && Inv(c.s)
    modifies c
    ensures c.Valid() && c.s.tree == old(c.s.tree)
    ensures away && back ==>
              c.db.index == old(c.db.index) && c.db.heights == old(c.db.heights) && c.db.best == old(c.db.best)
    ensures AllConnect(old(c.s), NewPath(old(c.s), pindexNew.blockHash), Fork(old(c.s), pindexNew.blockHash), there) ==>
              away
    ensures away && AllConnect(old(c.s), NewPath(old(c.s), old(c.s.tip)), Fork(old(c.s), pindexNew.blockHash), home) ==>
              back
  {
    hide Inv, Stores, Moved, Fork, NewPath, Advance, AllConnect, ForkBlock, Connectable, NextOn;
    ghost var s0, db0, cand := c.s, c.db, pindexNew.blockHash;
    var home0 := c.db.best;
    StoredEntry(c.db, c.s, c.s.tip);
    ReachesAll(s0, cand, there);
    back := false;
    away := c.Reorganize(pindexNew, there);
    if away {
      ConnectsBack(s0, c.s, cand, home);
      back := GoTo(c, home0, home);
      if back {
        SameTables(db0, s0, c.db, c.s);
      }
    }
  }

  method GoTo(c: ChainDb, h: Hash, rules: Rules) returns (ok: bool)
    requires c.Valid() && Inv(c.s) && h in c.s.tree
    modifies c
    ensures c.Valid() && c.s.tree == old(c.s.tree) && c.s.genesis == old(c.s.genesis) && (ok <==> c.s.tip == h)
    ensures AllConnect(old(c.s), NewPath(old(c.s), h), Fork(old(c.s), h), rules) ==> ok
  {
    hide Inv, Stores, Moved, Fork, NewPath, Advance, AllConnect, ForkBlock, Connectable, NextOn;
    StoredEntry(c.db, c.s, h);
    ReachesAll(c.s, h, rules);
    ok := c.Reorganize(c.db.index[h], rules);
  }

  lemma ReachesAll(s: State, cand: Hash, rules: Rules)
    requires Inv(s) && cand in s.tree
    ensures AllConnect(s, NewPath(s, cand), Fork(s, cand), rules) ==>
              Advance(s, NewPath(s, cand), Fork(s, cand) - 1, rules) == |NewPath(s, cand)| - 1
  {
    hide Inv, Fork, NewPath, Connectable;
    if AllConnect(s, NewPath(s, cand), Fork(s, cand), rules) {
      AdvanceIs(s, NewPath(s, cand), Fork(s, cand) - 1, |NewPath(s, cand)| - 1, rules);
    }
  }

  // Seen from the new tip, the way back is the old path above the same fork.
  lemma ConnectsBack(s: State, s': State, cand: Hash, rules: Rules)
    requires Inv(s) && Inv(s') && cand in s.tree
    requires s'.tree == s.tree && s'.genesis == s.genesis && s'.blocks == s.blocks && s'.tip == cand
    ensures AllConnect(s, NewPath(s, s.tip), Fork(s, cand), rules) ==>
              AllConnect(s', NewPath(s', s.tip), Fork(s', s.tip), rules)
  {
    hide Inv, ForkLength, Path, WellFormed;
    InvTree(s);
    ForkLengthSymmetric(s.tree, s.genesis, s.tip, cand);
  }

  lemma SameTables(db: Db, s: State, db': Db, s': State)
    requires Stores(db, s) && Stores(db', s') && s'.tree == s.tree && s'.genesis == s.genesis && s'.tip == s.tip
    ensures db'.index == db.index && db'.heights == db.heights && db'.best == db.best
  {
    hide RenderIndex, RenderHeights, Inv;
  }

  // ---------- offers and queries ----------

  // The depths asked for during a run, each as the index has it at that moment.
  ghost function DirectDepths(s: State, es: seq<Event>): seq<int>
    requires Inv(s) && PlayableEvents(s, es)
    decreases |es|
  {
    if es == [] then []
    else match es[0]
      case Offer(r) => DirectDepths(Step(s, r).0, es[1..])
      case Ask(tx, _) => [Depth(s, tx)] + DirectDepths(s, es[1..])
  }

  // One offer to the database, or one query of the thread.
  method ServeOne(c: ChainDb, t: ThreadCaches, e: Event) returns (answers: seq<int>)
    requires c.Valid() && t.Tied() && Inv(c.s) && Ready(t.Contents(), c.s) && (e.Offer? ==> Offered(c.s, e.request))
    modifies c, t, t.mainChainCache
    ensures c.Valid() && t.Tied() && Inv(c.s) && Ready(t.Contents(), c.s)
    ensures e.Offer? ==> answers == [] && c.s == Step(old(c.s), e.request).0
    ensures e.Ask? ==>
              && c.s == old(c.s) && Inv(old(c.s))
              && answers == [Depth(old(c.s), e.tx)] && IsDepth(old(c.s), e.tx, answers[0])
  {
    hide Inv, Stores, Step, GenesisLinkAfter, Ready, Depth, DepthQueried, SoundHeight, AskedRightly, IsDepth;
    StoredEntry(c.db, c.s, c.s.tip);
    match e
    case Offer(r) =>
      OfferKeepsReady(t.Contents(), c.s, r);
      var _ := c.WriteToDisk(r);
      StoredEntry(c.db, c.s, c.s.tip);
      answers := [];
    case Ask(tx, size) =>
      ReadyIsAskedRightly(c.db, c.s, t.Contents());
      AskKeepsReady(t.Contents(), c.s, tx, 2 * size);
      LinksStored(c.db, c.s);
      var depth := t.GetDepthInMainChain(c.db, tx, c.db.best, size, c.s);
      answers := [depth];
  }

  // A node that starts on its genesis block and a thread that starts with empty caches: every depth
  // the thread answers during the run is the direct one.
  method ServeFromGenesis(hash: Hash, block: Block, trust: nat, head: Header, walletTxs: nat, es: seq<Event>)
      returns (depths: seq<int>)
    requires hash != 0 && block.hashPrev == 0
    requires Inv(GenesisState(hash, block, trust, head)) && PlayableEvents(GenesisState(hash, block, trust, head), es)
    ensures depths == DirectDepths(GenesisState(hash, block, trust, head), es)
  {
    hide Inv, Stores, Step, Ready, Depth;
    var c := new ChainDb(hash, block, trust, head);
    var t := new ThreadCaches(walletTxs);
    InitialInv(hash, block, trust, head);
    StartsReady(c.s, 2 * walletTxs);
    ghost var s0 := c.s;
    depths := [];
    for i := 0 to |es|
      invariant c.Valid() && Inv(c.s) && t.Tied() && Ready(t.Contents(), c.s)
      invariant fresh(c) && fresh(t) && fresh(t.mainChainCache)
      invariant PlayableEvents(c.s, es[i..]) && depths + DirectDepths(c.s, es[i..]) == DirectDepths(s0, es)
    {
      assert es[i..][0] == es[i] && es[i..][1..] == es[i + 1..];
      var answers := ServeOne(c, t, es[i]);
      depths := depths + answers;
    }
  }

  lemma ReadyIsAskedRightly(db: Db, s: State, t: Thread)
    requires Stores(db, s) && Inv(s) && Ready(t, s)
    ensures AskedRightly(db, s, db.best, t.main) && SoundHeight(t.height, s.tree)
  {
    hide Inv, SoundMain;
  }
}
