/** `OverallState`: the three domain states composed into one root digest,
    chained against the previous root. */
module Overall {
  import opened Wrappers
  import opened Text
  import opened Hashing
  import opened CoreState

  /** The composed state. `updatedAt` is the RFC 3339 text of the local
      clock at construction; the clock reading is a parameter here. */
  datatype OverallState = OverallState(
    oilTokenState: OilTokenState,
    tokenizationState: TokenizationState,
    commentState: CommentState,
    oldState: Digest,
    newState: Digest,
    updatedAt: string)

  /** The root over three domain states: one hasher absorbs the oil-token,
      tokenization and comment aggregates in that order. */
  function Root(k: Keccak, oil: OilTokenState, tok: TokenizationState, com: CommentState): (r: Digest)
    ensures r == k(oil.overall + tok.overall + com.overall)
  {
    assert [] + oil.overall + tok.overall + com.overall == oil.overall + tok.overall + com.overall;
    Finalize(k, Hashing.Update(Hashing.Update(Hashing.Update(V256, oil.overall), tok.overall), com.overall))
  }

  /** The current root is the root of the current components. */
  predicate RootConsistent(k: Keccak, s: OverallState)
  {
    s.newState == Root(k, s.oilTokenState, s.tokenizationState, s.commentState)
  }

  /** `OverallState::new`: the three domains initialised from no leaves and
      both roots set to the all-zero digest (not to the root of the empty
      components). */
  function New(k: Keccak, now: string): (s: OverallState)
    ensures s.oldState == ZeroDigest && s.newState == ZeroDigest
    ensures s.oilTokenState.newState == [] && s.oilTokenState.overall == k([])
    ensures s.tokenizationState.newState == [] && s.tokenizationState.overall == k([])
    ensures s.commentState.newState == [] && s.commentState.overall == k([])
    ensures s.oilTokenState.leaves == 0 && s.tokenizationState.leaves == 0 && s.commentState.leaves == 0
    ensures s.oilTokenState.oldState == [] && s.tokenizationState.oldState == [] && s.commentState.oldState == []
    ensures s.oilTokenState.action.Init? && s.oilTokenState.actor.System?
    ensures s.tokenizationState.action.Init? && s.tokenizationState.actor.System?
    ensures s.commentState.action.Init? && s.commentState.actor.System?
    ensures s.updatedAt == now
  {
    OverallState(OilTokenInit(k, []), TokenizationInit(k, []), CommentInit(k, []),
                 ZeroDigest, ZeroDigest, now)
  }

  /** `OverallState::init`: each domain is initialised from its own leaves,
      and both roots are the fixed-order hash of the three aggregates, each
      of which is the hash of its domain's concatenated leaves. */
  function Init(k: Keccak, oilTokenLeaves: seq<string>, tokenizationLeaves: seq<string>,
                commentLeaves: seq<string>, now: string): (s: OverallState)
    ensures s.oilTokenState == OilTokenInit(k, oilTokenLeaves)
    ensures s.tokenizationState == TokenizationInit(k, tokenizationLeaves)
    ensures s.commentState == CommentInit(k, commentLeaves)
    ensures s.oldState == s.newState
    ensures s.newState == k(k(Utf8(Concat(oilTokenLeaves)))
                          + k(Utf8(Concat(tokenizationLeaves)))
                          + k(Utf8(Concat(commentLeaves))))
    ensures RootConsistent(k, s)
    ensures s.updatedAt == now
  {
    var oil := OilTokenInit(k, oilTokenLeaves);
    var tok := TokenizationInit(k, tokenizationLeaves);
    var com := CommentInit(k, commentLeaves);
    var root := Root(k, oil, tok, com);
    OverallState(oil, tok, com, root, root, now)
  }

  /** `sync`: always succeeds; the previous current root becomes the old
      root, the supplied components are installed, and the new root is
      their fixed-order hash. */
  function Sync(k: Keccak, s: OverallState, oil: OilTokenState, tok: TokenizationState,
                com: CommentState, now: string): (r: Result<OverallState, string>)
    ensures r.Success?
    ensures r.value.oldState == s.newState
    ensures r.value.newState == k(oil.overall + tok.overall + com.overall)
    ensures r.value.oilTokenState == oil && r.value.tokenizationState == tok && r.value.commentState == com
    ensures r.value.updatedAt == now
    ensures RootConsistent(k, r.value)
  {
    Success(OverallState(oil, tok, com, s.newState, Root(k, oil, tok, com), now))
  }

  /** Of the state being synced only its current root matters. */
  lemma SyncReadsOnlyNewState(k: Keccak, s: OverallState, t: OverallState, oil: OilTokenState,
                              tok: TokenizationState, com: CommentState, now: string)
    requires s.newState == t.newState
    ensures Sync(k, s, oil, tok, com, now) == Sync(k, t, oil, tok, com, now)
  {
  }

  /** Re-syncing a root-consistent state with its own components leaves
      the root where it was: the new root equals the old one. In particular
      this holds of every `init` result. */
  lemma SyncOwnComponentsIsFixpoint(k: Keccak, s: OverallState, now: string)
    requires RootConsistent(k, s)
    ensures var r := Sync(k, s, s.oilTokenState, s.tokenizationState, s.commentState, now).value;
      r.newState == r.oldState == s.newState
  {
  }

  lemma InitThenSyncOwnComponents(k: Keccak, o: seq<string>, t: seq<string>, c: seq<string>,
                                  now: string, later: string)
    ensures var s := Init(k, o, t, c, now);
      var r := Sync(k, s, s.oilTokenState, s.tokenizationState, s.commentState, later).value;
      r.newState == r.oldState == s.oldState
  {
    SyncOwnComponentsIsFixpoint(k, Init(k, o, t, c, now), later);
  }

  /** The placeholder from `new` is root-consistent only in the unlikely
      case that the root of the empty components is the zero digest. */
  lemma NewRootConsistentIff(k: Keccak, now: string)
    ensures RootConsistent(k, New(k, now)) <==> k(k([]) + k([]) + k([])) == ZeroDigest
  {
  }

  /** `init` is `new` followed by a `sync` with fresh components, except
      for the old root and the clock: `init` has no predecessor and repeats
      the new root, while the synced state links back to the zero
      placeholder; and each of `new`, `sync` and `init` reads the clock
      itself, so the two agree on `updated_at` only when the sync and the
      init read the same time. */
  lemma InitIsSyncFromNew(k: Keccak, o: seq<string>, t: seq<string>, c: seq<string>,
                          newNow: string, syncNow: string, initNow: string)
    ensures var i := Init(k, o, t, c, initNow);
      var r := Sync(k, New(k, newNow), OilTokenInit(k, o), TokenizationInit(k, t), CommentInit(k, c), syncNow).value;
      && r == i.(oldState := ZeroDigest, updatedAt := syncNow)
      && (r == i.(oldState := ZeroDigest) <==> syncNow == initNow)
  {
  }
}
