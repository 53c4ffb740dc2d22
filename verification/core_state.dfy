/** The per-domain state records of the state-commitment core:
    `TokenizationState`, `CommentState` and `OilTokenState`. The three share
    one shape and one `init`/`update` body and differ only in their action
    enum, so they are one generic record here. */
module CoreState {
  import opened Text
  import opened Hashing

  /** Who issued a state transition. */
  datatype Actor = Admin | System

  datatype TokenizationAction = Init | Create | Update | Delete

  datatype CommentAction = Init | Create | Update | Delete

  datatype OilTokenAction = Init | Create | Update | Buy | Sell

  /** A domain state: the digest lists of the previous and current
      generation, the aggregate digest, the leaf count and the audit tag. */
  datatype DomainState<A> = DomainState(
    oldState: seq<Digest>,
    newState: seq<Digest>,
    overall: Digest,
    leaves: nat,
    action: A,
    actor: Actor)

  type TokenizationState = DomainState<TokenizationAction>

  type CommentState = DomainState<CommentAction>

  type OilTokenState = DomainState<OilTokenAction>

  /** The leaf count matches the current digest list. */
  predicate WellFormed<A>(s: DomainState<A>)
  {
    s.leaves == |s.newState|
  }

  /** The aggregate is the last running digest, or the hash of no bytes
      when there are no digests: how `init` leaves it. */
  predicate AggregateIsLastDigest<A>(k: Keccak, s: DomainState<A>)
  {
    if |s.newState| > 0 then s.overall == s.newState[|s.newState| - 1] else s.overall == k([])
  }

  /** What the `for x in &db` loop of `init` carries: the running hasher,
      the second hasher `hasherb`, and the digests pushed so far. */
  datatype LoopState = LoopState(hasher: Hasher, hasherb: Hasher, digests: seq<Digest>)

  /** What the loop has built after visiting the leaves `db[..m]`: both
      hashers have absorbed exactly those leaves' bytes, and the `j`-th pushed
      digest hashes the bytes of leaves `0..j`. */
  ghost predicate LoopInvariant(k: Keccak, db: seq<string>, m: nat, st: LoopState)
  {
    && m <= |db|
    && st.hasher.absorbed == Utf8(Concat(db[..m]))
    && st.hasherb.absorbed == Utf8(Concat(db[..m]))
    && |st.digests| == m
    && forall j :: 0 <= j < m ==> st.digests[j] == k(Utf8(Concat(db[..j + 1])))
  }

  /** The loop of `init` from leaf `m` on. Each step feeds the leaf's bytes
      to both hashers, finalizes a clone of `hasher` and pushes that digest.
      `hasher` is never reset, so every pushed digest hashes everything
      absorbed up to and including the current leaf. */
  function RunLoop(k: Keccak, db: seq<string>, m: nat, st: LoopState): (r: LoopState)
    requires LoopInvariant(k, db, m, st)
    ensures LoopInvariant(k, db, |db|, r)
    decreases |db| - m
  {
    if m == |db| then
      st
    else
      var hasher := Hashing.Update(st.hasher, Utf8(db[m]));
      var hasherb := Hashing.Update(st.hasherb, Utf8(db[m]));
      var next := LoopState(hasher, hasherb, st.digests + [Finalize(k, hasher)]);
      LoopStep(k, db, m, st, next);
      RunLoop(k, db, m + 1, next)
  }

  /** One iteration of the loop keeps LoopInvariant. */
  lemma LoopStep(k: Keccak, db: seq<string>, m: nat, st: LoopState, next: LoopState)
    requires LoopInvariant(k, db, m, st) && m < |db|
    requires next.hasher == Hashing.Update(st.hasher, Utf8(db[m]))
    requires next.hasherb == Hashing.Update(st.hasherb, Utf8(db[m]))
    requires next.digests == st.digests + [Finalize(k, next.hasher)]
    ensures LoopInvariant(k, db, m + 1, next)
  {
    assert db[..m + 1] == db[..m] + [db[m]];
    ConcatAppend(db[..m], [db[m]]);
    assert Concat([db[m]]) == db[m] + Concat([]) == db[m];
    assert Concat(db[..m + 1]) == Concat(db[..m]) + db[m];
    Utf8Append(Concat(db[..m]), db[m]);
    assert next.hasher.absorbed == Utf8(Concat(db[..m + 1]));
  }

  /** `init(db)`: the running-prefix digests of the leaves, both as the old
      and the new generation, the hash of all leaves as the aggregate, the
      leaf count, and the `INIT`/`SYSTEM` audit tag. */
  function DomainInit<A>(k: Keccak, db: seq<string>, init: A): (s: DomainState<A>)
    ensures WellFormed(s) && s.leaves == |db|
    ensures forall i :: 0 <= i < |db| ==> s.newState[i] == k(Utf8(Concat(db[..i + 1])))
    ensures s.overall == k(Utf8(Concat(db)))
    ensures s.oldState == s.newState
    ensures s.action == init && s.actor == System
  {
    var st := RunLoop(k, db, 0, LoopState(V256, V256, []));
    assert db[..|db|] == db;
    DomainState(st.digests, st.digests, Finalize(k, st.hasherb), |db|, init, System)
  }

  /** `TokenizationState::init`. */
  function TokenizationInit(k: Keccak, db: seq<string>): (s: TokenizationState)
    ensures WellFormed(s) && s.leaves == |db| && s.oldState == s.newState
    ensures s.overall == k(Utf8(Concat(db)))
    ensures s.action.Init? && s.actor.System?
  {
    DomainInit(k, db, TokenizationAction.Init)
  }

  /** `CommentState::init`. */
  function CommentInit(k: Keccak, db: seq<string>): (s: CommentState)
    ensures WellFormed(s) && s.leaves == |db| && s.oldState == s.newState
    ensures s.overall == k(Utf8(Concat(db)))
    ensures s.action.Init? && s.actor.System?
  {
    DomainInit(k, db, CommentAction.Init)
  }

  /** `OilTokenState::init`. */
  function OilTokenInit(k: Keccak, db: seq<string>): (s: OilTokenState)
    ensures WellFormed(s) && s.leaves == |db| && s.oldState == s.newState
    ensures s.overall == k(Utf8(Concat(db)))
    ensures s.action.Init? && s.actor.System?
  {
    DomainInit(k, db, OilTokenAction.Init)
  }

  /** The aggregate of a non-empty leaf list is its last running digest; the
      aggregate of the empty list is the hash of no bytes, with no digests. */
  lemma InitAggregateIsLastDigest<A>(k: Keccak, db: seq<string>, init: A)
    ensures var s := DomainInit(k, db, init);
      && (|db| > 0 ==> s.overall == s.newState[|db| - 1])
      && (db == [] ==> s.newState == [] && s.overall == k([]))
  {
    if |db| > 0 {
      assert db[..(|db| - 1) + 1] == db;
    }
  }

  /** Each running digest extends the preimage of the one before it by the
      bytes of the next leaf: digests chain through the hasher, they are not
      hashes of single leaves. */
  lemma InitDigestsChain<A>(k: Keccak, db: seq<string>, init: A, i: nat)
    requires i + 1 < |db|
    ensures DomainInit(k, db, init).newState[i + 1] == k(Utf8(Concat(db[..i + 1])) + Utf8(db[i + 1]))
  {
    var s := DomainInit(k, db, init);
    var j := i + 1;
    assert s.newState[j] == k(Utf8(Concat(db[..j + 1])));
    assert db[..j + 1] == db[..i + 1] + [db[j]];
    ConcatAppend(db[..i + 1], [db[j]]);
    assert Concat([db[j]]) == db[j] + Concat([]) == db[j];
    Utf8Append(Concat(db[..i + 1]), db[j]);
  }

  /** The first running digest is the hash of the first leaf alone. */
  lemma InitFirstDigest<A>(k: Keccak, db: seq<string>, init: A)
    requires |db| > 0
    ensures DomainInit(k, db, init).newState[0] == k(Utf8(db[0]))
  {
    var s := DomainInit(k, db, init);
    assert s.newState[0] == k(Utf8(Concat(db[..0 + 1])));
    assert db[..1] == [db[0]];
    assert Concat([db[0]]) == db[0] + Concat([]) == db[0];
  }

  /** `update(new_state, overall)`: the current digests move to the old
      slot, the supplied ones become current, the aggregate is replaced;
      the leaf count and audit tag are left alone. */
  function DomainUpdate<A>(s: DomainState<A>, newState: seq<Digest>, overall: Digest): (r: DomainState<A>)
    ensures r.oldState == s.newState && r.newState == newState && r.overall == overall
    ensures r.leaves == s.leaves && r.action == s.action && r.actor == s.actor
  {
    s.(oldState := s.newState, newState := newState, overall := overall)
  }

  /** `update` keeps the leaf count in step with the digests only when the
      supplied list happens to have the old count. */
  lemma UpdateWellFormed<A>(s: DomainState<A>, newState: seq<Digest>, overall: Digest)
    ensures WellFormed(DomainUpdate(s, newState, overall)) <==> |newState| == s.leaves
  {
  }

  /** The history is two generations deep: after two updates nothing of the
      starting digests or aggregate survives. */
  lemma UpdateForgetsTwoBack<A>(s: DomainState<A>, t: DomainState<A>,
                                a: seq<Digest>, x: Digest, b: seq<Digest>, y: Digest)
    requires s.leaves == t.leaves && s.action == t.action && s.actor == t.actor
    ensures DomainUpdate(DomainUpdate(s, a, x), b, y) == DomainUpdate(DomainUpdate(t, a, x), b, y)
    ensures DomainUpdate(DomainUpdate(s, a, x), b, y).oldState == a
  {
  }

  /** Refreshing an initialised state with a fresh `init` of another leaf
      list moves the old digests aside and installs the new ones, but keeps
      the stale leaf count, which is right only if the count is unchanged. */
  lemma UpdateFromFreshInit<A>(k: Keccak, db: seq<string>, db': seq<string>, init: A)
    ensures var s := DomainInit(k, db, init);
      var f := DomainInit(k, db', init);
      var r := DomainUpdate(s, f.newState, f.overall);
      && r.oldState == s.newState
      && r == f.(oldState := s.newState, leaves := |db|)
      && (WellFormed(r) <==> |db| == |db'|)
  {
  }
}
