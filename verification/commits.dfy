/** The proof envelope shared by the four `*Commit` structs: a receipt from
    the zkVM prover plus its session statistics, with decode and
    verify-then-decode. The prover and the receipt verifier are outside the
    model: the prover's seal and statistics are parameters, and the
    verifier is a function parameter. */
module Commits {
  import opened Wrappers
  import opened Text
  import opened Hashing
  import opened CoreState

  /** The image ids of the guest programs (`INIT_*_ID`), one per guest. */
  datatype ImageId = InitOilTokenId | InitTokenizationId | InitCommentId | InitOverallId

  /** A receipt's journal: the guest's committed value, or bytes that do not
      decode as the expected type. */
  datatype Journal<S> = Committed(state: S) | Undecodable(reason: string)

  /** A receipt: the journal and the seal that attests it. */
  datatype Receipt<S> = Receipt(journal: Journal<S>, seal: seq<Byte>)

  type U32 = x: int | 0 <= x < 0x1_0000_0000

  type U64 = x: int | 0 <= x < 0x1_0000_0000_0000_0000

  /** `SessionStats`. */
  datatype SessionStats = SessionStats(
    segments: U32,
    totalCycles: U64,
    userCycles: U64,
    pagingCycles: U64,
    reservedCycles: U64)

  /** An `OilTokenCommit`, `TokenizationCommit`, `CommentCommit` or
      `OverallCommit`. */
  datatype Commit<S> = Commit(receipt: Receipt<S>, stats: SessionStats)

  /** What the prover hands back besides the journal. */
  datatype ProveInfo = ProveInfo(seal: seq<Byte>, stats: SessionStats)

  /** `receipt.verify(image_id)`: passes, or fails with a message. */
  type Verifier<!S> = (Receipt<S>, ImageId) -> Outcome<string>

  /** `get_commit`: decodes the journal and checks nothing else. */
  function GetCommit<S>(c: Commit<S>): (r: Result<S, string>)
    ensures r.Success? <==> c.receipt.journal.Committed?
    ensures r.Success? ==> r.value == c.receipt.journal.state
    ensures r.Failure? ==> r.error == c.receipt.journal.reason
  {
    match c.receipt.journal
    case Committed(s) => Success(s)
    case Undecodable(e) => Failure(e)
  }

  /** `verify_and_get_commit`: fails with the verifier's message whenever
      the receipt does not verify against `id`, and is otherwise exactly
      `get_commit`. */
  function VerifyAndGetCommit<S>(c: Commit<S>, verify: Verifier<S>, id: ImageId): (r: Result<S, string>)
    ensures verify(c.receipt, id).Fail? ==> r == Failure(verify(c.receipt, id).error)
    ensures verify(c.receipt, id).Pass? ==> r == GetCommit(c)
    ensures r.Success? <==> verify(c.receipt, id).Pass? && c.receipt.journal.Committed?
  {
    match verify(c.receipt, id)
    case Fail(e) => Failure(e)
    case Pass => GetCommit(c)
  }

  /** Proving a guest: the journal holds what the guest commits for the
      given input; the seal and statistics come from the prover. */
  function Prove<I, S>(guest: I -> S, input: I, info: ProveInfo): (c: Commit<S>)
    ensures GetCommit(c) == Success(guest(input))
    ensures c.stats == info.stats
  {
    Commit(Receipt(Committed(guest(input)), info.seal), info.stats)
  }

  /** A verifier that is sound for a domain guest: every receipt it accepts
      under `id` carries the `init` state of some leaf list, which is what
      the guest commits. */
  ghost predicate SoundDomainVerifier<A(!new)>(k: Keccak, verify: Verifier<DomainState<A>>, id: ImageId, init: A)
  {
    forall r: Receipt<DomainState<A>> :: verify(r, id).Pass? ==>
      r.journal.Committed? && exists db: seq<string> :: r.journal.state == DomainInit(k, db, init)
  }

  /** Under a sound verifier, a domain state obtained by verify-then-decode
      is a fresh `init`: two equal generations, leaf count matching the
      digests, the `INIT`/`SYSTEM` tag, and the aggregate equal to the last
      running digest, or to the hash of no bytes when there are none. */
  lemma VerifiedDomainCommitIsFreshInit<A(!new)>(k: Keccak, verify: Verifier<DomainState<A>>, id: ImageId,
                                           init: A, c: Commit<DomainState<A>>)
    requires SoundDomainVerifier(k, verify, id, init)
    requires VerifyAndGetCommit(c, verify, id).Success?
    ensures var s := VerifyAndGetCommit(c, verify, id).value;
      && s.oldState == s.newState
      && WellFormed(s)
      && s.action == init && s.actor == System
      && AggregateIsLastDigest(k, s)
  {
    assert verify(c.receipt, id).Pass?;
    var db :| c.receipt.journal.state == DomainInit(k, db, init);
    InitAggregateIsLastDigest(k, db, init);
  }
}
