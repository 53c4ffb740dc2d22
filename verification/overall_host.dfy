/** The host side of the composite commitment (`overall.rs`): the three leaf
    encoders, the `OverallCommit` envelope, the packing of the guest's
    parameters, and the state the read-only handler computes. */
module OverallHost {
  import opened Wrappers
  import opened Text
  import opened Hashing
  import opened CoreState
  import opened Overall
  import opened Leaves
  import Commits

  /** `get_oil_token_leaves`: one oil-token leaf per row, in row order. */
  function GetOilTokenLeaves(rows: seq<OilTokenRow>): (leaves: seq<string>)
    ensures |leaves| == |rows|
    ensures forall i :: 0 <= i < |rows| ==> leaves[i] == OilTokenRecord(rows[i])
  {
    EncodeRows(rows, OilTokenRecord)
  }

  /** `get_tokenization_leaves`: one tokenization leaf per row, in row order. */
  function GetTokenizationLeaves(rows: seq<TokenizationRow>): (leaves: seq<string>)
    ensures |leaves| == |rows|
    ensures forall i :: 0 <= i < |rows| ==> leaves[i] == TokenizationRecord(rows[i])
  {
    EncodeRows(rows, TokenizationRecord)
  }

  /** `get_comment_leaves`: one comment leaf per row, in row order. */
  function GetCommentLeaves(rows: seq<CommentRow>): (leaves: seq<string>)
    ensures |leaves| == |rows|
    ensures forall i :: 0 <= i < |rows| ==> leaves[i] == CommentRecord(rows[i])
  {
    EncodeRows(rows, CommentRecord)
  }

  /** `OverallParams`: the guest's input. */
  datatype OverallParams = OverallParams(
    oilTokenLeaves: seq<string>,
    tokenizationLeaves: seq<string>,
    commentLeaves: seq<string>)

  type OverallCommit = Commits.Commit<OverallState>

  /** `init_overall`: packs the leaves as oil token, tokenization, comment
      and proves the guest on them; the guest reads the three lists and
      commits `OverallState::init` of them in that order, with `now` as its
      clock reading. A prover failure panics in the
      original, so only the successful run is modelled. */
  function InitOverall(k: Keccak, oilTokenLeaves: seq<string>, tokenizationLeaves: seq<string>,
                       commentLeaves: seq<string>, now: string, info: Commits.ProveInfo): (r: Result<OverallCommit, string>)
    ensures r.Success?
    ensures GetCommit(r.value) == Success(Overall.Init(k, oilTokenLeaves, tokenizationLeaves, commentLeaves, now))
    ensures r.value.stats == info.stats
  {
    var params := OverallParams(oilTokenLeaves, tokenizationLeaves, commentLeaves);
    Success(Commits.Prove((p: OverallParams) => Overall.Init(k, p.oilTokenLeaves, p.tokenizationLeaves, p.commentLeaves, now),
                          params, info))
  }

  /** `OverallCommit::get_commit`: decodes the journal without verifying. */
  function GetCommit(c: OverallCommit): (r: Result<OverallState, string>)
    ensures r.Success? <==> c.receipt.journal.Committed?
    ensures r.Success? ==> r.value == c.receipt.journal.state
  {
    Commits.GetCommit(c)
  }

  /** `OverallCommit::verify_and_get_commit`: fails with the verifier's
      message whenever the receipt does not verify against
      `INIT_OVERALL_ID`, and otherwise is exactly `get_commit`. */
  function VerifyAndGetCommit(c: OverallCommit, verify: Commits.Verifier<OverallState>): (r: Result<OverallState, string>)
    ensures verify(c.receipt, Commits.InitOverallId).Fail? ==>
      r == Failure(verify(c.receipt, Commits.InitOverallId).error)
    ensures verify(c.receipt, Commits.InitOverallId).Pass? ==> r == GetCommit(c)
  {
    Commits.VerifyAndGetCommit(c, verify, Commits.InitOverallId)
  }

  /** A commit from `init_overall` that the verifier accepts decodes to the
      `init` state of exactly the leaves that were packed. */
  lemma ProvedCommitVerifies(k: Keccak, verify: Commits.Verifier<OverallState>, o: seq<string>,
                             t: seq<string>, c: seq<string>, now: string, info: Commits.ProveInfo)
    requires verify(InitOverall(k, o, t, c, now, info).value.receipt, Commits.InitOverallId).Pass?
    ensures VerifyAndGetCommit(InitOverall(k, o, t, c, now, info).value, verify) == Success(Overall.Init(k, o, t, c, now))
  {
  }

  /** A verifier that is sound for the composite guest: every receipt it
      accepts under `INIT_OVERALL_ID` carries what the guest commits for
      some input and clock reading. */
  ghost predicate SoundVerifier(k: Keccak, verify: Commits.Verifier<OverallState>)
  {
    forall r: Commits.Receipt<OverallState> :: verify(r, Commits.InitOverallId).Pass? ==>
      r.journal.Committed? &&
      exists p: OverallParams, now: string ::
        r.journal.state == Overall.Init(k, p.oilTokenLeaves, p.tokenizationLeaves, p.commentLeaves, now)
  }

  /** Under a sound verifier, a verified overall state is a fresh root: its
      root is the fixed-order hash of its components' aggregates, both roots
      agree, and every component is a fresh `init`: well formed, with equal
      generations, the `INIT`/`SYSTEM` tag, and its aggregate equal to its
      last running digest (or to the hash of no bytes when it has none). */
  lemma VerifiedCommitIsFreshRoot(k: Keccak, verify: Commits.Verifier<OverallState>, c: OverallCommit)
    requires SoundVerifier(k, verify)
    requires VerifyAndGetCommit(c, verify).Success?
    ensures var s := VerifyAndGetCommit(c, verify).value;
      && RootConsistent(k, s)
      && s.oldState == s.newState
      && WellFormed(s.oilTokenState) && WellFormed(s.tokenizationState) && WellFormed(s.commentState)
      && s.oilTokenState.oldState == s.oilTokenState.newState
      && s.tokenizationState.oldState == s.tokenizationState.newState
      && s.commentState.oldState == s.commentState.newState
      && s.oilTokenState.action.Init? && s.oilTokenState.actor.System?
      && s.tokenizationState.action.Init? && s.tokenizationState.actor.System?
      && s.commentState.action.Init? && s.commentState.actor.System?
      && AggregateIsLastDigest(k, s.oilTokenState)
      && AggregateIsLastDigest(k, s.tokenizationState)
      && AggregateIsLastDigest(k, s.commentState)
  {
    assert verify(c.receipt, Commits.InitOverallId).Pass?;
    var p: OverallParams, now: string :| c.receipt.journal.state ==
      Overall.Init(k, p.oilTokenLeaves, p.tokenizationLeaves, p.commentLeaves, now);
    InitAggregateIsLastDigest(k, p.oilTokenLeaves, OilTokenAction.Init);
    InitAggregateIsLastDigest(k, p.tokenizationLeaves, TokenizationAction.Init);
    InitAggregateIsLastDigest(k, p.commentLeaves, CommentAction.Init);
  }

  /** What `get_overall_state_handler` computes from the rows the
      ascending-id queries return: a root-consistent state with one
      running digest per row in each domain. */
  function GetOverallState(k: Keccak, oilTokens: seq<OilTokenRow>, tokenizations: seq<TokenizationRow>,
                           comments: seq<CommentRow>, now: string): (s: OverallState)
    ensures RootConsistent(k, s) && s.oldState == s.newState
    ensures s.oilTokenState.leaves == |oilTokens| == |s.oilTokenState.newState|
    ensures s.tokenizationState.leaves == |tokenizations| == |s.tokenizationState.newState|
    ensures s.commentState.leaves == |comments| == |s.commentState.newState|
    ensures s.updatedAt == now
  {
    Overall.Init(k, GetOilTokenLeaves(oilTokens), GetTokenizationLeaves(tokenizations),
                 GetCommentLeaves(comments), now)
  }

  /** The read-only handler and the proving handler agree on everything but
      the clock: proving the leaves of the same rows commits the state the
      read-only handler returns, with the guest's own clock reading as
      `updated_at`. The two states are equal exactly when both clocks read
      the same time. */
  lemma HandlersAgree(k: Keccak, oilTokens: seq<OilTokenRow>, tokenizations: seq<TokenizationRow>,
                      comments: seq<CommentRow>, hostNow: string, guestNow: string, info: Commits.ProveInfo)
    ensures var committed := GetCommit(InitOverall(k, GetOilTokenLeaves(oilTokens), GetTokenizationLeaves(tokenizations),
                                                   GetCommentLeaves(comments), guestNow, info).value);
      var served := GetOverallState(k, oilTokens, tokenizations, comments, hostNow);
      && committed == Success(served.(updatedAt := guestNow))
      && (committed == Success(served) <==> guestNow == hostNow)
  {
  }
}
