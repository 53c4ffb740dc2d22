/** The host side of the tokenization commitment (`tokenization.rs`): its own copy of
    the leaf encoder, the `TokenizationCommit` envelope and the proving call. */
module TokenizationHost {
  import opened Wrappers
  import opened Hashing
  import opened CoreState
  import opened Leaves
  import Commits
  import OverallHost

  /** `get_tokenization_leaves` of this file: one leaf per row, pushed in row
      order, agreeing with the copy in `overall.rs` on every input. */
  method GetTokenizationLeaves(rows: seq<TokenizationRow>) returns (leaves: seq<string>)
    ensures |leaves| == |rows|
    ensures forall i :: 0 <= i < |rows| ==> leaves[i] == TokenizationRecord(rows[i])
    ensures leaves == OverallHost.GetTokenizationLeaves(rows)
  {
    leaves := [];
    for i := 0 to |rows|
      invariant |leaves| == i
      invariant forall j :: 0 <= j < i ==> leaves[j] == TokenizationRecord(rows[j])
    {
      leaves := leaves + [TokenizationRecord(rows[i])];
    }
  }

  type TokenizationCommit = Commits.Commit<TokenizationState>

  /** `init_tokenization`: proves the `init_tokenization` guest on the leaves; the
      journal holds `TokenizationState::init` of them. A prover failure panics in the
      original, so only the successful run is modelled. */
  function InitTokenization(k: Keccak, leaves: seq<string>, info: Commits.ProveInfo): (r: Result<TokenizationCommit, string>)
    ensures r.Success?
    ensures GetCommit(r.value) == Success(TokenizationInit(k, leaves))
    ensures r.value.stats == info.stats
  {
    Success(Commits.Prove(db => TokenizationInit(k, db), leaves, info))
  }

  /** `TokenizationCommit::get_commit`: decodes the journal without verifying. */
  function GetCommit(c: TokenizationCommit): (r: Result<TokenizationState, string>)
    ensures r.Success? <==> c.receipt.journal.Committed?
    ensures r.Success? ==> r.value == c.receipt.journal.state
  {
    Commits.GetCommit(c)
  }

  /** `TokenizationCommit::verify_and_get_commit`: fails with the verifier's
      message whenever the receipt does not verify against `INIT_TOKENIZATION_ID`,
      and otherwise is exactly `get_commit`. */
  function VerifyAndGetCommit(c: TokenizationCommit, verify: Commits.Verifier<TokenizationState>): (r: Result<TokenizationState, string>)
    ensures verify(c.receipt, Commits.InitTokenizationId).Fail? ==>
      r == Failure(verify(c.receipt, Commits.InitTokenizationId).error)
    ensures verify(c.receipt, Commits.InitTokenizationId).Pass? ==> r == GetCommit(c)
  {
    Commits.VerifyAndGetCommit(c, verify, Commits.InitTokenizationId)
  }

  /** A commit from `init_tokenization` that the verifier accepts decodes to the
      `init` state of exactly the leaves it was proved on. */
  lemma ProvedCommitVerifies(k: Keccak, verify: Commits.Verifier<TokenizationState>, leaves: seq<string>,
                             info: Commits.ProveInfo)
    requires verify(InitTokenization(k, leaves, info).value.receipt, Commits.InitTokenizationId).Pass?
    ensures VerifyAndGetCommit(InitTokenization(k, leaves, info).value, verify) == Success(TokenizationInit(k, leaves))
  {
  }
}
