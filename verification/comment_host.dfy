/** The host side of the comment commitment (`comment.rs`): its own copy of
    the leaf encoder, the `CommentCommit` envelope and the proving call. */
module CommentHost {
  import opened Wrappers
  import opened Hashing
  import opened CoreState
  import opened Leaves
  import Commits
  import OverallHost

  /** `get_comment_leaves` of this file: one leaf per row, pushed in row
      order, agreeing with the copy in `overall.rs` on every input. */
  method GetCommentLeaves(rows: seq<CommentRow>) returns (leaves: seq<string>)
    ensures |leaves| == |rows|
    ensures forall i :: 0 <= i < |rows| ==> leaves[i] == CommentRecord(rows[i])
    ensures leaves == OverallHost.GetCommentLeaves(rows)
  {
    leaves := [];
    for i := 0 to |rows|
      invariant |leaves| == i
      invariant forall j :: 0 <= j < i ==> leaves[j] == CommentRecord(rows[j])
    {
      leaves := leaves + [CommentRecord(rows[i])];
    }
  }

  type CommentCommit = Commits.Commit<CommentState>

  /** `init_comment`: proves the `init_comment` guest on the leaves; the
      journal holds `CommentState::init` of them. A prover failure panics in the
      original, so only the successful run is modelled. */
  function InitComment(k: Keccak, leaves: seq<string>, info: Commits.ProveInfo): (r: Result<CommentCommit, string>)
    ensures r.Success?
    ensures GetCommit(r.value) == Success(CommentInit(k, leaves))
    ensures r.value.stats == info.stats
  {
    Success(Commits.Prove(db => CommentInit(k, db), leaves, info))
  }

  /** `CommentCommit::get_commit`: decodes the journal without verifying. */
  function GetCommit(c: CommentCommit): (r: Result<CommentState, string>)
    ensures r.Success? <==> c.receipt.journal.Committed?
    ensures r.Success? ==> r.value == c.receipt.journal.state
  {
    Commits.GetCommit(c)
  }

  /** `CommentCommit::verify_and_get_commit`: fails with the verifier's
      message whenever the receipt does not verify against `INIT_COMMENT_ID`,
      and otherwise is exactly `get_commit`. */
  function VerifyAndGetCommit(c: CommentCommit, verify: Commits.Verifier<CommentState>): (r: Result<CommentState, string>)
    ensures verify(c.receipt, Commits.InitCommentId).Fail? ==>
      r == Failure(verify(c.receipt, Commits.InitCommentId).error)
    ensures verify(c.receipt, Commits.InitCommentId).Pass? ==> r == GetCommit(c)
  {
    Commits.VerifyAndGetCommit(c, verify, Commits.InitCommentId)
  }

  /** A commit from `init_comment` that the verifier accepts decodes to the
      `init` state of exactly the leaves it was proved on. */
  lemma ProvedCommitVerifies(k: Keccak, verify: Commits.Verifier<CommentState>, leaves: seq<string>,
                             info: Commits.ProveInfo)
    requires verify(InitComment(k, leaves, info).value.receipt, Commits.InitCommentId).Pass?
    ensures VerifyAndGetCommit(InitComment(k, leaves, info).value, verify) == Success(CommentInit(k, leaves))
  {
  }
}
