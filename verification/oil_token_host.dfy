/** The host side of the oil token commitment (`oil_token.rs`): its own copy of
    the leaf encoder, the `OilTokenCommit` envelope and the proving call. */
module OilTokenHost {
  import opened Wrappers
  import opened Hashing
  import opened CoreState
  import opened Leaves
  import Commits
  import OverallHost

  /** `get_oil_token_leaves` of this file: one leaf per row, pushed in row
      order, agreeing with the copy in `overall.rs` on every input. */
  method GetOilTokenLeaves(rows: seq<OilTokenRow>) returns (leaves: seq<string>)
    ensures |leaves| == |rows|
    ensures forall i :: 0 <= i < |rows| ==> leaves[i] == OilTokenRecord(rows[i])
    ensures leaves == OverallHost.GetOilTokenLeaves(rows)
  {
    leaves := [];
    for i := 0 to |rows|
      invariant |leaves| == i
      invariant forall j :: 0 <= j < i ==> leaves[j] == OilTokenRecord(rows[j])
    {
      leaves := leaves + [OilTokenRecord(rows[i])];
    }
  }

  type OilTokenCommit = Commits.Commit<OilTokenState>

  /** `init_oil_token`: proves the `init_oil_token` guest on the leaves; the
      journal holds `OilTokenState::init` of them. A prover failure panics in the
      original, so only the successful run is modelled. */
  function InitOilToken(k: Keccak, leaves: seq<string>, info: Commits.ProveInfo): (r: Result<OilTokenCommit, string>)
    ensures r.Success?
    ensures GetCommit(r.value) == Success(OilTokenInit(k, leaves))
    ensures r.value.stats == info.stats
  {
    Success(Commits.Prove(db => OilTokenInit(k, db), leaves, info))
  }

  /** `OilTokenCommit::get_commit`: decodes the journal without verifying. */
  function GetCommit(c: OilTokenCommit): (r: Result<OilTokenState, string>)
    ensures r.Success? <==> c.receipt.journal.Committed?
    ensures r.Success? ==> r.value == c.receipt.journal.state
  {
    Commits.GetCommit(c)
  }

  /** `OilTokenCommit::verify_and_get_commit`: fails with the verifier's
      message whenever the receipt does not verify against `INIT_OIL_TOKEN_ID`,
      and otherwise is exactly `get_commit`. */
  function VerifyAndGetCommit(c: OilTokenCommit, verify: Commits.Verifier<OilTokenState>): (r: Result<OilTokenState, string>)
    ensures verify(c.receipt, Commits.InitOilTokenId).Fail? ==>
      r == Failure(verify(c.receipt, Commits.InitOilTokenId).error)
    ensures verify(c.receipt, Commits.InitOilTokenId).Pass? ==> r == GetCommit(c)
  {
    Commits.VerifyAndGetCommit(c, verify, Commits.InitOilTokenId)
  }

  /** A commit from `init_oil_token` that the verifier accepts decodes to the
      `init` state of exactly the leaves it was proved on. */
  lemma ProvedCommitVerifies(k: Keccak, verify: Commits.Verifier<OilTokenState>, leaves: seq<string>,
                             info: Commits.ProveInfo)
    requires verify(InitOilToken(k, leaves, info).value.receipt, Commits.InitOilTokenId).Pass?
    ensures VerifyAndGetCommit(InitOilToken(k, leaves, info).value, verify) == Success(OilTokenInit(k, leaves))
  {
  }
}
