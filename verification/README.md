# State-commitment core of the oil-tokenization service, in Dafny

This project models the part of the service that turns three database tables
(oil tokens, tokenizations, comments) into verifiable commitments:

- **Leaf encoders** turn each row into one `:`-joined string.
- **The domain state builder** (`TokenizationState`, `CommentState`,
  `OilTokenState`: `init` and `update`) hashes a table's leaves into a list
  of running digests and one aggregate digest.
- **The root composer** (`OverallState`: `new`, `init`, `sync`) hashes the
  three aggregates, in a fixed order, into one root. Each root is chained to
  the root before it.
- **Commit envelopes** (`OilTokenCommit`, `TokenizationCommit`,
  `CommentCommit`, `OverallCommit`) pair a zkVM receipt with its session
  statistics. They offer decode (`get_commit`) and verify-then-decode
  (`verify_and_get_commit`).
- **The token status enumeration** covers its database rendering (`as_str`)
  and the seeder's reading of status text.

Keccak-256 is a parameter `k: seq<bv8> -> Digest` of every operation that
hashes. Nothing is assumed about it: every property here holds for any hash
function. The `tiny_keccak` hasher is modelled by the bytes it has absorbed.
`update` appends bytes, `finalize` applies `k`, and `clone` copies the value.
`str::as_bytes` is modelled by an explicit UTF-8 encoder.

The receipt verifier is also a parameter:
`verify: (Receipt, ImageId) -> Outcome<string>`. The prover is modelled by
what it guarantees: a proved receipt's journal holds the guest's output for
its input. The seal and statistics are opaque parameters.

The modules follow the source layout:

| file | module | models |
|---|---|---|
| `core_state.dfy` | `CoreState` | the domain states of `zk/methods/core/src/lib.rs` |
| `overall_state.dfy` | `Overall` | `OverallState` of the same file |
| `leaves.dfy` | `Leaves` | the rows and the leaf formats |
| `commits.dfy` | `Commits` | the envelope shared by the four `*Commit` types |
| `overall_host.dfy`, `oil_token_host.dfy`, `tokenization_host.dfy`, `comment_host.dfy` | `*Host` | the four host files |
| `token_status.dfy` | `TokenStatuses` | the migration's enum and the seeder's status match |
| `hashing.dfy`, `text.dfy`, `wrappers.dfy` | `Hashing`, `Text`, `Wrappers` | digests and the hasher; UTF-8, join/split and decimal rendering; result types |

## Behaviour worth knowing

- **Running digests are prefix hashes.** The `init` loop never resets
  `hasher` and finalizes a clone of it after each leaf. So `new_state[i]` is
  the hash of the bytes of leaves `0..i` together, not of leaf `i` alone
  (`CoreState.DomainInit`, `CoreState.InitDigestsChain`). The aggregate
  `overall` is the hash of all leaves, which equals the last running digest
  when there are leaves.
- **`sync` never fails.** `OverallState::sync` always returns `Ok`. There is
  no digest-count check and no inconsistency error.
- **`update` keeps no previous aggregate, and the leaf count can go stale.**
  `update` shifts only the digest list and replaces `overall`. It leaves
  `leaves` unchanged, so `leaves == |new_state|` survives an update only when
  the new list has the old length (`CoreState.UpdateWellFormed`).
- **`new` does not use a real root.** It sets both roots to the all-zero
  digest, not to the root of its empty components (`Overall.NewRootConsistentIff`).
- **Every constructor reads the clock itself.** `new`, `init` and `sync` each
  read the local clock, and the `init_overall` guest reads its own. So a
  proved state and one computed by the host from the same rows differ in
  `updated_at` unless both readings agree (`OverallHost.HandlersAgree`).
- **The oil-token format string has one placeholder too many.** In both
  copies (`overall.rs:18`, `oil_token.rs:19`) it has eighteen `{}`
  placeholders for seventeen arguments. The model follows the seventeen
  arguments, in their listed order.

## Model

| member | source | states |
|---|---|---|
| CoreState.RunLoop | zk/methods/core/src/lib.rs:96-103 | after the loop has visited leaves `0..m`, both hashers have absorbed exactly those leaves' bytes, and digest `j` is the hash of leaves `0..j` |
| CoreState.DomainInit | zk/methods/core/src/lib.rs:94-116 | `init` yields one running digest per leaf; digest `i` is Keccak of the UTF-8 bytes of leaves `0..i` concatenated. The aggregate is Keccak of all leaves. Leaf count is the input length, both generations are equal, and the tag is `INIT`/`SYSTEM` |
| CoreState.TokenizationInit | zk/methods/core/src/lib.rs:92-116 | `TokenizationState::init` is well formed, counts its leaves, has equal generations, aggregates all leaves, and is tagged `TokenizationAction::INIT` by `SYSTEM` |
| CoreState.CommentInit | zk/methods/core/src/lib.rs:156-180 | the same for `CommentState::init` with `CommentAction::INIT` |
| CoreState.OilTokenInit | zk/methods/core/src/lib.rs:296-320 | the same for `OilTokenState::init` with `OilTokenAction::INIT` |
| CoreState.InitAggregateIsLastDigest | zk/methods/core/src/lib.rs:94-106 | for a non-empty leaf list the aggregate equals the last running digest; for an empty list there are no digests and the aggregate is Keccak of no bytes |
| CoreState.InitFirstDigest | zk/methods/core/src/lib.rs:97-101 | the first running digest is the hash of the first leaf alone |
| CoreState.InitDigestsChain | zk/methods/core/src/lib.rs:97-101 | digest `i+1` hashes the preimage of digest `i` extended by leaf `i+1`, because the hasher is never reset |
| CoreState.DomainUpdate | zk/methods/core/src/lib.rs:118-122 | `update` moves the current digests to the old slot and installs the supplied digests and aggregate. The leaf count, action and actor stay as they were |
| CoreState.UpdateWellFormed | zk/methods/core/src/lib.rs:118-122 | after `update`, the leaf count matches the digests if and only if the supplied list has the old count |
| CoreState.UpdateForgetsTwoBack | zk/methods/core/src/lib.rs:118-122 | history is two generations deep: after two updates the result no longer depends on the starting digests or aggregate, and the old slot holds the first update's digests |
| CoreState.UpdateFromFreshInit | zk/methods/core/src/lib.rs:108-122 | refreshing an `init` state from a fresh `init` of other leaves gives the fresh state with the previous digests as old generation and the stale leaf count. It is well formed if and only if the counts match |
| Hashing.StreamingIsOneShot | zk/methods/core/src/lib.rs:232-237 | three `update`s on a fresh hasher then `finalize` is Keccak of the three byte strings concatenated |
| Overall.Root | zk/methods/core/src/lib.rs:232-238 | the root is Keccak of oil-token aggregate ‖ tokenization aggregate ‖ comment aggregate, in that order |
| Overall.New | zk/methods/core/src/lib.rs:212-221 | `new` holds three `init` states of no leaves (no digests in either generation, aggregate Keccak of no bytes, zero leaves, the `INIT`/`SYSTEM` tag) and the all-zero digest as both roots |
| Overall.NewRootConsistentIff | zk/methods/core/src/lib.rs:212-221 | the state from `new` satisfies the root invariant if and only if the root of three empty aggregates happens to be the zero digest |
| Overall.Init | zk/methods/core/src/lib.rs:223-248 | `init` initialises each domain from its own leaves. Both roots equal `Keccak(Keccak(oil leaves) ‖ Keccak(tokenization leaves) ‖ Keccak(comment leaves))`, so the state is root-consistent |
| Overall.Sync | zk/methods/core/src/lib.rs:250-272 | `sync` always succeeds. The old root is the previous new root, the new root is the fixed-order hash of the supplied aggregates, the supplied components are installed, and the result is root-consistent |
| Overall.SyncReadsOnlyNewState | zk/methods/core/src/lib.rs:250-272 | of the state being synced, only its current root affects the result |
| Overall.SyncOwnComponentsIsFixpoint | zk/methods/core/src/lib.rs:256-269 | syncing a root-consistent state with its own components yields a new root equal to its old root |
| Overall.InitThenSyncOwnComponents | zk/methods/core/src/lib.rs:223-272 | syncing an `init` result with its own components leaves the root unchanged |
| Overall.InitIsSyncFromNew | zk/methods/core/src/lib.rs:212-272 | whatever the three clock readings, `new` followed by `sync` with fresh components equals `init` except for the old root (the zero placeholder rather than `init`'s own root) and `updated_at` (the sync's reading). The two are equal up to the old root if and only if the sync and the init read the same time |
| Leaves.StatusText | zk/host/src/overall.rs:32-35 | a present status renders as its text, an absent one as the empty string |
| Leaves.OilTokenRecord | zk/host/src/overall.rs:17-39 | an oil-token leaf splits into the pieces of its 17 rendered fields in order, with timestamps in whole seconds and an absent status as the empty string. That is at least 17 pieces, exactly 17 if and only if no free-text field (such as JSON object text) holds `:`, and then the pieces are the fields themselves |
| Leaves.TokenizationRecord | zk/host/src/overall.rs:48-56 | a tokenization leaf splits into the pieces of `id`, `oil_token_id`, `tokenizer_id`, `amount`, created seconds and updated seconds, in order. That is exactly six pieces if and only if neither tokenizer id nor amount holds `:`, and then the pieces are those fields |
| Leaves.CommentRecord | zk/host/src/overall.rs:65-73 | a comment leaf splits into the pieces of `id`, `oil_token_id`, `user`, `content`, created seconds and updated seconds, in order, so a `:` in the user or content adds pieces. That is exactly six pieces if and only if neither user nor content holds `:`, and then the pieces are those fields |
| Leaves.TokenizationLeafInjective | zk/host/src/overall.rs:48-56 | for separator-free text, two tokenization rows have equal leaves if and only if all their fields agree up to sub-second time |
| Leaves.CommentLeafInjective | zk/host/src/overall.rs:65-73 | for separator-free user and content, two comment rows have equal leaves if and only if all their fields agree up to sub-second time |
| Leaves.OilTokenLeafInjective | zk/host/src/overall.rs:17-39 | for separator-free text, two oil-token leaves are equal if and only if their rendered fields are, which fixes ids and whole-second timestamps |
| Leaves.CommentSeparatorShift | zk/host/src/overall.rs:65-73 | no escaping: moving a `:`-delimited tail of the user to the front of the content leaves the comment leaf unchanged |
| Leaves.CommentLeafCollision | zk/host/src/comment.rs:18-25 | whatever the timestamps, user `a:b` with content `c` and user `a` with content `b:c` are different rows with the same leaf |
| Leaves.SubsecondsDoNotReachLeaves | zk/host/src/overall.rs:54-55 | rows that differ only in the sub-second part of their timestamps have the same leaf |
| Leaves.EncodeRows | zk/host/src/overall.rs:46-59 | the encoder loop yields exactly one leaf per row, leaf `i` being the encoding of row `i` |
| OverallHost.GetOilTokenLeaves | zk/host/src/overall.rs:14-43 | one oil-token leaf per row, in row order |
| OverallHost.GetTokenizationLeaves | zk/host/src/overall.rs:45-60 | one tokenization leaf per row, in row order |
| OverallHost.GetCommentLeaves | zk/host/src/overall.rs:62-77 | one comment leaf per row, in row order |
| OverallHost.InitOverall | zk/host/src/overall.rs:97-121 | `init_overall` always returns `Ok` and keeps the prover's statistics. Its journal decodes to `OverallState::init` of the oil-token, tokenization and comment leaves, in that order |
| OverallHost.GetCommit | zk/host/src/overall.rs:86-89 | `get_commit` succeeds exactly when the journal decodes and returns its state; no verification is involved |
| OverallHost.VerifyAndGetCommit | zk/host/src/overall.rs:91-94 | fails with the verifier's message whenever verification against `INIT_OVERALL_ID` fails, and otherwise equals `get_commit` |
| OverallHost.ProvedCommitVerifies | zk/methods/oil_token/src/bin/init_overall.rs:4-17 | an `init_overall` commit that the verifier accepts decodes to `OverallState::init` of exactly the packed leaves |
| OverallHost.VerifiedCommitIsFreshRoot | zk/methods/oil_token/src/bin/init_overall.rs:4-17 | under a sound verifier, any verified overall state is root-consistent and its two roots are equal. Each component is a fresh `init`: well formed, with equal generations, the `INIT`/`SYSTEM` tag, and its aggregate equal to its last running digest (or Keccak of no bytes when it has none) |
| OverallHost.GetOverallState | zk/host/src/overall.rs:144-164 | the read-only handler's state is root-consistent, its two roots are equal, and each domain has one digest per row |
| OverallHost.HandlersAgree | zk/host/src/overall.rs:97-164 | proving the leaves of the same rows commits the state the read-only handler returns, except that `updated_at` is the guest's clock reading. The two states are equal if and only if the guest's and the handler's clocks read the same time |
| OilTokenHost.GetOilTokenLeaves | zk/host/src/oil_token.rs:15-44 | one leaf per row in row order, equal on every input to the copy in `overall.rs` |
| OilTokenHost.InitOilToken | zk/host/src/oil_token.rs:64-79 | `init_oil_token` returns `Ok` with the prover's statistics, and its journal decodes to `OilTokenState::init` of the leaves |
| OilTokenHost.GetCommit | zk/host/src/oil_token.rs:53-56 | decodes the journal without verifying |
| OilTokenHost.VerifyAndGetCommit | zk/host/src/oil_token.rs:58-61 | fails with the verifier's message whenever verification against `INIT_OIL_TOKEN_ID` fails, and otherwise equals `get_commit` |
| OilTokenHost.ProvedCommitVerifies | zk/methods/oil_token/src/bin/init_oil_token.rs:4-13 | an accepted `init_oil_token` commit decodes to `init` of exactly its leaves |
| TokenizationHost.GetTokenizationLeaves | zk/host/src/tokenization.rs:15-30 | one leaf per row in row order, equal on every input to the copy in `overall.rs` |
| TokenizationHost.InitTokenization | zk/host/src/tokenization.rs:50-65 | `init_tokenization` returns `Ok` with the prover's statistics, and its journal decodes to `TokenizationState::init` of the leaves |
| TokenizationHost.GetCommit | zk/host/src/tokenization.rs:39-42 | decodes the journal without verifying |
| TokenizationHost.VerifyAndGetCommit | zk/host/src/tokenization.rs:44-47 | fails with the verifier's message whenever verification against `INIT_TOKENIZATION_ID` fails, and otherwise equals `get_commit` |
| TokenizationHost.ProvedCommitVerifies | zk/methods/oil_token/src/bin/init_tokenization.rs:4-13 | an accepted `init_tokenization` commit decodes to `init` of exactly its leaves |
| CommentHost.GetCommentLeaves | zk/host/src/comment.rs:15-30 | one leaf per row in row order, equal on every input to the copy in `overall.rs` |
| CommentHost.InitComment | zk/host/src/comment.rs:50-65 | `init_comment` returns `Ok` with the prover's statistics, and its journal decodes to `CommentState::init` of the leaves |
| CommentHost.GetCommit | zk/host/src/comment.rs:39-42 | decodes the journal without verifying |
| CommentHost.VerifyAndGetCommit | zk/host/src/comment.rs:44-47 | fails with the verifier's message whenever verification against `INIT_COMMENT_ID` fails, and otherwise equals `get_commit` |
| CommentHost.ProvedCommitVerifies | zk/methods/oil_token/src/bin/init_comment.rs:4-13 | an accepted `init_comment` commit decodes to `init` of exactly its leaves |
| Commits.GetCommit | zk/host/src/tokenization.rs:39-42 | shared decode: it succeeds if and only if the journal holds a committed state, and returns that state or the decode error |
| Commits.VerifyAndGetCommit | zk/host/src/comment.rs:44-47 | shared verify-then-decode: the verifier's failure message when the receipt does not verify against the given id, otherwise `get_commit`. It succeeds if and only if verification passes and the journal decodes |
| Commits.Prove | zk/methods/oil_token/src/bin/init_tokenization.rs:4-13 | a proved commit's journal decodes to the guest's output on the input, and its statistics are the prover's |
| Commits.VerifiedDomainCommitIsFreshInit | zk/methods/oil_token/src/bin/init_comment.rs:4-13 | under a sound verifier, a verified domain state is a fresh `init`: equal generations, leaf count equal to the digest count, the `INIT`/`SYSTEM` tag, and the aggregate equal to the last running digest, or Keccak of no bytes when there are none |
| TokenStatuses.AsStr | zk/db/migration/src/m20220101_000001_create_table.rs:70-78 | every variant renders as a non-empty lowercase word that is one of the status column's allowed values |
| TokenStatuses.AsStrInjective | zk/db/migration/src/m20220101_000001_create_table.rs:72-76 | two variants render alike if and only if they are the same variant |
| TokenStatuses.EnumTypeValues | zk/db/migration/src/m20220101_000001_create_table.rs:85-90 | the `token_status` type's values (`as_str` over the variants in declaration order) are the column's allowed values, in the same order |
| TokenStatuses.ColumnValuesAreAsStrImage | zk/db/migration/src/m20220101_000001_create_table.rs:111-117 | a string is an allowed column value if and only if it is the rendering of some variant |
| TokenStatuses.StatusFromSeed | zk/db/src/seeder.rs:92-101 | the seeder always yields a status. A variant's lowercase name reads back as that variant, and any other string reads as `Active` |
| TokenStatuses.SeedRoundTrip | zk/db/src/seeder.rs:93-98 | reading back the rendering of any variant gives that variant |
| TokenStatuses.SeedNotInjective | zk/db/src/seeder.rs:94-99 | `active` and the capitalised `Sold` both read as `Active`, so the reading is not injective |

## Left out

- Leaves.OilTokenRecord: models the seventeen arguments of a format string
  that has eighteen `{}` placeholders (`overall.rs:18`, `oil_token.rs:19`).
  Rust rejects that mismatch at compile time, so the code as written does
  not build. The leaf here is the evident reading: one placeholder per
  argument.

- **Keccak-256 internals.** The hash is an arbitrary function parameter. No
  collision-resistance claim is made, so "reordering changes the aggregate"
  and "the root is order-sensitive" are not stated.
- **The zkVM prover and receipt verification internals.** These are
  `default_prover().prove`, `receipt.verify` and journal serialisation. The
  verifier is a parameter. The soundness of the real verifier is a
  hypothesis, `SoundDomainVerifier` or `OverallHost.SoundVerifier`, of the
  lemmas that need it.
- **Prover failures.** `prove(...).unwrap()` panics in `init_*`, so only the
  successful run is modelled. The seal and statistics are inputs.
- **Clock readings.** `Local::now()` in `new`, `init` and `sync` is a `now`
  parameter.
- **Library rendering.** Decimals, JSON values and the entity's status
  `Display` are carried as already-rendered text. The entity crate's enum
  module is not part of this model. Integers and timestamps are rendered by
  the model.
- **The seeder's other conversions.** RFC 3339 parsing and the `f64` to
  `Decimal` conversions involve floating point and a foreign parser.
- **HTTP handlers, the database and authentication.** This covers the
  `create_*` handlers, the SeaORM queries and `saved_token.rs`.
  `get_overall_state_handler` is modelled only as its pure computation over
  the rows the ascending-id queries return. Ordering the rows is the
  database's job.
- **`init_*_handler` and `sync_state_handler`.** These only chain the
  modelled functions with database reads and JSON responses.
- **`sync_state.rs`.** Publishing to Pinata/IPFS is network I/O driven by
  environment variables.
- **Stubs with no behaviour.** This covers the per-domain `process` and
  `sync` functions, `OilTokenizationState`, the `state` and `verify`
  guests, and `VerifyParams`/`VerifyCommit`.
- **The `usize` width of `leaves`.** It is unbounded `nat`, because a
  vector's length always fits.
