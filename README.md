# Derived stake accounts — a Dafny model

This project models the core of `solana-stake-accounts`: the engine that
derives a family of stake-account addresses from one base public key and an
index, counts how many of them are funded, and builds the transactions that
re-authorize all of them or move them under a new base key.

- `ints.dfy` — module `Ints`: Rust's `u8`, `u64` and the `usize` range (64-bit
  target); module `Wrappers`: the `Result` type.
- `decimal.dfy` — module `Decimal`: `usize::to_string` as the bytes of the
  resulting string (the seed of every derived address), with its parser as
  partner: round trips in both directions, injectivity, and the length bound
  (every `usize` takes at most 20 digits).
- `stake_accounts.dfy` — module `StakeAccounts`: `create_with_seed`, the
  derivation of one address and of the first `n` addresses, the probing
  counter, the authorize and move builders, and the two batch builders.

The ledger runtime enters as a `Runtime` value: `addressHash` is
`Pubkey::new(hash(..))` (SHA-256 read back as a key), left uninterpreted;
`stakeProgramId` is the stake program's id; `splitWithSeed` is the stake
program's `split_with_seed` constructor, whose output is an opaque instruction
list. `authorize` is modelled as the `Authorize` instruction value holding its
four arguments. A signer is modelled by its public key. The balance query is a
function parameter (`BalanceOracle`) answering from one ledger snapshot.
No hash onto 32-byte keys is collision-free on all inputs, so the injectivity
lemmas assume only that the hash does not collide on the particular inputs they
compare (`NoCollision`); nothing is proved about SHA-256 itself.

The batch builders return a `Submission`: the transactions in order and the
signer list that `send_and_confirm_transactions` receives.

## Model

| member | source | states |
|---|---|---|
| Decimal.ToDecimal | src/stake_accounts.rs:49 | the text of an index is non-empty ASCII digits with no leading zero, and is "0" exactly for index 0 |
| Decimal.ParseToDecimal | src/stake_accounts.rs:49 | reading back the text of `n` gives `n` |
| Decimal.ToDecimalParse | src/stake_accounts.rs:49 | every canonical digit string is the text of the index it denotes |
| Decimal.ToDecimalInjective | src/stake_accounts.rs:49 | two indices have the same seed text if and only if they are equal |
| Decimal.ToDecimalLength | src/stake_accounts.rs:49 | the text of `n` has at most `k` digits if and only if `n < 10^k` |
| Decimal.UsizeDecimalLength | src/stake_accounts.rs:48-50 | every `usize` index has a text of at most 20 bytes |
| StakeAccounts.CreateWithSeed | src/stake_accounts.rs:38-46 | `MaxSeedLengthExceeded` exactly when the seed is longer than 32 bytes (32 is accepted); otherwise the hash of `base ++ seed ++ program_id`, no separators |
| StakeAccounts.ConcatThree | src/stake_accounts.rs:44 | `hashv` over the three slices hashes their plain concatenation in order |
| StakeAccounts.CreateWithSeedInjective | src/stake_accounts.rs:43-45 | unless the hash collides on the two hashed inputs, equal derived addresses come from equal bases and equal seeds (fixed-width base and program id make the concatenation unambiguous) |
| StakeAccounts.DeriveNeverFails | src/stake_accounts.rs:48-50 | for every `usize` index the seed is at most 20 < 32 bytes, so the `unwrap` cannot fail |
| StakeAccounts.DeriveStakeAccountAddress | src/stake_accounts.rs:48-50 | the address of index `i` is the hash of `base ++ text(i) ++ stake program id` |
| StakeAccounts.DeriveInjective | src/stake_accounts.rs:48-50 | unless the hash collides on the two derivation inputs, two (base, index) pairs give the same address if and only if they are equal |
| StakeAccounts.DeriveStakeAccountAddresses | src/stake_accounts.rs:53-57 | length `n`, element `k` is the address of index `k` |
| StakeAccounts.DeriveStakeAccountAddressesPrefix | src/stake_accounts.rs:53-57 | the list for `m <= n` is the first `m` elements of the list for `n` |
| StakeAccounts.DeriveStakeAccountAddressesDistinct | src/stake_accounts.rs:53-57 | unless the hash collides on the derivation inputs of two indices, the derived addresses are pairwise distinct |
| StakeAccounts.CountStakeAccounts | src/stake_accounts.rs:26-35 | on `Ok(c)`: every index below `c` has a positive balance and index `c` has balance 0; on `Err(e)`: `e` is the answer to the first query that failed, all earlier indices being funded |
| StakeAccounts.AccountCountUnique | src/stake_accounts.rs:26-35 | at most one count fits a given set of balances |
| StakeAccounts.CountedAddressesFunded | src/stake_accounts.rs:26-35 | every address in the list of the first `c` derived addresses is funded, and the next one is not |
| StakeAccounts.CreateAuthorizeInstructions | src/stake_accounts.rs:59-78 | exactly two authorize instructions on the given account: Staker from the stake authority to the new one, then Withdrawer from the withdraw authority to the new one |
| StakeAccounts.CreateMoveTransaction | src/stake_accounts.rs:80-104 | extending the split instructions in place with the authorize pair yields the move transaction |
| StakeAccounts.MoveTransactionShape | src/stake_accounts.rs:80-104 | the split moves `lamports` from the source into the address of index `i` under the new stake authority, with base the new stake authority and seed the text of `i`, so that `create_with_seed` on the split's base and seed gives that same address; the split instructions come first, followed by exactly the two authorize instructions on the new address; the fee payer pays |
| StakeAccounts.BatchSigners | src/stake_accounts.rs:125-129 | exactly [stake authority, withdraw authority, fee payer], in that order |
| StakeAccounts.AuthorizeStakeAccounts | src/stake_accounts.rs:106-131 | `n` transactions in index order, transaction `i` re-authorizing the address of index `i` under the stake authority, paid by the fee payer; signers exactly [stake authority, withdraw authority, fee payer] |
| StakeAccounts.AuthorizeSignersSuffice | src/stake_accounts.rs:111-129 | every authorize transaction's fee payer and every authority its instructions name are among the signers |
| StakeAccounts.CollectMoveTransactions | src/stake_accounts.rs:140-148 | `Ok` exactly when every balance query succeeds, then one move transaction per address in order, each splitting that address's queried balance; otherwise the error of the first failed query |
| StakeAccounts.MoveStakeAccounts | src/stake_accounts.rs:133-156 | `Ok` exactly when every query succeeds; then `n` move transactions in index order, transaction `i` splitting all of the balance of the address of index `i`, signed by [stake authority, withdraw authority, fee payer]; otherwise the first query error and no submission |
| StakeAccounts.MoveStakeAccountsRelocates | src/stake_accounts.rs:138-155 | transaction `i` of a move batch starts with the split of account `i` under the old stake authority, moving its whole queried balance to account `i` under the new one, ends with the authorize pair on the new account; the fee payer, the split's authority and the current authorities of the authorize pair are signers |

## Left out

- CountStakeAccounts: takes a ghost index `stop` whose query does not report a positive balance, so it models only probes that end; the source loops for ever when every probed address is funded, and would overflow `usize` after `2^64` funded indices.
- CountStakeAccounts: balances come from one snapshot (a pure function); balances changing while the probe runs are not modelled.
- MoveStakeAccountsRelocates: signatures demanded by `split_with_seed`'s own encoding are not modelled; in particular its base, the new stake authority, is not among the three signers, and whether the split needs its signature is decided inside the stake program's constructor.
- No partial-failure report: the batch builders return the client's result as it is, so which transactions of a batch landed is not reported.
- No list from discovery: `count_stake_accounts` returns only the count; the addresses are derived again from it.
- No missing-signer check: the three signers of a batch are always supplied, so no batch is rejected for lack of one.
- `send_and_confirm_transactions`: signing, submission, confirmation and its result belong to the RPC client; the batch builders stop at the `Submission` they hand over.
- SHA-256 and `Pubkey::new`: the address hash is an uninterpreted function; the injectivity lemmas assume the absence of a collision on the specific inputs they compare.
- The stake program id's value, and the encodings produced by `stake_instruction::authorize` and `split_with_seed`: they belong to the stake program and are parameters or opaque values here.
- Signers: only their public keys are modelled.
- Command-line parsing (`src/args.rs`), the RPC adapter (`src/rpc_node_client.rs`) and the program entry (`src/main.rs`) are not part of this model.
- Vesting schedules, withdraw, new and deposit operations do not appear in the modelled code and are not modelled.
