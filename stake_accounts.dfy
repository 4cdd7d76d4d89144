/**
 * Derived stake accounts: the addresses computed from a base public key and an
 * index, the probe that counts how many of them are funded, and the
 * transactions that re-authorize them or move them under a new base key.
 */
module StakeAccounts {
  import opened Ints
  import opened Wrappers
  import Decimal

  /** Longest seed, in bytes, an address may be derived with. */
  const MAX_SEED_LEN: nat := 32

  /** Width of a public key in bytes. */
  const PUBKEY_BYTES: nat := 32

  type Pubkey = b: seq<uint8> | |b| == PUBKEY_BYTES witness seq(32, _ => 0)

  datatype PubkeyError = MaxSeedLengthExceeded

  /** An error reported by the RPC client; its content is not interpreted here. */
  datatype ClientError = ClientError(message: string)

  datatype StakeAuthorize = Staker | Withdrawer

  /**
   * A ledger instruction. `Authorize` stands for what the stake program's
   * `authorize` constructor encodes; `Encoded` for any other instruction, whose
   * encoding belongs to the stake program and is not modelled.
   */
  datatype Instruction =
    | Authorize(stakeAccount: Pubkey, authority: Pubkey, newAuthority: Pubkey, role: StakeAuthorize)
    | Encoded(programId: Pubkey, accounts: seq<Pubkey>, data: seq<uint8>)

  /** The arguments of the stake program's `split_with_seed` constructor, in its order. */
  datatype SplitRequest = SplitRequest(
    stakeAccount: Pubkey,
    authority: Pubkey,
    lamports: uint64,
    splitStakeAccount: Pubkey,
    base: Pubkey,
    seed: seq<uint8>)

  /**
   * What the derivation and the builders take from the ledger's runtime:
   * `addressHash` is SHA-256 of a byte string read back as a public key
   * (`Pubkey::new(hash(..))`), `stakeProgramId` the stake program's id, and
   * `splitWithSeed` the stake program's instruction constructor.
   */
  datatype Runtime = Runtime(
    addressHash: seq<uint8> -> Pubkey,
    stakeProgramId: Pubkey,
    splitWithSeed: SplitRequest -> seq<Instruction>)

  /** An unsigned transaction: its instructions and the key that pays its fee. */
  datatype Transaction = Transaction(instructions: seq<Instruction>, feePayer: Pubkey)

  /**
   * The keys of one authorize or move operation; a signer is modelled by its
   * public key, the only thing the builders ask of it.
   */
  datatype TransferStakeKeys = TransferStakeKeys(
    stakeAuthority: Pubkey,
    withdrawAuthority: Pubkey,
    feePayer: Pubkey,
    newStakeAuthority: Pubkey,
    newWithdrawAuthority: Pubkey)

  /** What a batch hands to `send_and_confirm_transactions`: the transactions, in order, and the signers. */
  datatype Submission = Submission(transactions: seq<Transaction>, signers: seq<Pubkey>)

  /** The balance query of the RPC client, answered from one snapshot of the ledger. */
  type BalanceOracle = Pubkey -> Result<uint64, ClientError>

  // ---------------------------------------------------------------------------
  // Address derivation
  // ---------------------------------------------------------------------------

  /** The byte string `hashv` feeds to its hasher: its slices, one after the other. */
  function Concat(parts: seq<seq<uint8>>): seq<uint8> {
    if |parts| == 0 then [] else parts[0] + Concat(parts[1..])
  }

  lemma ConcatThree(a: seq<uint8>, b: seq<uint8>, c: seq<uint8>)
    ensures Concat([a, b, c]) == a + b + c
  {
    assert [a, b, c][1..] == [b, c];
    assert [b, c][1..] == [c];
    assert Concat([c]) == c;
  }

  /** `Pubkey::new(hashv(parts))`. */
  function Hashv(rt: Runtime, parts: seq<seq<uint8>>): Pubkey {
    rt.addressHash(Concat(parts))
  }

  /**
   * `create_with_seed`: a seed longer than `MAX_SEED_LEN` bytes is refused;
   * otherwise the address is the hash of `base`, `seed` and `programId`,
   * concatenated in that order with nothing between them.
   */
  function CreateWithSeed(rt: Runtime, base: Pubkey, seed: seq<uint8>, programId: Pubkey): (r: Result<Pubkey, PubkeyError>)
    ensures r.Err? <==> |seed| > MAX_SEED_LEN
    ensures r.Err? ==> r.error == MaxSeedLengthExceeded
    ensures r.Ok? ==> r.value == rt.addressHash(base + seed + programId)
  {
    if |seed| > MAX_SEED_LEN then
      Err(MaxSeedLengthExceeded)
    else
      ConcatThree(base, seed, programId);
      Ok(Hashv(rt, [base, seed, programId]))
  }

  /**
   * The address hash does not collide on these two byte strings. No hash onto
   * 32-byte keys is collision-free on all inputs, so injectivity results are
   * stated for the pairs they are about.
   */
  ghost predicate NoCollision(rt: Runtime, x: seq<uint8>, y: seq<uint8>) {
    rt.addressHash(x) == rt.addressHash(y) ==> x == y
  }

  /** The byte string hashed to derive the address of index `i` under `base`. */
  function DerivationInput(rt: Runtime, base: Pubkey, i: nat): seq<uint8> {
    base + Decimal.ToDecimal(i) + rt.stakeProgramId
  }

  /**
   * Because base and program id have a fixed width, the unseparated
   * concatenation is unambiguous: unless the hash collides on the two inputs,
   * one derived address comes from one base and one seed only.
   */
  lemma CreateWithSeedInjective(rt: Runtime, base1: Pubkey, seed1: seq<uint8>, base2: Pubkey, seed2: seq<uint8>, programId: Pubkey)
    requires NoCollision(rt, base1 + seed1 + programId, base2 + seed2 + programId)
    requires CreateWithSeed(rt, base1, seed1, programId).Ok?
    requires CreateWithSeed(rt, base2, seed2, programId).Ok?
    requires CreateWithSeed(rt, base1, seed1, programId) == CreateWithSeed(rt, base2, seed2, programId)
    ensures base1 == base2 && seed1 == seed2
  {
    var x := base1 + seed1 + programId;
    var y := base2 + seed2 + programId;
    assert x == y;
    assert |seed1| == |seed2|;
    assert base1 == x[..PUBKEY_BYTES] == y[..PUBKEY_BYTES] == base2;
    assert seed1 == x[PUBKEY_BYTES..PUBKEY_BYTES + |seed1|] == y[PUBKEY_BYTES..PUBKEY_BYTES + |seed2|] == seed2;
  }

  /** The seed of every `usize` index fits, so the `unwrap` in the derivation never fails. */
  lemma DeriveNeverFails(rt: Runtime, base: Pubkey, i: nat)
    requires i < USIZE_LIMIT
    ensures |Decimal.ToDecimal(i)| <= 20 < MAX_SEED_LEN
    ensures CreateWithSeed(rt, base, Decimal.ToDecimal(i), rt.stakeProgramId).Ok?
  {
    Decimal.UsizeDecimalLength(i);
  }

  /** `derive_stake_account_address`: the address of index `i` under `base`, seeded by the decimal text of `i`. */
  function DeriveStakeAccountAddress(rt: Runtime, base: Pubkey, i: nat): (r: Pubkey)
    requires i < USIZE_LIMIT
    ensures r == rt.addressHash(base + Decimal.ToDecimal(i) + rt.stakeProgramId)
  {
    DeriveNeverFails(rt, base, i);
    CreateWithSeed(rt, base, Decimal.ToDecimal(i), rt.stakeProgramId).value
  }

  /** Unless the hash collides on their inputs, distinct (base, index) pairs have distinct addresses. */
  lemma DeriveInjective(rt: Runtime, base1: Pubkey, i: nat, base2: Pubkey, j: nat)
    requires NoCollision(rt, DerivationInput(rt, base1, i), DerivationInput(rt, base2, j))
    requires i < USIZE_LIMIT && j < USIZE_LIMIT
    ensures DeriveStakeAccountAddress(rt, base1, i) == DeriveStakeAccountAddress(rt, base2, j)
        <==> base1 == base2 && i == j
  {
    if DeriveStakeAccountAddress(rt, base1, i) == DeriveStakeAccountAddress(rt, base2, j) {
      DeriveNeverFails(rt, base1, i);
      DeriveNeverFails(rt, base2, j);
      CreateWithSeedInjective(rt, base1, Decimal.ToDecimal(i), base2, Decimal.ToDecimal(j), rt.stakeProgramId);
      Decimal.ToDecimalInjective(i, j);
    }
  }

  /** `derive_stake_account_addresses`: the addresses of indices `0..n`, in index order. */
  function DeriveStakeAccountAddresses(rt: Runtime, base: Pubkey, n: nat): (r: seq<Pubkey>)
    requires n < USIZE_LIMIT
    ensures |r| == n
    ensures forall k :: 0 <= k < n ==> r[k] == DeriveStakeAccountAddress(rt, base, k)
  {
    seq(n, k requires 0 <= k < n => DeriveStakeAccountAddress(rt, base, k))
  }

  /** Asking for fewer accounts gives a prefix of the longer list: nothing depends on `n` but the length. */
  lemma DeriveStakeAccountAddressesPrefix(rt: Runtime, base: Pubkey, m: nat, n: nat)
    requires m <= n < USIZE_LIMIT
    ensures DeriveStakeAccountAddresses(rt, base, m) == DeriveStakeAccountAddresses(rt, base, n)[..m]
  {
  }

  /** Unless the hash collides on the inputs of two of them, the derived addresses are pairwise distinct. */
  lemma DeriveStakeAccountAddressesDistinct(rt: Runtime, base: Pubkey, n: nat)
    requires forall j, k :: 0 <= j < k < n ==> NoCollision(rt, DerivationInput(rt, base, j), DerivationInput(rt, base, k))
    requires n < USIZE_LIMIT
    ensures var addresses := DeriveStakeAccountAddresses(rt, base, n);
      forall j, k :: 0 <= j < k < n ==> addresses[j] != addresses[k]
  {
    var addresses := DeriveStakeAccountAddresses(rt, base, n);
    forall j, k | 0 <= j < k < n
      ensures addresses[j] != addresses[k]
    {
      DeriveInjective(rt, base, j, base, k);
    }
  }

  // ---------------------------------------------------------------------------
  // Counting the funded accounts
  // ---------------------------------------------------------------------------

  /** The query for `address` succeeded and reported a positive balance. */
  predicate Funded(getBalance: BalanceOracle, address: Pubkey) {
    getBalance(address).Ok? && getBalance(address).value > 0
  }

  /** `c` is the count the probe reports: indices below `c` are funded and index `c` holds nothing. */
  ghost predicate IsAccountCount(rt: Runtime, getBalance: BalanceOracle, base: Pubkey, c: nat)
    requires c < USIZE_LIMIT
  {
    && (forall k :: 0 <= k < c ==> Funded(getBalance, DeriveStakeAccountAddress(rt, base, k)))
    && getBalance(DeriveStakeAccountAddress(rt, base, c)) == Ok(0)
  }

  /**
   * `count_stake_accounts`: probes indices 0, 1, 2, ... and stops at the first
   * address whose balance is 0; the first failed query is returned instead.
   * The ghost index `stop` is one whose query does not report a positive
   * balance, which is what makes the probe end.
   */
  method CountStakeAccounts(rt: Runtime, getBalance: BalanceOracle, base: Pubkey, ghost stop: nat)
    returns (r: Result<nat, ClientError>)
    requires stop < USIZE_LIMIT
    requires !Funded(getBalance, DeriveStakeAccountAddress(rt, base, stop))
    ensures r.Ok? ==> r.value <= stop && IsAccountCount(rt, getBalance, base, r.value)
    ensures r.Err? ==> exists j :: (0 <= j <= stop
      && getBalance(DeriveStakeAccountAddress(rt, base, j)) == Err(r.error)
      && forall k :: 0 <= k < j ==> Funded(getBalance, DeriveStakeAccountAddress(rt, base, k)))
  {
    var i: nat := 0;
    while true
      invariant i <= stop
      invariant forall k :: 0 <= k < i ==> Funded(getBalance, DeriveStakeAccountAddress(rt, base, k))
      decreases stop - i
    {
      var balance := getBalance(DeriveStakeAccountAddress(rt, base, i));
      if balance.Err? {
        return Err(balance.error);
      }
      if balance.value == 0 {
        break;
      }
      i := i + 1;
    }
    return Ok(i);
  }

  /** The count is determined by the balances: there is at most one. */
  lemma AccountCountUnique(rt: Runtime, getBalance: BalanceOracle, base: Pubkey, c1: nat, c2: nat)
    requires c1 < USIZE_LIMIT && c2 < USIZE_LIMIT
    requires IsAccountCount(rt, getBalance, base, c1)
    requires IsAccountCount(rt, getBalance, base, c2)
    ensures c1 == c2
  {
  }

  /** The addresses the count covers are exactly the funded ones listed in index order. */
  lemma CountedAddressesFunded(rt: Runtime, getBalance: BalanceOracle, base: Pubkey, c: nat)
    requires c < USIZE_LIMIT
    requires IsAccountCount(rt, getBalance, base, c)
    ensures forall a :: a in DeriveStakeAccountAddresses(rt, base, c) ==> Funded(getBalance, a)
    ensures !Funded(getBalance, DeriveStakeAccountAddress(rt, base, c))
  {
  }

  // ---------------------------------------------------------------------------
  // Instruction and transaction builders
  // ---------------------------------------------------------------------------

  /**
   * `create_authorize_instructions`: two instructions on one stake account,
   * the staker moving from the current stake authority to the new one, then
   * the withdrawer moving from the current withdraw authority to the new one.
   */
  function CreateAuthorizeInstructions(stakeAccount: Pubkey, keys: TransferStakeKeys): (r: seq<Instruction>)
    ensures |r| == 2
    ensures forall ix :: ix in r ==> ix.Authorize? && ix.stakeAccount == stakeAccount
    ensures r[0].role == Staker && r[1].role == Withdrawer
    ensures r[0].authority == keys.stakeAuthority && r[0].newAuthority == keys.newStakeAuthority
    ensures r[1].authority == keys.withdrawAuthority && r[1].newAuthority == keys.newWithdrawAuthority
  {
    var instruction0 := Authorize(stakeAccount, keys.stakeAuthority, keys.newStakeAuthority, Staker);
    var instruction1 := Authorize(stakeAccount, keys.withdrawAuthority, keys.newWithdrawAuthority, Withdrawer);
    [instruction0, instruction1]
  }

  /** The split request of the move of account `i`: all of `lamports` into index `i` under the new stake authority. */
  function MoveSplitRequest(rt: Runtime, stakeAccount: Pubkey, keys: TransferStakeKeys, lamports: uint64, i: nat): SplitRequest
    requires i < USIZE_LIMIT
  {
    var newStakeAccount := DeriveStakeAccountAddress(rt, keys.newStakeAuthority, i);
    SplitRequest(stakeAccount, keys.stakeAuthority, lamports, newStakeAccount, keys.newStakeAuthority, Decimal.ToDecimal(i))
  }

  /**
   * `create_move_transaction` as a value: the split into the new account,
   * then the two authorize instructions aimed at it, paid by the fee payer.
   */
  function MoveTransaction(rt: Runtime, stakeAccount: Pubkey, keys: TransferStakeKeys, lamports: uint64, i: nat): Transaction
    requires i < USIZE_LIMIT
  {
    var request := MoveSplitRequest(rt, stakeAccount, keys, lamports, i);
    Transaction(rt.splitWithSeed(request) + CreateAuthorizeInstructions(request.splitStakeAccount, keys), keys.feePayer)
  }

  /** `create_move_transaction`: starts from the split instructions and extends them in place with the authorize pair. */
  method CreateMoveTransaction(rt: Runtime, stakeAccount: Pubkey, keys: TransferStakeKeys, lamports: uint64, i: nat)
    returns (tx: Transaction)
    requires i < USIZE_LIMIT
    ensures tx == MoveTransaction(rt, stakeAccount, keys, lamports, i)
  {
    var stakeAuthority := keys.stakeAuthority;
    var feePayer := keys.feePayer;
    var newStakeAccount := DeriveStakeAccountAddress(rt, keys.newStakeAuthority, i);
    var instructions := rt.splitWithSeed(SplitRequest(
      stakeAccount, stakeAuthority, lamports, newStakeAccount, keys.newStakeAuthority, Decimal.ToDecimal(i)));
    var authorizeInstructions := CreateAuthorizeInstructions(newStakeAccount, keys);
    instructions := instructions + authorizeInstructions;
    tx := Transaction(instructions, feePayer);
  }

  /**
   * What a move transaction does: split all of `lamports` out of the source
   * into the address of index `i` under the new stake authority, seeded by
   * the text of `i` (so the ledger, recomputing the address from base and
   * seed, finds the same one), then hand both authorities of that new account
   * over; the fee payer pays.
   */
  lemma MoveTransactionShape(rt: Runtime, stakeAccount: Pubkey, keys: TransferStakeKeys, lamports: uint64, i: nat)
    requires i < USIZE_LIMIT
    ensures var tx := MoveTransaction(rt, stakeAccount, keys, lamports, i);
      var request := MoveSplitRequest(rt, stakeAccount, keys, lamports, i);
      var split := rt.splitWithSeed(request);
      && tx.feePayer == keys.feePayer
      && request.stakeAccount == stakeAccount
      && request.authority == keys.stakeAuthority
      && request.lamports == lamports
      && request.base == keys.newStakeAuthority
      && request.seed == Decimal.ToDecimal(i)
      && request.splitStakeAccount == DeriveStakeAccountAddress(rt, keys.newStakeAuthority, i)
      && CreateWithSeed(rt, request.base, request.seed, rt.stakeProgramId) == Ok(request.splitStakeAccount)
      && |tx.instructions| == |split| + 2
      && tx.instructions[..|split|] == split
      && tx.instructions[|split|..] == CreateAuthorizeInstructions(request.splitStakeAccount, keys)
  {
    var tx := MoveTransaction(rt, stakeAccount, keys, lamports, i);
    var request := MoveSplitRequest(rt, stakeAccount, keys, lamports, i);
    var split := rt.splitWithSeed(request);
    DeriveNeverFails(rt, keys.newStakeAuthority, i);
    assert tx.instructions == split + CreateAuthorizeInstructions(request.splitStakeAccount, keys);
  }

  // ---------------------------------------------------------------------------
  // Batches
  // ---------------------------------------------------------------------------

  /** The signers of every batch: stake authority, withdraw authority, fee payer, in that order. */
  function BatchSigners(keys: TransferStakeKeys): (r: seq<Pubkey>)
    ensures |r| == 3
    ensures r[0] == keys.stakeAuthority && r[1] == keys.withdrawAuthority && r[2] == keys.feePayer
  {
    [keys.stakeAuthority, keys.withdrawAuthority, keys.feePayer]
  }

  /**
   * `authorize_stake_accounts`: one transaction per account derived from the
   * stake authority, in index order, each re-authorizing that account.
   */
  function AuthorizeStakeAccounts(rt: Runtime, keys: TransferStakeKeys, n: nat): (r: Submission)
    requires n < USIZE_LIMIT
    ensures r.signers == [keys.stakeAuthority, keys.withdrawAuthority, keys.feePayer]
    ensures |r.transactions| == n
    ensures forall i :: 0 <= i < n ==> r.transactions[i] == Transaction(
      CreateAuthorizeInstructions(DeriveStakeAccountAddress(rt, keys.stakeAuthority, i), keys), keys.feePayer)
  {
    var addresses := DeriveStakeAccountAddresses(rt, keys.stakeAuthority, n);
    var transactions := seq(|addresses|, k requires 0 <= k < |addresses| =>
      Transaction(CreateAuthorizeInstructions(addresses[k], keys), keys.feePayer));
    Submission(transactions, BatchSigners(keys))
  }

  /**
   * The `map`/`collect` of `move_stake_accounts` from position `start` on:
   * query each account's balance in order and build its move transaction;
   * the first failed query ends the collection with that error.
   */
  function CollectMoveTransactions(rt: Runtime, getBalance: BalanceOracle, keys: TransferStakeKeys, addresses: seq<Pubkey>, start: nat)
    : (r: Result<seq<Transaction>, ClientError>)
    requires start <= |addresses| < USIZE_LIMIT
    ensures r.Ok? <==> forall k :: start <= k < |addresses| ==> getBalance(addresses[k]).Ok?
    ensures r.Ok? ==> (|r.value| == |addresses| - start
      && forall k :: start <= k < |addresses| ==>
           r.value[k - start] == MoveTransaction(rt, addresses[k], keys, getBalance(addresses[k]).value, k))
    ensures r.Err? ==> exists j :: (start <= j < |addresses|
      && getBalance(addresses[j]) == Err(r.error)
      && forall k :: start <= k < j ==> getBalance(addresses[k]).Ok?)
    decreases |addresses| - start
  {
    if start == |addresses| then
      Ok([])
    else
      match getBalance(addresses[start])
      case Err(e) => Err(e)
      case Ok(lamports) =>
        var transaction := MoveTransaction(rt, addresses[start], keys, lamports, start);
        match CollectMoveTransactions(rt, getBalance, keys, addresses, start + 1)
        case Err(e) => Err(e)
        case Ok(rest) => Ok([transaction] + rest)
  }

  /**
   * `move_stake_accounts`: for each account derived from the stake authority,
   * in index order, a move transaction splitting exactly the balance queried
   * for it; if any query fails, the first failure is returned and nothing is
   * handed over for submission.
   */
  function MoveStakeAccounts(rt: Runtime, getBalance: BalanceOracle, keys: TransferStakeKeys, n: nat)
    : (r: Result<Submission, ClientError>)
    requires n < USIZE_LIMIT
    ensures r.Ok? <==> forall i :: 0 <= i < n ==>
      getBalance(DeriveStakeAccountAddress(rt, keys.stakeAuthority, i)).Ok?
    ensures r.Ok? ==> (r.value.signers == [keys.stakeAuthority, keys.withdrawAuthority, keys.feePayer]
      && |r.value.transactions| == n
      && forall i :: 0 <= i < n ==>
           var source := DeriveStakeAccountAddress(rt, keys.stakeAuthority, i);
           r.value.transactions[i] == MoveTransaction(rt, source, keys, getBalance(source).value, i))
    ensures r.Err? ==> exists j :: (0 <= j < n
      && getBalance(DeriveStakeAccountAddress(rt, keys.stakeAuthority, j)) == Err(r.error)
      && forall i :: 0 <= i < j ==> getBalance(DeriveStakeAccountAddress(rt, keys.stakeAuthority, i)).Ok?)
  {
    var addresses := DeriveStakeAccountAddresses(rt, keys.stakeAuthority, n);
    match CollectMoveTransactions(rt, getBalance, keys, addresses, 0)
    case Err(e) => Err(e)
    case Ok(transactions) => Ok(Submission(transactions, BatchSigners(keys)))
  }

  /** The keys an instruction list needs signatures from: the current authority of each authorize instruction. */
  function AuthorizingKeys(instructions: seq<Instruction>): set<Pubkey> {
    set k | 0 <= k < |instructions| && instructions[k].Authorize? :: instructions[k].authority
  }

  /**
   * Every transaction of an authorize batch is signed by everyone it needs:
   * its fee payer and the current authority named by each of its instructions.
   */
  lemma AuthorizeSignersSuffice(rt: Runtime, keys: TransferStakeKeys, n: nat)
    requires n < USIZE_LIMIT
    ensures var sub := AuthorizeStakeAccounts(rt, keys, n);
      forall i :: 0 <= i < n ==>
        sub.transactions[i].feePayer in sub.signers
        && AuthorizingKeys(sub.transactions[i].instructions) <= set s | s in sub.signers
  {
  }

  /**
   * Every transaction of a move batch is signed by its fee payer, by the
   * authority its split names, and by the current authority of each of its
   * authorize instructions; and transaction `i` moves account `i` under the
   * old stake authority to account `i` under the new one.
   */
  lemma MoveStakeAccountsRelocates(rt: Runtime, getBalance: BalanceOracle, keys: TransferStakeKeys, n: nat, i: nat)
    requires i < n < USIZE_LIMIT
    requires MoveStakeAccounts(rt, getBalance, keys, n).Ok?
    ensures var sub := MoveStakeAccounts(rt, getBalance, keys, n).value;
      var source := DeriveStakeAccountAddress(rt, keys.stakeAuthority, i);
      var request := MoveSplitRequest(rt, source, keys, getBalance(source).value, i);
      var tx := sub.transactions[i];
      && tx.feePayer in sub.signers
      && request.authority in sub.signers
      && request.stakeAccount == source
      && tx.instructions[..|tx.instructions| - 2] == rt.splitWithSeed(request)
      && request.splitStakeAccount == DeriveStakeAccountAddress(rt, keys.newStakeAuthority, i)
      && request.lamports == getBalance(source).value
      && tx.instructions[|tx.instructions| - 2..] == CreateAuthorizeInstructions(request.splitStakeAccount, keys)
      && AuthorizingKeys(tx.instructions[|tx.instructions| - 2..]) <= set s | s in sub.signers
  {
    var source := DeriveStakeAccountAddress(rt, keys.stakeAuthority, i);
    MoveTransactionShape(rt, source, keys, getBalance(source).value, i);
  }
}
