/** The `create_support_mint_associated` admin instruction: an approved
    signer registers a Token-2022 mint in the allow-list by creating the
    account at `[SUPPORT_MINT_SEED, token_mint]`, which then holds the
    derivation's bump and the mint. The runtime's accounts are a map from
    address to account; the instruction either fails and changes nothing,
    or writes exactly that one account. */
module SupportMint {
  import opened Wrappers
  import opened Bytes
  import opened Pda
  import opened ProgramIds

  /** `create_support_mint_associated_owner::ID` of a devnet build:
      rayf3nEbb3bnfN6RDGFpqPbjc5uUa3tRUzu6UVYrRx5 */
  const SUPPORT_MINT_OWNER_DEVNET: Pubkey :=
    [12, 179, 224, 155, 16, 71, 201, 209, 199, 198, 110, 219, 168, 27, 165, 145,
     135, 108, 21, 191, 77, 71, 224, 15, 246, 18, 30, 78, 197, 30, 115, 50]

  /** `create_support_mint_associated_owner::ID` of any other build:
      RayVyjyJQz9vAi126A4sGexKnSU1XeZaHTRcM1mZMPY */
  const SUPPORT_MINT_OWNER: Pubkey :=
    [6, 76, 90, 165, 176, 172, 135, 117, 190, 14, 35, 168, 28, 25, 107, 248,
     98, 199, 90, 95, 239, 211, 58, 213, 9, 155, 142, 196, 19, 236, 224, 43]

  /** The support-mint owner id, chosen by the `devnet` build feature. */
  function SupportMintOwnerId(devnet: bool): (id: Pubkey)
    ensures id == SUPPORT_MINT_OWNER_DEVNET <==> devnet
  {
    assert SUPPORT_MINT_OWNER[0] != SUPPORT_MINT_OWNER_DEVNET[0];
    if devnet then SUPPORT_MINT_OWNER_DEVNET else SUPPORT_MINT_OWNER
  }

  /** The deployment: the program's id, `admin::ID`, and the build feature. */
  datatype Deployment = Deployment(programId: Pubkey, adminId: Pubkey, devnet: bool)

  /** The data of an account, as far as the instruction looks at it. */
  datatype AccountData =
    | MintData
    | SupportMintAssociated(bump: byte, mint: Pubkey)
    | OtherData
    | NoData

  datatype AccountInfo = AccountInfo(owner: Pubkey, data: AccountData)

  /** The existing accounts by address. */
  type Accounts = map<Pubkey, AccountInfo>

  /** Why the instruction fails: the program's `NotApproved`, and the
      framework and system-program failures of the account constraints. */
  datatype ErrorCode =
    | AccountNotSigner
    | AccountNotInitialized
    | AccountOwnedByWrongProgram
    | AccountDidNotDeserialize
    | ConstraintSeeds
    | AccountAlreadyInUse
    | NotApproved

  /** The accounts a transaction passes: `owner` (and whether it signed),
      `token_mint` and `support_mint_associated`. */
  datatype Invocation = Invocation(owner: Pubkey, ownerSigned: bool, tokenMint: Pubkey, supportMintAssociated: Pubkey)

  /** The `owner` constraint: the admin or the support-mint owner. */
  predicate IsApprovedOwner(key: Pubkey, dep: Deployment) {
    key == dep.adminId || key == SupportMintOwnerId(dep.devnet)
  }

  /** The allow-list entry's address and bump for a mint. */
  function SupportMintPda(derive: Derive, dep: Deployment, tokenMint: Pubkey): DerivedAddress {
    derive(SupportMintSeeds(tokenMint), dep.programId)
  }

  /** `init` can take the address: no account lives there, or only one the
      system program owns with no data (lamports sent to the address ahead
      of time), which `init` tops up, allocates and assigns. */
  predicate Vacant(accounts: Accounts, address: Pubkey) {
    address !in accounts || (accounts[address].owner == SYSTEM_PROGRAM_ID && accounts[address].data.NoData?)
  }

  /** Everything the account constraints demand. */
  predicate Admissible(accounts: Accounts, ix: Invocation, dep: Deployment, derive: Derive) {
    && ix.ownerSigned
    && IsApprovedOwner(ix.owner, dep)
    && ix.tokenMint in accounts
    && accounts[ix.tokenMint].owner == TOKEN_2022_PROGRAM_ID
    && accounts[ix.tokenMint].data.MintData?
    && ix.supportMintAssociated == SupportMintPda(derive, dep, ix.tokenMint).address
    && Vacant(accounts, ix.supportMintAssociated)
  }

  /** The account checks in the order the framework runs them: the accounts
      are loaded (`Signer`, the mint interface account), the `init` account
      is derived and created, then the `constraint` and `owner` checks run.
      `None` when every check passes. */
  function CheckAccounts(accounts: Accounts, ix: Invocation, dep: Deployment, derive: Derive): (r: Option<ErrorCode>)
    ensures r.None? <==> Admissible(accounts, ix, dep, derive)
    ensures r == Some(NotApproved) <==>
      && ix.ownerSigned && ix.tokenMint in accounts
      && accounts[ix.tokenMint].owner in {TOKEN_PROGRAM_ID, TOKEN_2022_PROGRAM_ID}
      && accounts[ix.tokenMint].data.MintData?
      && ix.supportMintAssociated == SupportMintPda(derive, dep, ix.tokenMint).address
      && Vacant(accounts, ix.supportMintAssociated)
      && (!IsApprovedOwner(ix.owner, dep) || accounts[ix.tokenMint].owner != TOKEN_2022_PROGRAM_ID)
  {
    if !ix.ownerSigned then Some(AccountNotSigner)
    else if ix.tokenMint !in accounts then Some(AccountNotInitialized)
    else if accounts[ix.tokenMint].owner != TOKEN_PROGRAM_ID && accounts[ix.tokenMint].owner != TOKEN_2022_PROGRAM_ID
    then Some(AccountOwnedByWrongProgram)
    else if !accounts[ix.tokenMint].data.MintData? then Some(AccountDidNotDeserialize)
    else if ix.supportMintAssociated != SupportMintPda(derive, dep, ix.tokenMint).address then Some(ConstraintSeeds)
    else if !Vacant(accounts, ix.supportMintAssociated) then Some(AccountAlreadyInUse)
    else if !IsApprovedOwner(ix.owner, dep) then Some(NotApproved)
    else if accounts[ix.tokenMint].owner != TOKEN_2022_PROGRAM_ID then Some(NotApproved)
    else None
  }

  /** The accounts after the instruction, or its error. */
  function Register(accounts: Accounts, ix: Invocation, dep: Deployment, derive: Derive): (r: Result<Accounts, ErrorCode>)
    ensures r.Success? <==> Admissible(accounts, ix, dep, derive)
    ensures r.Failure? ==> Some(r.error) == CheckAccounts(accounts, ix, dep, derive)
  {
    match CheckAccounts(accounts, ix, dep, derive)
    case Some(e) => Failure(e)
    case None =>
      var pda := SupportMintPda(derive, dep, ix.tokenMint);
      Success(accounts[pda.address := AccountInfo(dep.programId, SupportMintAssociated(pda.bump, ix.tokenMint))])
  }

  /** A successful registration writes exactly one account, at the mint's
      derived address, which was vacant: it is then owned by the program and
      holds the derivation's bump and the mint; every other account is as it
      was. */
  lemma RegisterWritesOneAccount(accounts: Accounts, ix: Invocation, dep: Deployment, derive: Derive)
    requires Register(accounts, ix, dep, derive).Success?
    ensures var after := Register(accounts, ix, dep, derive).value;
      var pda := SupportMintPda(derive, dep, ix.tokenMint);
      && Vacant(accounts, pda.address)
      && after.Keys == accounts.Keys + {pda.address}
      && after[pda.address] == AccountInfo(dep.programId, SupportMintAssociated(pda.bump, ix.tokenMint))
      && forall k :: k in accounts && k != pda.address ==> after[k] == accounts[k]
  {
  }

  /** A mint is registered at most once: once a registration succeeded,
      every later registration of the same mint fails, whoever signs it and
      whatever address it passes. */
  lemma {:induction false} RegisterOnce(accounts: Accounts, ix: Invocation, ix': Invocation, dep: Deployment, derive: Derive)
    requires Register(accounts, ix, dep, derive).Success?
    requires ix'.tokenMint == ix.tokenMint
    ensures Register(Register(accounts, ix, dep, derive).value, ix', dep, derive).Failure?
  {
    var after := Register(accounts, ix, dep, derive).value;
    var pda := SupportMintPda(derive, dep, ix.tokenMint);
    assert CheckAccounts(accounts, ix, dep, derive).None?;
    assert pda.address in after && after[pda.address].data.SupportMintAssociated?;
    assert !Admissible(after, ix', dep, derive);
  }

  /** The runtime's accounts, updated in place by the instruction. */
  class Ledger {
    var accounts: Accounts

    constructor (initial: Accounts)
      ensures accounts == initial
    {
      accounts := initial;
    }

    /** Run the instruction: check the accounts, create the allow-list
        account (`init`), then the handler writes `bump` and `mint`. */
    method CreateSupportMintAssociated(ix: Invocation, dep: Deployment, derive: Derive) returns (r: Outcome)
      modifies this
      ensures r.Ok? <==> Admissible(old(accounts), ix, dep, derive)
      ensures r.Err? ==> Some(r.error) == CheckAccounts(old(accounts), ix, dep, derive)
      ensures r.Err? ==> accounts == old(accounts)
      ensures r.Ok? ==> Register(old(accounts), ix, dep, derive) == Success(accounts)
    {
      var failure := CheckAccounts(accounts, ix, dep, derive);
      if failure.Some? {
        return Err(failure.value);
      }
      var pda := SupportMintPda(derive, dep, ix.tokenMint);
      // `init`: a zeroed account owned by the program, created or, when the
      // address was pre-funded, allocated and assigned
      accounts := accounts[pda.address := AccountInfo(dep.programId, SupportMintAssociated(0, ZeroKey()))];
      // the handler, through `deref_mut`
      var supportMintState := accounts[pda.address].data;
      supportMintState := supportMintState.(bump := pda.bump);
      supportMintState := supportMintState.(mint := ix.tokenMint);
      accounts := accounts[pda.address := accounts[pda.address].(data := supportMintState)];
      assert accounts == old(accounts)[pda.address := AccountInfo(dep.programId, SupportMintAssociated(pda.bump, ix.tokenMint))];
      r := Ok;
    }
  }

  /** The instruction's result: `Ok(())` or an error. */
  datatype Outcome = Ok | Err(error: ErrorCode)

  function ZeroKey(): Pubkey {
    seq(KEY_LEN, (_: int) => 0 as byte)
  }
}
