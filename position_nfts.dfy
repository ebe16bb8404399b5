/** `get_nft_account_and_position_by_owner` and
    `get_all_nft_and_position_by_owner`: the owner's token accounts, as the
    token-accounts-by-owner query returns them for one token program, are
    filtered down to position NFTs (a JSON-parsed token account with
    0 decimals holding exactly 1 token), and each kept account is paired
    with the position address derived from its mint. */
module PositionNfts {
  import opened Wrappers
  import opened Bytes
  import opened Pda
  import opened ProgramIds

  /** The `parsed` variants of a JSON token account (`TokenAccountType`),
      with the token-account fields the lister reads already decoded. */
  datatype TokenAccountType =
    | Account(mint: Pubkey, amount: u64, decimals: byte)
    | Mint
    | Multisig

  /** `UiAccountData`: JSON-parsed, with its `program` tag and the parsed
      value (`None` when it does not deserialize as a `TokenAccountType`),
      or one of the binary encodings. */
  datatype AccountData =
    | Json(program: string, parsed: Option<TokenAccountType>)
    | Binary

  /** One entry of the query result: the token account's key and data. */
  datatype KeyedAccount = KeyedAccount(pubkey: Pubkey, data: AccountData)

  /** `PositionNftTokenInfo`. */
  datatype PositionNftTokenInfo = PositionNftTokenInfo(
    key: Pubkey,
    program: Pubkey,
    position: Pubkey,
    mint: Pubkey,
    amount: u64,
    decimals: byte)

  /** The token account holds a position NFT. */
  predicate IsPositionNft(a: KeyedAccount) {
    && a.data.Json?
    && (a.data.program == "spl-token" || a.data.program == "spl-token-2022")
    && a.data.parsed.Some? && a.data.parsed.value.Account?
    && a.data.parsed.value.decimals == 0 && a.data.parsed.value.amount == 1
  }

  /** The report for a position-NFT account found under `tokenProgram`. */
  function NftInfo(a: KeyedAccount, tokenProgram: Pubkey, ammProgram: Pubkey, derive: Derive): (r: PositionNftTokenInfo)
    requires IsPositionNft(a)
    ensures r.decimals == 0 && r.amount == 1
    ensures r.position == derive(PositionSeeds(r.mint), ammProgram).address
  {
    var acct := a.data.parsed.value;
    PositionNftTokenInfo(a.pubkey, tokenProgram, derive(PositionSeeds(acct.mint), ammProgram).address,
                         acct.mint, acct.amount, acct.decimals)
  }

  /** The lister's result: the reports of the position-NFT accounts, in input order. */
  function PositionNftsOf(accounts: seq<KeyedAccount>, tokenProgram: Pubkey, ammProgram: Pubkey, derive: Derive)
    : (r: seq<PositionNftTokenInfo>)
    ensures |r| <= |accounts|
    ensures forall e :: e in r ==>
      && e.decimals == 0 && e.amount == 1 && e.program == tokenProgram
      && e.position == derive(PositionSeeds(e.mint), ammProgram).address
    decreases |accounts|
  {
    if accounts == [] then []
    else
      var init := PositionNftsOf(accounts[..|accounts| - 1], tokenProgram, ammProgram, derive);
      var a := accounts[|accounts| - 1];
      if IsPositionNft(a) then init + [NftInfo(a, tokenProgram, ammProgram, derive)] else init
  }

  /** Filtering distributes over concatenation: the input's order is kept
      and every account is judged on its own. */
  lemma {:induction false} PositionNftsOfAppend(xs: seq<KeyedAccount>, ys: seq<KeyedAccount>,
                                               tokenProgram: Pubkey, ammProgram: Pubkey, derive: Derive)
    ensures PositionNftsOf(xs + ys, tokenProgram, ammProgram, derive)
         == PositionNftsOf(xs, tokenProgram, ammProgram, derive) + PositionNftsOf(ys, tokenProgram, ammProgram, derive)
    decreases |ys|
  {
    if ys == [] {
      assert xs + ys == xs;
    } else {
      var ys' := ys[..|ys| - 1];
      assert (xs + ys)[..|xs + ys| - 1] == xs + ys';
      assert (xs + ys)[|xs + ys| - 1] == ys[|ys| - 1];
      PositionNftsOfAppend(xs, ys', tokenProgram, ammProgram, derive);
    }
  }

  /** A single account is reported exactly when it holds a position NFT. */
  lemma PositionNftsOfSingle(a: KeyedAccount, tokenProgram: Pubkey, ammProgram: Pubkey, derive: Derive)
    ensures PositionNftsOf([a], tokenProgram, ammProgram, derive)
         == if IsPositionNft(a) then [NftInfo(a, tokenProgram, ammProgram, derive)] else []
  {
    assert [a][..0] == [];
  }

  /** Every position-NFT account of the input is reported. */
  lemma {:induction false} PositionNftsOfComplete(accounts: seq<KeyedAccount>, i: nat,
                                                 tokenProgram: Pubkey, ammProgram: Pubkey, derive: Derive)
    requires i < |accounts| && IsPositionNft(accounts[i])
    ensures NftInfo(accounts[i], tokenProgram, ammProgram, derive) in PositionNftsOf(accounts, tokenProgram, ammProgram, derive)
  {
    var a := accounts[i];
    assert accounts == accounts[..i] + [a] + accounts[i + 1..];
    PositionNftsOfAppend(accounts[..i] + [a], accounts[i + 1..], tokenProgram, ammProgram, derive);
    PositionNftsOfAppend(accounts[..i], [a], tokenProgram, ammProgram, derive);
    PositionNftsOfSingle(a, tokenProgram, ammProgram, derive);
  }

  /** Every report comes from a position-NFT account of the input. */
  lemma {:induction false} PositionNftsOfSound(accounts: seq<KeyedAccount>, e: PositionNftTokenInfo,
                                              tokenProgram: Pubkey, ammProgram: Pubkey, derive: Derive)
    requires e in PositionNftsOf(accounts, tokenProgram, ammProgram, derive)
    ensures exists i :: 0 <= i < |accounts| && IsPositionNft(accounts[i])
                        && e == NftInfo(accounts[i], tokenProgram, ammProgram, derive)
    decreases |accounts|
  {
    var init := accounts[..|accounts| - 1];
    var last := |accounts| - 1;
    if e in PositionNftsOf(init, tokenProgram, ammProgram, derive) {
      PositionNftsOfSound(init, e, tokenProgram, ammProgram, derive);
      var i :| 0 <= i < |init| && IsPositionNft(init[i]) && e == NftInfo(init[i], tokenProgram, ammProgram, derive);
      assert accounts[i] == init[i];
    } else {
      assert IsPositionNft(accounts[last]) && e == NftInfo(accounts[last], tokenProgram, ammProgram, derive);
    }
  }

  /** The lister for one token program, over the query's result. */
  method GetNftAccountAndPositionByOwner(allTokens: seq<KeyedAccount>, tokenProgram: Pubkey,
                                         ammProgram: Pubkey, derive: Derive)
    returns (positionNftAccounts: seq<PositionNftTokenInfo>)
    ensures positionNftAccounts == PositionNftsOf(allTokens, tokenProgram, ammProgram, derive)
  {
    positionNftAccounts := [];
    for i := 0 to |allTokens|
      invariant positionNftAccounts == PositionNftsOf(allTokens[..i], tokenProgram, ammProgram, derive)
    {
      var keyedAccount := allTokens[i];
      assert allTokens[..i + 1][..i] == allTokens[..i];
      if keyedAccount.data.Json? {
        var parsedAccount := keyedAccount.data;
        if parsedAccount.program == "spl-token" || parsedAccount.program == "spl-token-2022" {
          if parsedAccount.parsed.Some? && parsedAccount.parsed.value.Account? {
            var uiTokenAccount := parsedAccount.parsed.value;
            if uiTokenAccount.decimals == 0 && uiTokenAccount.amount == 1 {
              var positionPda := derive(PositionSeeds(uiTokenAccount.mint), ammProgram).address;
              positionNftAccounts := positionNftAccounts + [PositionNftTokenInfo(
                keyedAccount.pubkey, tokenProgram, positionPda,
                uiTokenAccount.mint, uiTokenAccount.amount, uiTokenAccount.decimals)];
            }
          }
        }
      }
    }
    assert allTokens[..|allTokens|] == allTokens;
  }

  /** Both token programs' positions: the legacy token program's list, then
      the Token-2022 list. */
  function AllPositionNfts(splTokens: seq<KeyedAccount>, spl2022Tokens: seq<KeyedAccount>,
                           ammProgram: Pubkey, derive: Derive): seq<PositionNftTokenInfo>
  {
    PositionNftsOf(splTokens, TOKEN_PROGRAM_ID, ammProgram, derive)
      + PositionNftsOf(spl2022Tokens, TOKEN_2022_PROGRAM_ID, ammProgram, derive)
  }

  /** The union keeps every report of both lists, drops and merges nothing,
      and its `program` field tells which query an entry came from: the
      legacy entries all come first. */
  lemma AllPositionNftsUnion(splTokens: seq<KeyedAccount>, spl2022Tokens: seq<KeyedAccount>,
                             ammProgram: Pubkey, derive: Derive)
    ensures var all := AllPositionNfts(splTokens, spl2022Tokens, ammProgram, derive);
      var spl := PositionNftsOf(splTokens, TOKEN_PROGRAM_ID, ammProgram, derive);
      var spl2022 := PositionNftsOf(spl2022Tokens, TOKEN_2022_PROGRAM_ID, ammProgram, derive);
      && |all| == |spl| + |spl2022|
      && (forall e :: e in all <==> e in spl || e in spl2022)
      && (forall i :: 0 <= i < |all| ==> (all[i].program == TOKEN_PROGRAM_ID <==> i < |spl|))
  {
    var all := AllPositionNfts(splTokens, spl2022Tokens, ammProgram, derive);
    var spl := PositionNftsOf(splTokens, TOKEN_PROGRAM_ID, ammProgram, derive);
    var spl2022 := PositionNftsOf(spl2022Tokens, TOKEN_2022_PROGRAM_ID, ammProgram, derive);
    assert TOKEN_PROGRAM_ID[4] != TOKEN_2022_PROGRAM_ID[4];
    forall i | 0 <= i < |all|
      ensures all[i].program == TOKEN_PROGRAM_ID <==> i < |spl|
    {
      if i < |spl| {
        assert all[i] == spl[i] && spl[i] in spl;
      } else {
        assert all[i] == spl2022[i - |spl|] && spl2022[i - |spl|] in spl2022;
      }
    }
  }

  /** `get_all_nft_and_position_by_owner`: `spl_nfts.extend(spl_2022_nfts)`. */
  method GetAllNftAndPositionByOwner(splTokens: seq<KeyedAccount>, spl2022Tokens: seq<KeyedAccount>,
                                     ammProgram: Pubkey, derive: Derive)
    returns (splNfts: seq<PositionNftTokenInfo>)
    ensures splNfts == AllPositionNfts(splTokens, spl2022Tokens, ammProgram, derive)
  {
    splNfts := GetNftAccountAndPositionByOwner(splTokens, TOKEN_PROGRAM_ID, ammProgram, derive);
    var spl2022Nfts := GetNftAccountAndPositionByOwner(spl2022Tokens, TOKEN_2022_PROGRAM_ID, ammProgram, derive);
    splNfts := splNfts + spl2022Nfts;
  }
}
