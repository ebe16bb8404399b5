# Raydium CLMM client core and support-mint registration, in Dafny

This project models the core of the concentrated-liquidity AMM's off-chain
client (`client/src/lib.rs`) and one admin instruction of the on-chain
program (`create_support_mint_associated`), and proves properties of the
model.

- **Address derivation** (`pda.dfy`, `bytes.dfy`). `Pubkey::find_program_address`
  is a parameter `derive: (seq<Seed>, Pubkey) -> Pda` (address and bump); its
  hashing and bump search are not modelled. What is modelled is the exact
  byte layout of every seed list: the domain tag bytes, raw 32-byte keys,
  `u16` and `i32` indices in big-endian (`to_be_bytes`, two's complement for
  `i32`). The runtime hashes the seeds joined end to end, then the bump,
  so seed boundaries are lost. The model proves that these hashed bytes
  still determine the kind of account, the values it is keyed by and the
  bump. So no two different accounts share a hash input.
- **Configuration** (`config.dfy`). `load_cfg` after the INI file is read:
  it aborts on the first empty required value. It casts the AMM-config index
  to `u16` and derives the AMM-config address. When both mints are
  configured, it swaps them into byte order and derives the pool address and
  then the pool's bitmap-extension address.
- **Tick-array lookahead** (`tick_arrays.dfy`). `load_cur_and_next_five_tick_array`
  starts at the first initialized tick array. It follows the bitmap's "next
  initialized start index" at most five times and stops at the first `None`.
  It derives each array's address and then decodes the fetched arrays in key
  order. The bitmap search and the account fetch/decode are oracles passed
  in by the caller.
- **Position NFTs** (`position_nfts.dfy`). The owner's token accounts, as the
  RPC query returns them, are filtered down to JSON-parsed token accounts
  with 0 decimals and an amount of 1. Each kept account is paired with the
  position address derived from its mint. The union lists the legacy token
  program's positions first, then the Token-2022 ones.
- **Support-mint allow-list** (`support_mint.dfy`). The runtime's accounts
  are a `map` held by a `Ledger` class. The instruction checks the account
  constraints and creates the account at `[SUPPORT_MINT_SEED, mint]`. That
  address may also hold a system-owned account without data, funded ahead of
  time, which `init` takes over. The handler then writes `bump` and `mint`
  into it. On failure nothing changes.

The six seed strings (`amm_config`, `pool`, `pool_tick_array_bitmap_extension`,
`tick_array`, `position`, `support_mint`) and `admin::ID` are defined in
`programs/amm/src/states` and `programs/amm/src/lib.rs`. Those files are not
part of this model. The tags use the program's published values, and
`admin::ID` is a parameter (`Deployment.adminId`). The token and system program ids and
the two `create_support_mint_associated_owner::ID` values are written out as
their 32 bytes.

When several account checks of the instruction fail at once, the model
reports the first one in the framework's processing order:
1. The accounts are loaded: the signer check, then the mint interface account.
2. The `init` account's seeds are checked and the account is created.
3. The `constraint` and `owner` checks run.

Because the instruction is atomic, which error is reported does not affect
the resulting state.

## Model

| member | source | states |
|---|---|---|
| `Bytes.LessIrreflexive` | client/src/lib.rs:135 | no key is greater than itself under the derived `Pubkey` order |
| `Bytes.LessAsymmetric` | client/src/lib.rs:135 | `a < b` and `b < a` never both hold |
| `Bytes.LessTotal` | client/src/lib.rs:135 | two keys are equal or ordered one way or the other, so after the conditional swap `mint0 <= mint1` |
| `Bytes.LessIsFirstDifference` | client/src/lib.rs:135 | the key comparison is lexicographic: the first differing byte decides |
| `Bytes.U16BeBytes` | client/src/lib.rs:130 | `u16::to_be_bytes` yields exactly two bytes (their value is fixed by `U16BeRoundTrip`) |
| `Bytes.U16BeRoundTrip` | client/src/lib.rs:130 | decoding the two big-endian bytes gives back the index |
| `Bytes.U16BeInjective` | client/src/lib.rs:130 | distinct config indices give distinct seed bytes |
| `Bytes.I32Bits` | client/src/lib.rs:216 | the two's-complement pattern of an `i32` is below 2^32 and below 2^31 exactly for non-negative values |
| `Bytes.I32BeBytes` | client/src/lib.rs:216 | `i32::to_be_bytes` yields exactly four bytes (their value is fixed by `I32BeRoundTrip` and `I32BeSignBit`) |
| `Bytes.I32BeRoundTrip` | client/src/lib.rs:216 | `i32::from_be_bytes` inverts the encoding for every `i32` |
| `Bytes.I32BeInjective` | client/src/lib.rs:216 | distinct start indices give distinct seed bytes |
| `Bytes.I32BeSignBit` | client/src/lib.rs:216 | the first byte's top bit is set exactly for negative start indices |
| `Pda.AmmConfigSeeds` | client/src/lib.rs:129-132 | `[AMM_CONFIG_SEED, index big-endian]` fits the runtime's seed limits (at most 15 seeds, leaving room for the bump seed, of at most 32 bytes each) |
| `Pda.PoolSeeds` | client/src/lib.rs:141-149 | `[POOL_SEED, config, mint0, mint1]` fits the seed limits |
| `Pda.BitmapExtensionSeeds` | client/src/lib.rs:156-162 | `[POOL_TICK_ARRAY_BITMAP_SEED, pool]` fits the seed limits (the tag is exactly 32 bytes) |
| `Pda.TickArraySeeds` | client/src/lib.rs:212-219 | `[TICK_ARRAY_SEED, pool, start big-endian]` fits the seed limits |
| `Pda.PositionSeeds` | client/src/lib.rs:317-323 | `[POSITION_SEED, mint]` fits the seed limits |
| `Pda.SupportMintSeeds` | programs/amm/src/instructions/admin/create_support_mint_associated.rs:31-34 | `[SUPPORT_MINT_SEED, token_mint]` fits the seed limits |
| `Pda.DomainTagsDistinct` | client/src/lib.rs:129-162 | the six domain tags are pairwise different |
| `Pda.KindLayout` | client/src/lib.rs:129-162 | the bytes hashed for each kind are its tag, its keys (indices big-endian) and the bump, joined end to end; this holds for all six kinds, including tick arrays (lib.rs:212-219), positions (lib.rs:317-323) and support mints |
| `Pda.HashedSeedBytesInjective` | client/src/lib.rs:129-162 | equal hashed bytes mean the same kind of account, the same keys and the same bump, and conversely. No two of the six kinds share a hash input, and each kind's layout is injective |
| `Config.OrderedPair` | client/src/lib.rs:134-139 | the swap yields the same two mints with `mint0 <= mint1` |
| `Config.OrderedPairSymmetric` | client/src/lib.rs:134-139 | listing the mints either way round gives the same ordered pair |
| `Config.PoolAddressOrderInvariant` | client/src/lib.rs:134-150 | the pool address does not depend on the order the config lists the mints in |
| `Config.PoolAddress` | client/src/lib.rs:134-150 | the pool's seeds list the byte-wise smaller mint first, whichever way round the mints are given |
| `Config.LoadCfg` | client/src/lib.rs:90-182 | fails exactly when a required value is empty, naming the first one. Otherwise it copies the strings, truncates the index to `u16` and derives the config key from it. `pool_id_account` is `Some` exactly when both mints are set, and is then the pool of the byte-ordered pair. The bitmap extension is `Some` exactly when the pool is, and is derived from the pool. Unset mints pass through unchanged |
| `TickArrays.Lookahead` | client/src/lib.rs:207-245 | the collected start indices begin with the first initialized one and number between 1 and budget + 1 |
| `TickArrays.LookaheadLinks` | client/src/lib.rs:222-233 | each later index is the oracle's "next" of the one before it |
| `TickArrays.LookaheadStopsOnNone` | client/src/lib.rs:230-232 | collection ends before the budget only at an index whose "next" is `None` |
| `TickArrays.LookaheadUnique` | client/src/lib.rs:207-245 | any sequence with those start, link, bound and stop properties is the collected one |
| `TickArrays.LookaheadMonotone` | client/src/lib.rs:222-233 | with an oracle that always moves strictly in one direction, the collected indices are strictly monotone in that direction |
| `TickArrays.LookaheadStep` | client/src/lib.rs:222-244 | one turn of the loop: stop on a zero budget or a `None`, otherwise keep the current index and continue from the next with one less budget |
| `TickArrays.LookaheadAdvance` | client/src/lib.rs:233-244 | one turn of the countdown keeps "collected so far + still to come = the whole lookahead" |
| `TickArrays.LookaheadFinish` | client/src/lib.rs:222-232 | when the countdown hits 0 or the oracle says `None`, nothing is left to collect |
| `TickArrays.TickArrayAddress` | client/src/lib.rs:234-242 | a tick array's address is derived from `[TICK_ARRAY_SEED, pool, start index big-endian]` under the configured program |
| `TickArrays.TickArrayKeys` | client/src/lib.rs:210-243 | one key per start index |
| `TickArrays.TickArrayKeysAt` | client/src/lib.rs:211-219 | the i-th key is derived from `[TICK_ARRAY_SEED, pool, i-th start index big-endian]` |
| `TickArrays.TickArrayKeysAppend` | client/src/lib.rs:234-243 | pushing a start index pushes its address |
| `TickArrays.CollectTickArrayKeys` | client/src/lib.rs:207-245 | the loop collects exactly the lookahead sequence (at most 5 steps, stopping on `None`) and the key of each index, in order |
| `TickArrays.DecodeTickArrays` | client/src/lib.rs:246-256 | succeeds exactly when every key's account loads, and then gives one decoded array per key in key order |
| `TickArrays.LoadCurAndNextFiveTickArray` | client/src/lib.rs:200-257 | fails without a pool. Otherwise it returns 1 to 6 decoded arrays, one per lookahead key in order, and fails exactly when some key's account does not load |
| `PositionNfts.IsPositionNft` | client/src/lib.rs:291-316 | an account is a position NFT when it is JSON-parsed, tagged `spl-token` or `spl-token-2022`, parses as a token account, and has 0 decimals and amount 1 |
| `PositionNfts.NftInfo` | client/src/lib.rs:317-331 | a report has 0 decimals and amount 1, and its position is derived from `[POSITION_SEED, mint]` |
| `PositionNfts.PositionNftsOf` | client/src/lib.rs:289-337 | never reports more entries than accounts. Every entry has 0 decimals, amount 1, the queried token program, and the position derived from `[POSITION_SEED, mint]` |
| `PositionNfts.PositionNftsOfAppend` | client/src/lib.rs:290-336 | filtering distributes over concatenation: input order is kept and each account is judged alone |
| `PositionNfts.PositionNftsOfSingle` | client/src/lib.rs:291-332 | one account is reported exactly when it is JSON-parsed, tagged `spl-token` or `spl-token-2022`, parses as an account, and has 0 decimals and amount 1 |
| `PositionNfts.PositionNftsOfComplete` | client/src/lib.rs:316-331 | every position-NFT account of the input is reported |
| `PositionNfts.PositionNftsOfSound` | client/src/lib.rs:291-331 | every report comes from a position-NFT account of the input |
| `PositionNfts.GetNftAccountAndPositionByOwner` | client/src/lib.rs:280-338 | the loop's result is exactly the filter of the query result |
| `PositionNfts.AllPositionNfts` | client/src/lib.rs:264-277 | the legacy token program's reports followed by the Token-2022 reports |
| `PositionNfts.AllPositionNftsUnion` | client/src/lib.rs:259-278 | the union has as many entries as both lists together, holds exactly their entries, and the legacy entries come first (told apart by their `program`) |
| `PositionNfts.GetAllNftAndPositionByOwner` | client/src/lib.rs:259-278 | the legacy token program's list followed by the Token-2022 list |
| `SupportMint.SupportMintOwnerId` | programs/amm/src/instructions/admin/create_support_mint_associated.rs:7-13 | the owner id is the devnet key exactly in a devnet build |
| `SupportMint.IsApprovedOwner` | programs/amm/src/instructions/admin/create_support_mint_associated.rs:20 | the signer is `admin::ID` or the build's support-mint owner |
| `SupportMint.Vacant` | programs/amm/src/instructions/admin/create_support_mint_associated.rs:29-38 | `init` can take the address when no account is there, or only a system-owned account without data |
| `SupportMint.Admissible` | programs/amm/src/instructions/admin/create_support_mint_associated.rs:15-42 | every account constraint of the instruction holds |
| `SupportMint.CheckAccounts` | programs/amm/src/instructions/admin/create_support_mint_associated.rs:15-42 | the checks pass exactly when all of these hold: the owner signed and is `admin::ID` or the build's support-mint owner; the mint account exists, is owned by Token-2022 and is a mint; the allow-list address is `[SUPPORT_MINT_SEED, mint]`; that address is vacant (no account, or a system-owned one without data). `NotApproved` is reported exactly when all framework checks pass but the signer is not approved or the mint is not owned by Token-2022 |
| `SupportMint.Register` | programs/amm/src/instructions/admin/create_support_mint_associated.rs:15-50 | succeeds exactly when the account constraints hold, and otherwise reports the first failing check |
| `SupportMint.RegisterWritesOneAccount` | programs/amm/src/instructions/admin/create_support_mint_associated.rs:29-50 | success writes exactly one account, at the mint's derived address, which was vacant. It is then owned by the program and holds the derivation's bump and the mint. All other accounts are unchanged |
| `SupportMint.RegisterOnce` | programs/amm/src/instructions/admin/create_support_mint_associated.rs:29-39 | after a successful registration, every later registration of the same mint fails |
| `SupportMint.Ledger.CreateSupportMintAssociated` | programs/amm/src/instructions/admin/create_support_mint_associated.rs:44-50 | returns `Ok` exactly when the constraints hold and the accounts become `Register`'s result. Otherwise it returns the first failing check and the accounts are unchanged |

## Left out

- INI loading (`Ini::load`, `get`, `getfloat`, `getuint`) and the panics of its `unwrap`s on a missing key or an unparsable number: the model starts from the values read.
- Config.LoadCfg: the source `panic!`s on an empty required value (client/src/lib.rs:94-113) and never returns `Err`. The model returns `Failure(EmptyValue(key))` instead, naming the value the panic message names.
- TickArrays.LoadCurAndNextFiveTickArray: `pool_id_account.unwrap()` (client/src/lib.rs:215, 238) panics when no pool is configured. The model returns `None`.
- base58 decoding of the program id and the mints (`Pubkey::from_str(..).unwrap()`): keys arrive decoded. An empty value is `None`.
- `slippage`: a floating-point value with no logic attached. `ClientConfig` has no such field.
- `read_keypair_file`, `write_keypair_file` and `path_is_exist`: thin wrappers over the file system.
- The internals of `find_program_address` (SHA-256 and the off-curve bump search): it is the parameter `derive`.
- `PoolState::get_first_initialized_tick_array` and `next_initialized_tick_array_start_index` (the bitmap search and the floor division of ticks into arrays): they are not part of this model. Their results are an input start index and an oracle function.
- TickArrays.LoadCurAndNextFiveTickArray: the error results of the two bitmap oracles, which the source unwraps (panics on), are not modelled. The oracles are total.
- `get_multiple_accounts` and `deserialize_anchor_account`: one oracle `fetch` per key. `None` stands for a missing account, a failed decode, or a failed RPC call. The source panics on all three, and the model returns `None`.
- `get_token_accounts_by_owner`: its results are input sequences, one per token program. The `owner` filter the RPC node applies is not modelled.
- The JSON parsing of the token account's key, mint, amount and close authority, and their panics on malformed strings (client/src/lib.rs:302-315): records arrive parsed. The unused `_frozen` and `_close_authority` values are dropped.
- The framework's account-creation plumbing (`payer`, `space`, `system_program`, rent and lamports) and the `mut` marker on `owner`. The `SupportMintAssociated` record holds only `bump` and `mint`; any other fields of that account are not modelled.
- `client/src/instructions/mod.rs`: module declarations and re-exports only.
