/** Program-derived addresses. `Pubkey::find_program_address` hashes a seed
    list together with a program id and searches a one-byte bump; its
    internals are not modelled: callers pass it in as the function `derive`.
    What is fixed here is the exact byte layout of every seed list the core
    hands to it, and that the bytes hashed for two different accounts never
    coincide. */
module Pda {
  import opened Bytes

  type Seed = seq<byte>

  /** The pair `find_program_address` returns: the address and its bump. */
  datatype DerivedAddress = DerivedAddress(address: Pubkey, bump: byte)

  /** The shape of `Pubkey::find_program_address(seeds, program_id)`. */
  type Derive = (seq<Seed>, Pubkey) -> DerivedAddress

  /** `MAX_SEEDS` and `MAX_SEED_LEN` of the runtime: a derivation whose
      seed list, bump included, is longer, or has a longer seed, aborts. */
  const MAX_SEEDS: nat := 16
  const MAX_SEED_LEN: nat := 32

  /** Seeds `find_program_address` accepts: it appends the bump as one more
      seed, so at most `MAX_SEEDS - 1` may be passed in. */
  predicate WellFormedSeeds(seeds: seq<Seed>) {
    |seeds| < MAX_SEEDS && forall i :: 0 <= i < |seeds| ==> |seeds[i]| <= MAX_SEED_LEN
  }

  // The domain tags of the program's account kinds.
  const AMM_CONFIG_SEED: seq<byte> := AsciiBytes("amm_config")
  const POOL_SEED: seq<byte> := AsciiBytes("pool")
  const POOL_TICK_ARRAY_BITMAP_SEED: seq<byte> := AsciiBytes("pool_tick_array_bitmap_extension")
  const TICK_ARRAY_SEED: seq<byte> := AsciiBytes("tick_array")
  const POSITION_SEED: seq<byte> := AsciiBytes("position")
  const SUPPORT_MINT_SEED: seq<byte> := AsciiBytes("support_mint")

  /** `[AMM_CONFIG_SEED, index.to_be_bytes()]`. */
  function AmmConfigSeeds(index: u16): (s: seq<Seed>)
    ensures WellFormedSeeds(s)
  {
    [AMM_CONFIG_SEED, U16BeBytes(index)]
  }

  /** `[POOL_SEED, amm_config, mint0, mint1]`. */
  function PoolSeeds(ammConfig: Pubkey, mint0: Pubkey, mint1: Pubkey): (s: seq<Seed>)
    ensures WellFormedSeeds(s)
  {
    [POOL_SEED, ammConfig, mint0, mint1]
  }

  /** `[POOL_TICK_ARRAY_BITMAP_SEED, pool]`. */
  function BitmapExtensionSeeds(pool: Pubkey): (s: seq<Seed>)
    ensures WellFormedSeeds(s)
  {
    [POOL_TICK_ARRAY_BITMAP_SEED, pool]
  }

  /** `[TICK_ARRAY_SEED, pool, start_index.to_be_bytes()]`. */
  function TickArraySeeds(pool: Pubkey, startIndex: i32): (s: seq<Seed>)
    ensures WellFormedSeeds(s)
  {
    [TICK_ARRAY_SEED, pool, I32BeBytes(startIndex)]
  }

  /** `[POSITION_SEED, position_nft_mint]`. */
  function PositionSeeds(nftMint: Pubkey): (s: seq<Seed>)
    ensures WellFormedSeeds(s)
  {
    [POSITION_SEED, nftMint]
  }

  /** `[SUPPORT_MINT_SEED, token_mint]`. */
  function SupportMintSeeds(tokenMint: Pubkey): (s: seq<Seed>)
    ensures WellFormedSeeds(s)
  {
    [SUPPORT_MINT_SEED, tokenMint]
  }

  const DOMAIN_TAGS: seq<seq<byte>> :=
    [AMM_CONFIG_SEED, POOL_SEED, POOL_TICK_ARRAY_BITMAP_SEED, TICK_ARRAY_SEED, POSITION_SEED, SUPPORT_MINT_SEED]

  /** The six domain tags are pairwise different. */
  lemma DomainTagsDistinct()
    ensures forall i, j :: 0 <= i < j < |DOMAIN_TAGS| ==> DOMAIN_TAGS[i] != DOMAIN_TAGS[j]
  {
    assert AMM_CONFIG_SEED[0] != TICK_ARRAY_SEED[0];
  }

  /** The six kinds of account the core derives an address for, each with
      the values its seeds are made of. */
  datatype AccountKind =
    | AmmConfigKind(index: u16)
    | PoolKind(ammConfig: Pubkey, mint0: Pubkey, mint1: Pubkey)
    | BitmapExtensionKind(pool: Pubkey)
    | TickArrayKind(pool: Pubkey, startIndex: i32)
    | PositionKind(nftMint: Pubkey)
    | SupportMintKind(tokenMint: Pubkey)

  function KindSeeds(k: AccountKind): seq<Seed> {
    match k
    case AmmConfigKind(index) => AmmConfigSeeds(index)
    case PoolKind(ammConfig, mint0, mint1) => PoolSeeds(ammConfig, mint0, mint1)
    case BitmapExtensionKind(pool) => BitmapExtensionSeeds(pool)
    case TickArrayKind(pool, startIndex) => TickArraySeeds(pool, startIndex)
    case PositionKind(nftMint) => PositionSeeds(nftMint)
    case SupportMintKind(tokenMint) => SupportMintSeeds(tokenMint)
  }

  /** The seeds joined end to end. */
  function Flatten(seeds: seq<Seed>): seq<byte> {
    if seeds == [] then [] else seeds[0] + Flatten(seeds[1..])
  }

  /** What the runtime hashes for a seed list and a bump, ahead of the
      program id and its fixed marker: the seeds and then the one-byte bump
      seed, joined end to end. Seed boundaries are not part of the input. */
  function HashedSeedBytes(seeds: seq<Seed>, bump: byte): seq<byte> {
    Flatten(seeds) + [bump]
  }

  lemma FlattenCons(s: Seed, rest: seq<Seed>)
    ensures Flatten([s] + rest) == s + Flatten(rest)
  {
    assert ([s] + rest)[1..] == rest;
  }

  lemma FlattenTwo(s: Seed, t: Seed)
    ensures Flatten([s, t]) == s + t
  {
    FlattenCons(t, []);
    FlattenCons(s, [t]);
    assert [s] + [t] == [s, t];
    assert [t] + [] == [t];
  }

  /** Each kind's hashed bytes, field by field. */
  lemma KindLayout(k: AccountKind, bump: byte)
    ensures HashedSeedBytes(KindSeeds(k), bump) == match k
      case AmmConfigKind(index) => AMM_CONFIG_SEED + U16BeBytes(index) + [bump]
      case PoolKind(ammConfig, mint0, mint1) => POOL_SEED + ammConfig + mint0 + mint1 + [bump]
      case BitmapExtensionKind(pool) => POOL_TICK_ARRAY_BITMAP_SEED + pool + [bump]
      case TickArrayKind(pool, startIndex) => TICK_ARRAY_SEED + pool + I32BeBytes(startIndex) + [bump]
      case PositionKind(nftMint) => POSITION_SEED + nftMint + [bump]
      case SupportMintKind(tokenMint) => SUPPORT_MINT_SEED + tokenMint + [bump]
  {
    match k
    case AmmConfigKind(index) =>
      FlattenTwo(AMM_CONFIG_SEED, U16BeBytes(index));
    case PoolKind(ammConfig, mint0, mint1) =>
      FlattenTwo(mint0, mint1);
      FlattenCons(ammConfig, [mint0, mint1]);
      assert [ammConfig] + [mint0, mint1] == [ammConfig, mint0, mint1];
      FlattenCons(POOL_SEED, [ammConfig, mint0, mint1]);
      assert [POOL_SEED] + [ammConfig, mint0, mint1] == PoolSeeds(ammConfig, mint0, mint1);
    case BitmapExtensionKind(pool) =>
      FlattenTwo(POOL_TICK_ARRAY_BITMAP_SEED, pool);
    case TickArrayKind(pool, startIndex) =>
      FlattenTwo(pool, I32BeBytes(startIndex));
      FlattenCons(TICK_ARRAY_SEED, [pool, I32BeBytes(startIndex)]);
      assert [TICK_ARRAY_SEED] + [pool, I32BeBytes(startIndex)] == TickArraySeeds(pool, startIndex);
    case PositionKind(nftMint) =>
      FlattenTwo(POSITION_SEED, nftMint);
    case SupportMintKind(tokenMint) =>
      FlattenTwo(SUPPORT_MINT_SEED, tokenMint);
  }

  /** How many bytes the runtime hashes, ahead of the program id, for each kind. */
  function HashedLength(k: AccountKind): nat {
    match k
    case AmmConfigKind(_) => 13
    case PoolKind(_, _, _) => 101
    case BitmapExtensionKind(_) => 65
    case TickArrayKind(_, _) => 47
    case PositionKind(_) => 41
    case SupportMintKind(_) => 45
  }

  lemma KindLength(k: AccountKind, bump: byte)
    ensures |HashedSeedBytes(KindSeeds(k), bump)| == HashedLength(k)
  {
    KindLayout(k, bump);
  }

  /** The hashed bytes determine the account: equal inputs to the hash mean
      the same kind of account, built from the same values, with the same
      bump. So no two kinds ever share a hash input, and within a kind the
      layout is injective (the kinds' inputs have 13, 101, 65, 47, 41 and
      45 bytes). */
  lemma {:induction false} HashedSeedBytesInjective(k: AccountKind, bump: byte, k': AccountKind, bump': byte)
    ensures HashedSeedBytes(KindSeeds(k), bump) == HashedSeedBytes(KindSeeds(k'), bump') <==> k == k' && bump == bump'
  {
    var x, y := HashedSeedBytes(KindSeeds(k), bump), HashedSeedBytes(KindSeeds(k'), bump');
    if x == y {
      KindLength(k, bump);
      KindLength(k', bump');
      assert x[|x| - 1] == bump && y[|y| - 1] == bump';
      match k
      case AmmConfigKind(index) =>
        assert k'.AmmConfigKind?;
        KindLayout(k, bump);
        KindLayout(k', bump');
        assert x[10..12] == U16BeBytes(index) && y[10..12] == U16BeBytes(k'.index);
        U16BeInjective(index, k'.index);
      case PoolKind(ammConfig, mint0, mint1) =>
        assert k'.PoolKind?;
        KindLayout(k, bump);
        KindLayout(k', bump');
        assert x[4..36] == ammConfig && y[4..36] == k'.ammConfig;
        assert x[36..68] == mint0 && y[36..68] == k'.mint0;
        assert x[68..100] == mint1 && y[68..100] == k'.mint1;
      case BitmapExtensionKind(pool) =>
        assert k'.BitmapExtensionKind?;
        KindLayout(k, bump);
        KindLayout(k', bump');
        assert x[32..64] == pool && y[32..64] == k'.pool;
      case TickArrayKind(pool, startIndex) =>
        assert k'.TickArrayKind?;
        KindLayout(k, bump);
        KindLayout(k', bump');
        assert x[10..42] == pool && y[10..42] == k'.pool;
        assert x[42..46] == I32BeBytes(startIndex) && y[42..46] == I32BeBytes(k'.startIndex);
        I32BeInjective(startIndex, k'.startIndex);
      case PositionKind(nftMint) =>
        assert k'.PositionKind?;
        KindLayout(k, bump);
        KindLayout(k', bump');
        assert x[8..40] == nftMint && y[8..40] == k'.nftMint;
      case SupportMintKind(tokenMint) =>
        assert k'.SupportMintKind?;
        KindLayout(k, bump);
        KindLayout(k', bump');
        assert x[12..44] == tokenMint && y[12..44] == k'.tokenMint;
    }
  }
}
