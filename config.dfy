/** `load_cfg` after the INI file has been read: the required values are
    checked for emptiness, the AMM-config address is derived from the index,
    a configured mint pair is put into byte order and the pool and its
    bitmap-extension addresses are derived from it. */
module Config {
  import opened Wrappers
  import opened Bytes
  import opened Pda

  /** The values `load_cfg` reads from the INI file. An optional key is
      `None` when its value is the empty string; the keys are already
      decoded from base58. */
  datatype IniValues = IniValues(
    httpUrl: string,
    wsUrl: string,
    payerPath: string,
    adminPath: string,
    raydiumV3Program: Option<Pubkey>,
    mint0: Option<Pubkey>,
    mint1: Option<Pubkey>,
    ammConfigIndex: u64)

  /** `ClientConfig` without `slippage`. */
  datatype ClientConfig = ClientConfig(
    httpUrl: string,
    wsUrl: string,
    payerPath: string,
    adminPath: string,
    raydiumV3Program: Pubkey,
    ammConfigKey: Pubkey,
    mint0: Option<Pubkey>,
    mint1: Option<Pubkey>,
    poolIdAccount: Option<Pubkey>,
    tickarrayBitmapExtension: Option<Pubkey>,
    ammConfigIndex: u16)

  /** Loading aborts on the first required value that is empty. */
  datatype ConfigError = EmptyValue(key: string)

  /** Some required value is empty. */
  predicate MissingRequired(ini: IniValues) {
    ini.httpUrl == [] || ini.wsUrl == [] || ini.payerPath == [] || ini.adminPath == []
    || ini.raydiumV3Program.None?
  }

  /** A mint pair in canonical order: swapped when the first is the greater. */
  function OrderedPair(a: Pubkey, b: Pubkey): (r: (Pubkey, Pubkey))
    ensures LessEq(r.0, r.1)
    ensures r == (a, b) || r == (b, a)
  {
    LessTotal(a, b);
    if Less(b, a) then (b, a) else (a, b)
  }

  /** Listing a pair either way round gives the same canonical pair. */
  lemma OrderedPairSymmetric(a: Pubkey, b: Pubkey)
    ensures OrderedPair(a, b) == OrderedPair(b, a)
  {
    LessAsymmetric(a, b);
  }

  /** The address of the pool of an AMM config and an unordered mint pair:
      the seeds list the byte-wise smaller mint first. */
  function PoolAddress(derive: Derive, program: Pubkey, ammConfig: Pubkey, a: Pubkey, b: Pubkey): (pool: Pubkey)
    ensures LessEq(a, b) ==> pool == derive(PoolSeeds(ammConfig, a, b), program).address
    ensures LessEq(b, a) ==> pool == derive(PoolSeeds(ammConfig, b, a), program).address
  {
    LessAsymmetric(a, b);
    LessIrreflexive(a);
    var (mint0, mint1) := OrderedPair(a, b);
    derive(PoolSeeds(ammConfig, mint0, mint1), program).address
  }

  /** Mint-order invariance: both listings of a pair name the same pool. */
  lemma PoolAddressOrderInvariant(derive: Derive, program: Pubkey, ammConfig: Pubkey, a: Pubkey, b: Pubkey)
    ensures PoolAddress(derive, program, ammConfig, a, b) == PoolAddress(derive, program, ammConfig, b, a)
  {
    OrderedPairSymmetric(a, b);
  }

  method LoadCfg(ini: IniValues, derive: Derive) returns (r: Result<ClientConfig, ConfigError>)
    ensures r.Failure? <==> MissingRequired(ini)
    ensures ini.httpUrl == [] ==> r == Failure(EmptyValue("http_url"))
    ensures ini.httpUrl != [] && ini.wsUrl == [] ==> r == Failure(EmptyValue("ws_url"))
    ensures ini.httpUrl != [] && ini.wsUrl != [] && ini.payerPath == [] ==> r == Failure(EmptyValue("payer_path"))
    ensures ini.httpUrl != [] && ini.wsUrl != [] && ini.payerPath != [] && ini.adminPath == []
            ==> r == Failure(EmptyValue("admin_path"))
    ensures (ini.httpUrl != [] && ini.wsUrl != [] && ini.payerPath != [] && ini.adminPath != []
             && ini.raydiumV3Program.None?) ==> r == Failure(EmptyValue("raydium_v3_program"))
    ensures r.Success? ==>
      var c := r.value;
      && c.httpUrl == ini.httpUrl && c.wsUrl == ini.wsUrl
      && c.payerPath == ini.payerPath && c.adminPath == ini.adminPath
      && Some(c.raydiumV3Program) == ini.raydiumV3Program
      // `as u16` keeps the low 16 bits of the configured index
      && c.ammConfigIndex == ini.ammConfigIndex % 0x1_0000
      && c.ammConfigKey == derive(AmmConfigSeeds(c.ammConfigIndex), c.raydiumV3Program).address
      && (c.poolIdAccount.Some? <==> ini.mint0.Some? && ini.mint1.Some?)
      && (c.tickarrayBitmapExtension.Some? <==> c.poolIdAccount.Some?)
    ensures r.Success? && ini.mint0.Some? && ini.mint1.Some? ==>
      var c := r.value;
      && c.mint0.Some? && c.mint1.Some?
      && LessEq(c.mint0.value, c.mint1.value)
      && (c.mint0.value, c.mint1.value) == OrderedPair(ini.mint0.value, ini.mint1.value)
      && c.poolIdAccount.value
         == PoolAddress(derive, c.raydiumV3Program, c.ammConfigKey, ini.mint0.value, ini.mint1.value)
      && c.tickarrayBitmapExtension.value
         == derive(BitmapExtensionSeeds(c.poolIdAccount.value), c.raydiumV3Program).address
    ensures r.Success? && !(ini.mint0.Some? && ini.mint1.Some?) ==>
      r.value.mint0 == ini.mint0 && r.value.mint1 == ini.mint1
  {
    if ini.httpUrl == [] {
      return Failure(EmptyValue("http_url"));
    }
    if ini.wsUrl == [] {
      return Failure(EmptyValue("ws_url"));
    }
    if ini.payerPath == [] {
      return Failure(EmptyValue("payer_path"));
    }
    if ini.adminPath == [] {
      return Failure(EmptyValue("admin_path"));
    }
    if ini.raydiumV3Program.None? {
      return Failure(EmptyValue("raydium_v3_program"));
    }
    var program := ini.raydiumV3Program.value;
    var mint0 := ini.mint0;
    var mint1 := ini.mint1;
    var ammConfigIndex: u16 := ini.ammConfigIndex % 0x1_0000;
    var ammConfigKey := derive(AmmConfigSeeds(ammConfigIndex), program).address;

    var poolIdAccount: Option<Pubkey> := None;
    if mint0.Some? && mint1.Some? {
      LessTotal(mint0.value, mint1.value);
      if Less(mint1.value, mint0.value) {
        var tempMint := mint0;
        mint0 := mint1;
        mint1 := tempMint;
      }
      poolIdAccount := Some(derive(PoolSeeds(ammConfigKey, mint0.value, mint1.value), program).address);
    }
    var tickarrayBitmapExtension: Option<Pubkey> := None;
    if poolIdAccount.Some? {
      tickarrayBitmapExtension := Some(derive(BitmapExtensionSeeds(poolIdAccount.value), program).address);
    }

    r := Success(ClientConfig(ini.httpUrl, ini.wsUrl, ini.payerPath, ini.adminPath, program, ammConfigKey,
                              mint0, mint1, poolIdAccount, tickarrayBitmapExtension, ammConfigIndex));
  }
}
