/** `load_cur_and_next_five_tick_array`: starting from the first initialized
    tick array in the swap direction, follow the bitmap's "next initialized
    start index" at most five times, derive each tick array's address, then
    fetch and decode the arrays in that order. The bitmap search itself
    (`PoolState::get_first_initialized_tick_array` and
    `next_initialized_tick_array_start_index`, for one pool, one bitmap
    extension and one direction) is an oracle given by the caller. */
module TickArrays {
  import opened Wrappers
  import opened Bytes
  import opened Pda
  import opened Config

  /** The lookahead budget: the countdown's initial `max_array_size`. */
  const LOOKAHEAD: nat := 5

  /** `next_initialized_tick_array_start_index` for a fixed pool, bitmap
      extension and direction; `None` when no initialized array lies beyond. */
  type NextStartIndex = i32 -> Option<i32>

  /** The start indices collected from `start`, following `next` at most `budget` times. */
  function Lookahead(start: i32, next: NextStartIndex, budget: nat): (r: seq<i32>)
    ensures 1 <= |r| <= budget + 1
    ensures r[0] == start
    decreases budget
  {
    if budget == 0 then [start]
    else match next(start)
      case None => [start]
      case Some(n) => [start] + Lookahead(n, next, budget - 1)
  }

  /** Each element after the first is the oracle's "next" of the one before it. */
  predicate LinkedBy(s: seq<i32>, next: NextStartIndex) {
    forall i :: 0 <= i < |s| - 1 ==> next(s[i]) == Some(s[i + 1])
  }

  /** Each collected index after the first is the oracle's "next" of the one before it. */
  lemma {:induction false} LookaheadLinks(start: i32, next: NextStartIndex, budget: nat)
    ensures LinkedBy(Lookahead(start, next, budget), next)
    decreases budget
  {
    if budget > 0 && next(start).Some? {
      var r := Lookahead(start, next, budget);
      var rest := Lookahead(next(start).value, next, budget - 1);
      LookaheadLinks(next(start).value, next, budget - 1);
      assert r == [start] + rest;
      forall i | 0 <= i < |r| - 1
        ensures next(r[i]) == Some(r[i + 1])
      {
        if i > 0 {
          assert r[i] == rest[i - 1] && r[i + 1] == rest[i];
        }
      }
    }
  }

  /** Collection ends early only at an index whose "next" is `None`. */
  lemma {:induction false} LookaheadStopsOnNone(start: i32, next: NextStartIndex, budget: nat)
    ensures var r := Lookahead(start, next, budget);
      |r| <= budget ==> next(r[|r| - 1]).None?
    decreases budget
  {
    if budget > 0 && next(start).Some? {
      LookaheadStopsOnNone(next(start).value, next, budget - 1);
    }
  }

  /** Starting at `start`, linking by `next`, and stopping only on `None` or
      on the budget determine the collected sequence: any sequence with these
      three properties is `Lookahead`. */
  lemma {:induction false} LookaheadUnique(s: seq<i32>, start: i32, next: NextStartIndex, budget: nat)
    requires 1 <= |s| <= budget + 1 && s[0] == start
    requires LinkedBy(s, next)
    requires |s| <= budget ==> next(s[|s| - 1]).None?
    ensures s == Lookahead(start, next, budget)
    decreases budget
  {
    if |s| > 1 {
      assert next(s[0]) == Some(s[1]);
      LookaheadUnique(s[1..], s[1], next, budget - 1);
      assert s == [start] + s[1..];
    }
  }

  /** Strictly increasing when `up`, strictly decreasing otherwise. */
  predicate StrictlyMonotone(s: seq<i32>, up: bool) {
    forall i, j :: 0 <= i < j < |s| ==> if up then s[i] < s[j] else s[i] > s[j]
  }

  /** The oracle always moves strictly up (`up`) or strictly down. */
  predicate MovesStrictly(next: NextStartIndex, up: bool) {
    forall x: i32 :: next(x).Some? ==> if up then next(x).value > x else next(x).value < x
  }

  /** With an oracle that always moves strictly up (a swap raising the
      price), the collected start indices strictly increase; with one that
      always moves strictly down, they strictly decrease. */
  lemma {:induction false} LookaheadMonotone(start: i32, next: NextStartIndex, budget: nat, up: bool)
    requires MovesStrictly(next, up)
    ensures StrictlyMonotone(Lookahead(start, next, budget), up)
    decreases budget
  {
    if budget > 0 && next(start).Some? {
      var r := Lookahead(start, next, budget);
      var rest := Lookahead(next(start).value, next, budget - 1);
      LookaheadMonotone(next(start).value, next, budget - 1, up);
      assert r == [start] + rest;
      forall i, j | 0 <= i < j < |r|
        ensures if up then r[i] < r[j] else r[i] > r[j]
      {
        assert r[j] == rest[j - 1];
        if i > 0 {
          assert r[i] == rest[i - 1];
        } else if j > 1 {
          assert if up then rest[0] < rest[j - 1] else rest[0] > rest[j - 1];
        }
      }
    }
  }

  /** One turn of the countdown: `Lookahead` unfolded once. */
  lemma LookaheadStep(current: i32, next: NextStartIndex, budget: nat)
    ensures budget == 0 || next(current).None? ==> Lookahead(current, next, budget) == [current]
    ensures budget > 0 && next(current).Some? ==>
      Lookahead(current, next, budget) == [current] + Lookahead(next(current).value, next, budget - 1)
  {
  }

  /** The countdown's invariant survives one more collected index. */
  lemma LookaheadAdvance(done: seq<i32>, current: i32, next: NextStartIndex, budget: nat)
    requires budget > 0 && next(current).Some?
    ensures done + Lookahead(current, next, budget)
         == (done + [current]) + Lookahead(next(current).value, next, budget - 1)
  {
    LookaheadStep(current, next, budget);
  }

  /** The countdown's invariant when it stops: nothing more to collect. */
  lemma LookaheadFinish(done: seq<i32>, current: i32, next: NextStartIndex, budget: nat)
    requires budget == 0 || next(current).None?
    ensures done + Lookahead(current, next, budget) == done + [current]
  {
    LookaheadStep(current, next, budget);
  }

  /** The address of a tick array: `[TICK_ARRAY_SEED, pool, start_index.to_be_bytes()]`. */
  function TickArrayAddress(derive: Derive, program: Pubkey, pool: Pubkey, startIndex: i32): Pubkey {
    derive(TickArraySeeds(pool, startIndex), program).address
  }

  /** The addresses of the tick arrays at `starts`, in order. */
  function TickArrayKeys(derive: Derive, program: Pubkey, pool: Pubkey, starts: seq<i32>): (keys: seq<Pubkey>)
    ensures |keys| == |starts|
    decreases |starts|
  {
    if starts == [] then []
    else TickArrayKeys(derive, program, pool, starts[..|starts| - 1])
         + [TickArrayAddress(derive, program, pool, starts[|starts| - 1])]
  }

  /** The `i`-th key is the address of the `i`-th start index. */
  lemma {:induction false} TickArrayKeysAt(derive: Derive, program: Pubkey, pool: Pubkey, starts: seq<i32>)
    ensures var keys := TickArrayKeys(derive, program, pool, starts);
      forall i :: 0 <= i < |starts| ==> keys[i] == TickArrayAddress(derive, program, pool, starts[i])
    decreases |starts|
  {
    if starts != [] {
      TickArrayKeysAt(derive, program, pool, starts[..|starts| - 1]);
    }
  }

  lemma TickArrayKeysAppend(derive: Derive, program: Pubkey, pool: Pubkey, starts: seq<i32>, start: i32)
    ensures TickArrayKeys(derive, program, pool, starts + [start])
         == TickArrayKeys(derive, program, pool, starts) + [TickArrayAddress(derive, program, pool, start)]
  {
    assert (starts + [start])[..|starts|] == starts;
  }

  /** The countdown loop: the keys of the current tick array and of up to
      `LOOKAHEAD` further initialized ones, with their start indices. */
  method CollectTickArrayKeys(program: Pubkey, pool: Pubkey, first: i32, next: NextStartIndex, derive: Derive)
    returns (keys: seq<Pubkey>, starts: seq<i32>)
    ensures starts == Lookahead(first, next, LOOKAHEAD)
    ensures keys == TickArrayKeys(derive, program, pool, starts)
  {
    var current := first;
    starts := [current];
    keys := [TickArrayAddress(derive, program, pool, current)];
    assert starts[..0] == [];
    var maxArraySize := LOOKAHEAD;
    ghost var target := Lookahead(first, next, LOOKAHEAD);
    // the indices still to come are those of `Lookahead(current, next, maxArraySize)` after its first
    ghost var done: seq<i32> := [];
    while maxArraySize != 0
      invariant starts == done + [current]
      invariant done + Lookahead(current, next, maxArraySize) == target
      invariant keys == TickArrayKeys(derive, program, pool, starts)
      decreases maxArraySize
    {
      var nextTickArrayIndex := next(current);
      if nextTickArrayIndex.None? {
        break;
      }
      LookaheadAdvance(done, current, next, maxArraySize);
      done := done + [current];
      current := nextTickArrayIndex.value;
      TickArrayKeysAppend(derive, program, pool, starts, current);
      starts := starts + [current];
      keys := keys + [TickArrayAddress(derive, program, pool, current)];
      maxArraySize := maxArraySize - 1;
    }
    LookaheadFinish(done, current, next, maxArraySize);
  }

  /** The batch fetch and decode: one decoded array per key, in key order;
      `None` when some account is missing or does not decode (the source
      panics there). */
  method DecodeTickArrays<T>(keys: seq<Pubkey>, fetch: Pubkey -> Option<T>) returns (r: Option<seq<T>>)
    ensures r.Some? <==> forall i :: 0 <= i < |keys| ==> fetch(keys[i]).Some?
    ensures r.Some? ==> |r.value| == |keys|
    ensures r.Some? ==> forall i :: 0 <= i < |keys| ==> fetch(keys[i]) == Some(r.value[i])
  {
    var tickArrays: seq<T> := [];
    for i := 0 to |keys|
      invariant |tickArrays| == i
      invariant forall k :: 0 <= k < i ==> fetch(keys[k]) == Some(tickArrays[k])
    {
      var tickArray := fetch(keys[i]);
      if tickArray.None? {
        return None;
      }
      tickArrays := tickArrays + [tickArray.value];
    }
    r := Some(tickArrays);
  }

  /** The whole loader. `first` is the start index
      `get_first_initialized_tick_array` returns; `next` the bitmap's
      successor function; `fetch` the account fetch and decode. `None` when
      the config has no pool or some tick array fails to load. */
  method LoadCurAndNextFiveTickArray<T>(cfg: ClientConfig, first: i32, next: NextStartIndex,
                                        fetch: Pubkey -> Option<T>, derive: Derive)
    returns (r: Option<seq<T>>)
    ensures cfg.poolIdAccount.None? ==> r.None?
    ensures cfg.poolIdAccount.Some? ==>
      var keys := TickArrayKeys(derive, cfg.raydiumV3Program, cfg.poolIdAccount.value, Lookahead(first, next, LOOKAHEAD));
      && (r.Some? <==> forall i :: 0 <= i < |keys| ==> fetch(keys[i]).Some?)
      && (r.Some? ==> |r.value| == |keys| && forall i :: 0 <= i < |keys| ==> fetch(keys[i]) == Some(r.value[i]))
    ensures r.Some? ==> 1 <= |r.value| <= LOOKAHEAD + 1
  {
    if cfg.poolIdAccount.None? {
      return None;
    }
    var keys, starts := CollectTickArrayKeys(cfg.raydiumV3Program, cfg.poolIdAccount.value, first, next, derive);
    r := DecodeTickArrays(keys, fetch);
  }
}
