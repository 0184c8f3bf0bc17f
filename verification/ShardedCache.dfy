/** A cache split into a power-of-two number of shards answers like one plain map. */
module ShardedCache {
  import opened Arithmetic
  import opened DataPlane

  // ---------------------------------------------------------------- masks

  /** Bitwise and of two non-negative numbers. */
  function BitAnd(a: nat, b: nat): nat {
    if a == 0 || b == 0 then 0 else 2 * BitAnd(a / 2, b / 2) + (if a % 2 == 1 && b % 2 == 1 then 1 else 0)
  }

  function Pow2(e: nat): nat {
    if e == 0 then 1 else 2 * Pow2(e - 1)
  }

  ghost predicate IsPow2(n: int) {
    exists e: nat :: n == Pow2(e)
  }

  lemma {:induction false} AndSelf(a: nat)
    ensures BitAnd(a, a) == a
  {
    if a > 0 {
      AndSelf(a / 2);
    }
  }

  lemma {:induction false} Pow2Positive(e: nat)
    ensures Pow2(e) > 0
  {
    if e > 0 {
      Pow2Positive(e - 1);
    }
  }

  lemma HalfPow2(n: nat)
    requires n > 0
    ensures IsPow2(2 * n) <==> IsPow2(n)
  {
    if e: nat :| 2 * n == Pow2(e) {
      assert e > 0;
      assert n == Pow2(e - 1);
    }
    if e: nat :| n == Pow2(e) {
      assert 2 * n == Pow2(e + 1);
    }
  }

  lemma OddPow2(n: nat)
    requires n % 2 == 1 && n > 1
    ensures !IsPow2(n)
  {
    forall e: nat
      ensures n != Pow2(e)
    {
      if e > 0 {
        assert Pow2(e) == 2 * Pow2(e - 1);
      }
    }
  }

  /** The test `n & (n - 1) == 0` accepts exactly the powers of two. */
  lemma {:induction false} MaskTestIsPow2(n: nat)
    requires n > 0
    ensures BitAnd(n, n - 1) == 0 <==> IsPow2(n)
  {
    if n == 1 {
      assert 1 == Pow2(0);
    } else if n % 2 == 1 {
      assert (n - 1) / 2 == n / 2;
      AndSelf(n / 2);
      OddPow2(n);
    } else {
      assert (n - 1) / 2 == n / 2 - 1;
      MaskTestIsPow2(n / 2);
      HalfPow2(n / 2);
    }
  }

  lemma HalfMod(h: nat, m: nat)
    requires m > 0
    ensures h % (2 * m) == 2 * ((h / 2) % m) + h % 2
  {
    var q, r := (h / 2) / m, (h / 2) % m;
    assert h == 2 * (q * m + r) + h % 2;
    assert h == q * (2 * m) + (2 * r + h % 2);
    DivModUnique(h, 2 * m, q, 2 * r + h % 2);
  }

  /** The low bit of a mask of ones is taken over, the rest is masked alike. */
  lemma AndOnes(h: nat, m: nat)
    requires m > 0
    ensures BitAnd(h, 2 * m - 1) == 2 * BitAnd(h / 2, m - 1) + h % 2
  {
    assert (2 * m - 1) / 2 == m - 1 && (2 * m - 1) % 2 == 1;
  }

  /** Masking with a power of two less one is reduction modulo that power. */
  lemma {:induction false} MaskIsMod(h: nat, e: nat)
    ensures Pow2(e) > 0 && BitAnd(h, Pow2(e) - 1) == h % Pow2(e)
    decreases e
  {
    Pow2Positive(e);
    if e > 0 {
      MaskIsMod(h / 2, e - 1);
      AndOnes(h, Pow2(e - 1));
      HalfMod(h, Pow2(e - 1));
    }
  }

  // ---------------------------------------------------------------- the caches

  const DEFAULT_NUM_SHARDS := 16

  class BasicMapCache {
    var data: Store

    constructor ()
      ensures data == map[]
    {
      data := map[];
    }

    method Lookup(key: string) returns (value: string)
      ensures value == Get(data, key)
    {
      value := if key in data then data[key] else "";
    }

    method PutValue(key: string, value: string)
      modifies this
      ensures data == Apply(old(data), Put(key, value))
    {
      data := data[key := value];
    }

    method DeleteKey(key: string)
      modifies this
      ensures data == Apply(old(data), Delete(key))
    {
      data := data - {key};
    }
  }

  /** `contents` is the plain map the shards stand for. */
  class ShardedMapCache {
    const hash: string -> nat
    const shardMask: nat
    const shards: array<Store>
    ghost var contents: Store

    /** Each key is looked up in the shard its hash selects, and the shards agree with `contents`. */
    ghost predicate Valid()
      reads this, shards
    {
      && shards.Length > 0 && IsPow2(shards.Length) && shardMask == shards.Length - 1
      && forall key :: InStep(key)
    }

    ghost predicate InStep(key: string)
      requires shards.Length > 0
      reads this, shards
    {
      var shard := shards[hash(key) % shards.Length];
      (key in shard <==> key in contents) && (key in shard ==> shard[key] == contents[key])
    }

    constructor (numShards: int, hash: string -> nat)
      ensures Valid() && contents == map[] && this.hash == hash && fresh(shards)
      ensures shards.Length == if numShards > 0 && IsPow2(numShards) then numShards else 16
    {
      var n := if numShards <= 0 || BitAnd(numShards, numShards - 1) != 0 then DEFAULT_NUM_SHARDS else numShards;
      this.hash := hash;
      shardMask := n - 1;
      shards := new Store[n](_ => map[]);
      contents := map[];
      new;
      assert Pow2(4) == 16;
      if numShards > 0 {
        MaskTestIsPow2(numShards);
      }
    }

    method GetShard(key: string) returns (index: nat)
      requires Valid()
      ensures index == hash(key) % shards.Length
    {
      index := BitAnd(hash(key), shardMask);
      ghost var e: nat :| shards.Length == Pow2(e);
      MaskIsMod(hash(key), e);
    }

    method Lookup(key: string) returns (value: string)
      requires Valid()
      ensures value == Get(contents, key)
    {
      var i := GetShard(key);
      assert InStep(key);
      value := if key in shards[i] then shards[i][key] else "";
    }

    method PutValue(key: string, value: string)
      requires Valid()
      modifies this, shards
      ensures Valid() && contents == Apply(old(contents), Put(key, value))
    {
      var i := GetShard(key);
      shards[i] := shards[i][key := value];
      contents := contents[key := value];
      assert forall k :: old(InStep(k)) ==> InStep(k);
    }

    method DeleteKey(key: string)
      requires Valid()
      modifies this, shards
      ensures Valid() && contents == Apply(old(contents), Delete(key))
    {
      var i := GetShard(key);
      shards[i] := shards[i] - {key};
      contents := contents - {key};
      assert forall k :: old(InStep(k)) ==> InStep(k);
    }
  }

  // ---------------------------------------------------------------- runs

  datatype CacheOp = Reading(key: string) | Writing(w: Write)

  /** The plain map after the first `n` operations. */
  function After(ops: seq<CacheOp>, n: nat): Store
    requires n <= |ops|
  {
    if n == 0 then map[]
    else if ops[n - 1].Writing? then Apply(After(ops, n - 1), ops[n - 1].w)
    else After(ops, n - 1)
  }

  /** What a plain map answers to the lookups among the first `n` operations. */
  function Answers(ops: seq<CacheOp>, n: nat): seq<string>
    requires n <= |ops|
  {
    if n == 0 then []
    else if ops[n - 1].Reading? then Answers(ops, n - 1) + [Get(After(ops, n - 1), ops[n - 1].key)]
    else Answers(ops, n - 1)
  }

  /** For every requested shard count and hash function, every sequence of operations on a new
      sharded cache gets the answers of a plain map. */
  method RunSharded(numShards: int, hash: string -> nat, ops: seq<CacheOp>) returns (answers: seq<string>)
    ensures answers == Answers(ops, |ops|)
  {
    var cache := new ShardedMapCache(numShards, hash);
    answers := [];
    for i := 0 to |ops|
      invariant fresh(cache) && fresh(cache.shards) && cache.Valid()
      invariant cache.contents == After(ops, i) && answers == Answers(ops, i)
    {
      match ops[i] {
        case Reading(key) =>
          var a := cache.Lookup(key);
          answers := answers + [a];
        case Writing(Put(key, value)) => cache.PutValue(key, value);
        case Writing(Delete(key)) => cache.DeleteKey(key);
      }
    }
  }

  /** The same sequence on a new plain map cache. */
  method RunBasic(ops: seq<CacheOp>) returns (answers: seq<string>)
    ensures answers == Answers(ops, |ops|)
  {
    var cache := new BasicMapCache();
    answers := [];
    for i := 0 to |ops|
      invariant fresh(cache)
      invariant cache.data == After(ops, i) && answers == Answers(ops, i)
    {
      match ops[i] {
        case Reading(key) =>
          var a := cache.Lookup(key);
          answers := answers + [a];
        case Writing(Put(key, value)) => cache.PutValue(key, value);
        case Writing(Delete(key)) => cache.DeleteKey(key);
      }
    }
  }
}
