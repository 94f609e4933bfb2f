/** The pool of UTF8 strings (jvm/src/string/stringPool.c): chains of strings by hash value, and for every
    string a 16-bit key that is computed from its place in the chain. */
module StringPool {

  /** UTF8_STRING_TABLE_SIZE. */
  const TABLE_SIZE := 256
  const UINT16_RANGE := 0x1_0000

  /** PACKAGE_KEY_MASK keeps the low 11 bits of a key. */
  const PACKAGE_KEYS := 0x800

  type Chars = seq<int>

  datatype Option<T> = None | Some(value: T)
  datatype Entry = Entry(chars: Chars, nameKey: nat)

  /** getStringHash, in a 16-bit variable. */
  function Hash(s: Chars, from: nat): (h: nat)
    requires from < UINT16_RANGE
    ensures h < UINT16_RANGE
    decreases |s|
  {
    if s == [] then from else Hash(s[1..], (from * 37 + s[0]) % UINT16_RANGE)
  }

  function Index(s: Chars): (i: nat)
    ensures i < TABLE_SIZE
  {
    Hash(s, 0) % TABLE_SIZE
  }

  function Power(n: nat): nat {
    if n == 0 then 1 else 37 * Power(n - 1)
  }

  /** The characters as the digits of a number to the base 37. */
  function Number(s: Chars): int {
    if s == [] then 0 else s[0] * Power(|s| - 1) + Number(s[1..])
  }

  lemma ModSum(a: int, b: int)
    ensures (a % UINT16_RANGE + b) % UINT16_RANGE == (a + b) % UINT16_RANGE
  {
  }

  /** A factor may be reduced first. */
  lemma {:induction false} ModProduct(a: int, p: nat, b: int)
    ensures ((a % UINT16_RANGE) * p + b) % UINT16_RANGE == (a * p + b) % UINT16_RANGE
  {
    if p > 0 {
      var r := a % UINT16_RANGE;
      ModProduct(a, p - 1, r + b);
      assert r * p + b == r * (p - 1) + (r + b);
      ModSum(a, a * (p - 1) + b);
      assert a * (p - 1) + (r + b) == r + (a * (p - 1) + b);
      assert a + (a * (p - 1) + b) == a * p + b;
    }
  }

  lemma PowerNext(from: int, c: int, n: nat)
    ensures (from * 37 + c) * Power(n) == from * Power(n + 1) + c * Power(n)
  {
    var p := Power(n);
    assert Power(n + 1) == 37 * p;
    assert (from * 37 + c) * p == from * (37 * p) + c * p;
  }

  /** The hash is that number in 16 bits. */
  lemma {:induction false} HashIsNumber(s: Chars, from: nat)
    requires from < UINT16_RANGE
    ensures Hash(s, from) == (from * Power(|s|) + Number(s)) % UINT16_RANGE
    decreases |s|
  {
    if s != [] {
      var n, next := |s| - 1, from * 37 + s[0];
      HashIsNumber(s[1..], next % UINT16_RANGE);
      ModProduct(next, Power(n), Number(s[1..]));
      PowerNext(from, s[0], n);
      assert next * Power(n) + Number(s[1..]) == from * Power(|s|) + Number(s);
    }
  }

  /** Each character counts, and its place. */
  lemma {:induction false} HashAppended(s: Chars, from: nat, c: int)
    requires from < UINT16_RANGE
    ensures Hash(s + [c], from) == (37 * Hash(s, from) + c) % UINT16_RANGE
    decreases |s|
  {
    if s == [] {
      assert ([c])[1..] == [];
    } else {
      HashAppended(s[1..], (from * 37 + s[0]) % UINT16_RANGE, c);
      assert (s + [c])[1..] == s[1..] + [c] && (s + [c])[0] == s[0];
    }
  }

  /** getStringHash, character by character. */
  method GetStringHash(s: Chars) returns (value: nat)
    ensures value == Hash(s, 0) == Number(s) % UINT16_RANGE
  {
    value := 0;
    var i := 0;
    while i < |s|
      invariant 0 <= i <= |s| && value == Hash(s[..i], 0)
    {
      HashAppended(s[..i], 0, s[i]);
      assert s[..i + 1] == s[..i] + [s[i]];
      value := (value * 37 + s[i]) % UINT16_RANGE;
      i := i + 1;
    }
    assert s[..i] == s;
    HashIsNumber(s, 0);
  }

  // ---------- keys ----------

  /** The remainder of a division by the table size. */
  function Low(k: nat): (r: nat)
    ensures r < TABLE_SIZE && r <= k
    ensures r == k <==> k < TABLE_SIZE
  {
    if k < TABLE_SIZE then k else Low(k - TABLE_SIZE)
  }

  lemma {:induction false} LowNext(k: nat)
    ensures Low(k + 1) == if Low(k) == TABLE_SIZE - 1 then 0 else Low(k) + 1
  {
    if k >= TABLE_SIZE {
      LowNext(k - TABLE_SIZE);
    }
  }

  /** Counting from the other end of n. */
  lemma {:induction false} LowFromEnd(n: nat, i: nat, j: nat)
    requires i <= j <= n
    ensures Low(n - i) == Low(n - j) <==> Low(i) == Low(j)
    decreases j
  {
    if j >= i + TABLE_SIZE {
      LowFromEnd(n, i, j - TABLE_SIZE);
    } else if i >= TABLE_SIZE {
      LowFromEnd(n - TABLE_SIZE, i - TABLE_SIZE, j - TABLE_SIZE);
    } else if i < j {
      LowDiffers(n - j, j - i);
      LowDiffers(i, j - i);
    }
  }

  lemma {:induction false} LowDiffers(a: nat, d: nat)
    requires 0 < d < TABLE_SIZE
    ensures Low(a + d) != Low(a)
  {
    if a >= TABLE_SIZE {
      LowDiffers(a - TABLE_SIZE, d);
    }
  }

  /** The key of the k-th string, counted from 1, that was put into the chain at an index. */
  function KeyAt(index: nat, k: nat): (key: nat)
    requires index < TABLE_SIZE
    ensures key < UINT16_RANGE && key % TABLE_SIZE == index
  {
    index + TABLE_SIZE * Low(k)
  }

  /** Each key is the one before it plus the table size, in 16 bits. */
  lemma NextKey(index: nat, k: nat)
    requires index < TABLE_SIZE
    ensures KeyAt(index, k + 1) == (TABLE_SIZE + KeyAt(index, k)) % UINT16_RANGE
  {
    LowNext(k);
  }

  /** The key as a formula, which the source computes step by step. */
  lemma {:induction false} KeyIs(index: nat, k: nat)
    requires index < TABLE_SIZE
    ensures KeyAt(index, k) == (index + TABLE_SIZE * k) % UINT16_RANGE
  {
    if k > 0 {
      KeyIs(index, k - 1);
      NextKey(index, k - 1);
    }
  }

  /** The chain at an index, the string put in last first. */
  ghost predicate EntryAt(chain: seq<Entry>, index: nat, j: nat)
    requires j < |chain| && index < TABLE_SIZE
  {
    chain[j].nameKey == KeyAt(index, |chain| - j) && Index(chain[j].chars) == index
  }

  ghost predicate ChainOk(chain: seq<Entry>, index: nat)
    requires index < TABLE_SIZE
  {
    && (forall j :: 0 <= j < |chain| ==> EntryAt(chain, index, j))
    && (forall i, j :: 0 <= i < j < |chain| ==> chain[i].chars != chain[j].chars)
  }

  function Find(chain: seq<Entry>, s: Chars): (j: nat)
    ensures j <= |chain|
    ensures j < |chain| ==> chain[j].chars == s
    ensures forall i :: 0 <= i < j ==> chain[i].chars != s
  {
    if chain == [] || chain[0].chars == s then 0 else 1 + Find(chain[1..], s)
  }

  function FindKey(chain: seq<Entry>, key: nat): (j: nat)
    ensures j <= |chain|
    ensures j < |chain| ==> chain[j].nameKey == key
    ensures forall i :: 0 <= i < j ==> chain[i].nameKey != key
  {
    if chain == [] || chain[0].nameKey == key then 0 else 1 + FindKey(chain[1..], key)
  }

  /** A new string gets the key that follows that of the string put in before it. */
  function Added(chain: seq<Entry>, index: nat, s: Chars): seq<Entry> {
    [Entry(s, (TABLE_SIZE + if chain == [] then index else chain[0].nameKey) % UINT16_RANGE)] + chain
  }

  lemma AddedIs(chain: seq<Entry>, index: nat, s: Chars)
    requires index < TABLE_SIZE && ChainOk(chain, index)
    ensures Added(chain, index, s) == [Entry(s, KeyAt(index, |chain| + 1))] + chain
  {
    NextKey(index, |chain|);
    assert chain != [] ==> EntryAt(chain, index, 0);
  }

  lemma AddedOk(chain: seq<Entry>, s: Chars)
    requires ChainOk(chain, Index(s)) && Find(chain, s) == |chain|
    ensures ChainOk(Added(chain, Index(s), s), Index(s))
  {
    var index := Index(s);
    var e := Entry(s, KeyAt(index, |chain| + 1));
    LongerOk(chain, e, index);
    assert Added(chain, index, s) == [e] + chain by {
      AddedIs(chain, index, s);
    }
  }

  lemma LongerOk(chain: seq<Entry>, e: Entry, index: nat)
    requires index < TABLE_SIZE && ChainOk(chain, index) && Find(chain, e.chars) == |chain|
    requires e.nameKey == KeyAt(index, |chain| + 1) && Index(e.chars) == index
    ensures ChainOk([e] + chain, index)
  {
    var longer := [e] + chain;
    forall j: nat | 0 < j < |longer| ensures EntryAt(longer, index, j) {
      EntryShift(chain, e, index, j - 1);
    }
    assert EntryAt(longer, index, 0);
  }

  lemma EntryShift(chain: seq<Entry>, e: Entry, index: nat, j: nat)
    requires index < TABLE_SIZE && j < |chain| && EntryAt(chain, index, j)
    ensures EntryAt([e] + chain, index, j + 1)
  {
    assert ([e] + chain)[j + 1] == chain[j] && |[e] + chain| - (j + 1) == |chain| - j;
  }

  /** Two strings of a chain have the same key if and only if their places differ by a multiple of the
      table size. */
  lemma SameKey(chain: seq<Entry>, index: nat, i: nat, j: nat)
    requires index < TABLE_SIZE && ChainOk(chain, index) && i <= j < |chain|
    ensures chain[i].nameKey == chain[j].nameKey <==> Low(i) == Low(j)
  {
    assert EntryAt(chain, index, i) && EntryAt(chain, index, j);
    LowFromEnd(|chain|, i, j);
  }

  /** A key leads to the nearest of the strings that have it, which is the right one if and only if that
      is among the 256 strings put into the chain last. */
  lemma KeyLeadsTo(chain: seq<Entry>, index: nat, j: nat)
    requires index < TABLE_SIZE && ChainOk(chain, index) && j < |chain|
    ensures FindKey(chain, chain[j].nameKey) == Low(j)
  {
    var k := FindKey(chain, chain[j].nameKey);
    SameKey(chain, index, Low(j), j);
    SameKey(chain, index, k, j);
  }

  // ---------- the whole pool ----------

  type Chains = seq<seq<Entry>>

  ghost predicate PoolOk(pool: Chains) {
    |pool| == TABLE_SIZE && forall i :: 0 <= i < TABLE_SIZE ==> ChainOk(pool[i], i)
  }

  /** The key of a string that is in the pool. */
  function KeyOf(pool: Chains, s: Chars): Option<nat>
    requires |pool| == TABLE_SIZE
  {
    var chain := pool[Index(s)];
    var j := Find(chain, s);
    if j < |chain| then Some(chain[j].nameKey) else None
  }

  /** What getUTF8StringByKey returns. */
  function ByKey(pool: Chains, key: nat): Option<Chars>
    requires |pool| == TABLE_SIZE
  {
    var chain := pool[key % TABLE_SIZE];
    var j := FindKey(chain, key);
    if j < |chain| then Some(chain[j].chars) else None
  }

  /** No string is more than 256 deep in its chain. */
  ghost predicate Shallow(pool: Chains) {
    forall i :: 0 <= i < |pool| ==> |pool[i]| <= TABLE_SIZE
  }

  /** The key of a string leads back to it if and only if fewer than 256 strings have been put into its
      chain after it. */
  lemma RoundTrip(pool: Chains, s: Chars)
    requires PoolOk(pool) && KeyOf(pool, s).Some?
    ensures ByKey(pool, KeyOf(pool, s).value) == Some(s) <==> Find(pool[Index(s)], s) < TABLE_SIZE
    ensures KeyOf(pool, s).value % TABLE_SIZE == Index(s)
  {
    var chain, index := pool[Index(s)], Index(s);
    var j := Find(chain, s);
    assert EntryAt(chain, index, j);
    KeyLeadsTo(chain, index, j);
  }

  /** As long as no chain is deeper than 256, distinct strings have distinct keys. */
  lemma DistinctKeys(pool: Chains, s: Chars, t: Chars)
    requires PoolOk(pool) && KeyOf(pool, s).Some? && KeyOf(pool, t).Some? && s != t && Shallow(pool)
    ensures KeyOf(pool, s) != KeyOf(pool, t)
  {
    RoundTrip(pool, s);
    RoundTrip(pool, t);
  }

  /** In a deeper chain two strings share a key. */
  lemma DeepChainsCollide(pool: Chains, i: nat)
    requires PoolOk(pool) && i < TABLE_SIZE && |pool[i]| > TABLE_SIZE
    ensures var s, t := pool[i][0].chars, pool[i][TABLE_SIZE].chars;
            s != t && KeyOf(pool, s).Some? && KeyOf(pool, s) == KeyOf(pool, t)
  {
    var chain := pool[i];
    assert EntryAt(chain, i, 0) && EntryAt(chain, i, TABLE_SIZE);
    assert Find(chain, chain[TABLE_SIZE].chars) == TABLE_SIZE;
    SameKey(chain, i, 0, TABLE_SIZE);
  }

  /** The key of a string, from its characters and its number in its chain alone. */
  lemma KeyFromChars(pool: Chains, s: Chars)
    requires PoolOk(pool) && KeyOf(pool, s).Some?
    ensures var number := |pool[Index(s)]| - Find(pool[Index(s)], s);
            KeyOf(pool, s) == Some(((Number(s) % UINT16_RANGE) % TABLE_SIZE + TABLE_SIZE * number) % UINT16_RANGE)
  {
    NumberInChain(pool, s);
    HashIsNumber(s, 0);
    KeyIs(Index(s), |pool[Index(s)]| - Find(pool[Index(s)], s));
  }

  /** The first string of a chain has its index plus the table size for a key. */
  lemma FirstKey(s: Chars)
    ensures Added([], Index(s), s) == [Entry(s, TABLE_SIZE + (Number(s) % UINT16_RANGE) % TABLE_SIZE)]
  {
    HashIsNumber(s, 0);
  }

  // ---------- package keys ----------

  /** A package key: array depth in the top four bits, then the primitive array bit, then the string key. */
  datatype PackageKey = PackageKey(depth: bv4, primitive: bool, stringKey: nat)

  /** A name key that is stored as a package key: its upper bits get in the way. */
  function AsPackageKey(key: nat): PackageKey
    requires key < UINT16_RANGE
  {
    PackageKey((key / 0x1000) as bv4, (key / PACKAGE_KEYS) % 2 == 1, key % PACKAGE_KEYS)
  }

  function AddArrayDepth(key: PackageKey, depth: bv4, primitive: bool): PackageKey {
    PackageKey(key.depth | depth, key.primitive || primitive, key.stringKey)
  }

  /** A package key as the 16-bit number it is stored as. */
  function Packed(key: PackageKey): nat {
    key.depth as nat * 0x1000 + (if key.primitive then PACKAGE_KEYS else 0) + key.stringKey
  }

  lemma PackedBack(key: nat)
    requires key < UINT16_RANGE
    ensures Packed(AsPackageKey(key)) == key && AsPackageKey(key).stringKey < PACKAGE_KEYS
  {
  }

  /** Reading a stored package key gives back its three parts. */
  lemma Unpacked(key: PackageKey)
    requires key.stringKey < PACKAGE_KEYS
    ensures Packed(key) < UINT16_RANGE && AsPackageKey(Packed(key)) == key
  {
  }

  /** Bits that are set stay set, and setting bits twice is setting all of them. */
  lemma DepthLaws(key: PackageKey, depth: bv4, primitive: bool, more: bv4, also: bool)
    ensures AddArrayDepth(key, 0, false) == key
    ensures AddArrayDepth(AddArrayDepth(key, depth, primitive), more, also) == AddArrayDepth(key, depth | more, primitive || also)
    ensures AddArrayDepth(PackageKey(0, false, key.stringKey), depth, primitive) == PackageKey(depth, primitive, key.stringKey)
  {
  }

  lemma KeyBits(index: nat, k: nat)
    requires index < TABLE_SIZE
    ensures (KeyAt(index, k) % PACKAGE_KEYS) % TABLE_SIZE == index
    ensures KeyAt(index, k) < PACKAGE_KEYS <==> Low(k) <= 7
    ensures KeyAt(index, k) < PACKAGE_KEYS ==> AsPackageKey(KeyAt(index, k)) == PackageKey(0, false, KeyAt(index, k))
    ensures KeyAt(index, k) >= PACKAGE_KEYS ==> KeyAt(index, k) % PACKAGE_KEYS != KeyAt(index, k)
  {
  }

  /** No key but its own leads to a string. */
  lemma OnlyItsKey(pool: Chains, s: Chars, key: nat)
    requires PoolOk(pool) && KeyOf(pool, s).Some? && key % TABLE_SIZE == Index(s) && ByKey(pool, key) == Some(s)
    ensures KeyOf(pool, s) == Some(key)
  {
    var chain := pool[Index(s)];
    var j, j' := Find(chain, s), FindKey(chain, key);
    assert chain[j].chars == s == chain[j'].chars;
    assert ChainOk(chain, Index(s));
  }

  /** Without its upper bits the key of a string leads back to it if and only if the low byte of its number
      in the chain is at most seven and fewer than 256 strings have been put into the chain after it. */
  lemma CutKeyLeadsBack(pool: Chains, s: Chars, k: nat)
    requires PoolOk(pool) && KeyOf(pool, s) == Some(KeyAt(Index(s), k))
    ensures ByKey(pool, KeyAt(Index(s), k) % PACKAGE_KEYS) == Some(s) <==> Low(k) <= 7 && Find(pool[Index(s)], s) < TABLE_SIZE
  {
    var key := KeyAt(Index(s), k);
    KeyBits(Index(s), k);
    RoundTrip(pool, s);
    if Low(k) > 7 && ByKey(pool, key % PACKAGE_KEYS) == Some(s) {
      OnlyItsKey(pool, s, key % PACKAGE_KEYS);
    }
  }

  lemma NumberInChain(pool: Chains, s: Chars)
    requires PoolOk(pool) && Find(pool[Index(s)], s) < |pool[Index(s)]|
    ensures KeyOf(pool, s) == Some(KeyAt(Index(s), |pool[Index(s)]| - Find(pool[Index(s)], s)))
  {
    assert EntryAt(pool[Index(s)], Index(s), Find(pool[Index(s)], s));
  }

  lemma DepthAdded(key: nat, depth: bv4, primitive: bool)
    requires key < UINT16_RANGE
    ensures var packed := AddArrayDepth(AsPackageKey(key), depth, primitive);
            && packed.stringKey == key % PACKAGE_KEYS
            && (AsPackageKey(key) == PackageKey(0, false, key) ==> packed.depth == depth && packed.primitive == primitive)
  {
  }

  /** The package string is recovered from a package key under that condition; depth and primitive bit are
      recovered as well whenever the byte is at most seven. */
  lemma PackageRoundTrip(pool: Chains, s: Chars, depth: bv4, primitive: bool)
    requires PoolOk(pool) && Find(pool[Index(s)], s) < |pool[Index(s)]|
    ensures var k := |pool[Index(s)]| - Find(pool[Index(s)], s);
            && KeyOf(pool, s) == Some(KeyAt(Index(s), k))
            && var key := AddArrayDepth(AsPackageKey(KeyAt(Index(s), k)), depth, primitive);
            && (ByKey(pool, key.stringKey) == Some(s) <==> Low(k) <= 7 && Find(pool[Index(s)], s) < TABLE_SIZE)
            && (Low(k) <= 7 ==> key.depth == depth && key.primitive == primitive)
  {
    var k := |pool[Index(s)]| - Find(pool[Index(s)], s);
    NumberInChain(pool, s);
    CutKeyLeadsBack(pool, s, k);
    KeyBits(Index(s), k);
    DepthAdded(KeyAt(Index(s), k), depth, primitive);
  }

  // ---------- the operations ----------

  datatype Result = Success(nameKey: nat) | OutOfMemory

  class Pool {
    const entries: array<seq<Entry>>
    var count: nat

    ghost predicate Valid()
      reads this, entries
    {
      PoolOk(entries[..])
    }

    /** createStringPool. */
    constructor ()
      ensures Valid() && fresh(entries) && count == 0 && forall s :: KeyOf(entries[..], s) == None
    {
      entries := new seq<Entry>[TABLE_SIZE](_ => []);
      count := 0;
    }

    /** The new entry goes to the front of its chain. */
    method Insert(s: Chars) returns (key: nat)
      requires Valid() && KeyOf(entries[..], s) == None
      modifies this, entries
      ensures Valid() && KeyOf(entries[..], s) == Some(key) && ByKey(entries[..], key) == Some(s)
      ensures entries[..] == old(entries[..])[Index(s) := Added(old(entries[..])[Index(s)], Index(s), s)]
      ensures forall t :: t != s ==> KeyOf(entries[..], t) == KeyOf(old(entries[..]), t)
      ensures count == (old(count) + 1) % UINT16_RANGE
    {
      ghost var pool := entries[..];
      var hash := GetStringHash(s);
      var index := hash % TABLE_SIZE;
      AddedOk(entries[index], s);
      entries[index] := Added(entries[index], index, s);
      key := entries[index][0].nameKey;
      count := (count + 1) % UINT16_RANGE;
      assert entries[..] == pool[index := Added(pool[index], index, s)];
      InsertedKeys(pool, s);
    }

    /** getUTF8StringByChars: the string that is in the pool, or a new one. memoryLeft tells whether there
        is memory for a new one. */
    method GetByChars(s: Chars, memoryLeft: bool) returns (r: Result)
      requires Valid()
      modifies this, entries
      ensures Valid()
      ensures r.OutOfMemory? <==> KeyOf(old(entries[..]), s) == None && !memoryLeft
      ensures r.OutOfMemory? || KeyOf(old(entries[..]), s).Some? ==> entries[..] == old(entries[..])
      ensures r.Success? ==> KeyOf(entries[..], s) == Some(r.nameKey)
      ensures forall t :: KeyOf(old(entries[..]), t).Some? ==> KeyOf(entries[..], t) == KeyOf(old(entries[..]), t)
      ensures forall t :: t != s ==> KeyOf(entries[..], t) == KeyOf(old(entries[..]), t)
      ensures count == if r.Success? && KeyOf(old(entries[..]), s) == None then (old(count) + 1) % UINT16_RANGE else old(count)
    {
      var hash := GetStringHash(s);
      var chain := entries[hash % TABLE_SIZE];
      var j := 0;
      while j < |chain|
        invariant 0 <= j <= Find(chain, s)
      {
        if chain[j].chars == s {
          return Success(chain[j].nameKey);
        }
        j := j + 1;
      }
      if !memoryLeft {
        return OutOfMemory;
      }
      var key := Insert(s);
      r := Success(key);
    }

    /** addGlobalUTF8String: nobody looks whether the string is in the pool, which stays in order exactly
        if it is not. */
    method AddGlobal(s: Chars) returns (key: nat)
      requires Valid()
      modifies this, entries
      ensures entries[..] == old(entries[..])[Index(s) := Added(old(entries[..])[Index(s)], Index(s), s)]
      ensures KeyOf(entries[..], s) == Some(key) && ByKey(entries[..], key) == Some(s)
      ensures forall t :: t != s ==> KeyOf(entries[..], t) == KeyOf(old(entries[..]), t)
      ensures Valid() <==> KeyOf(old(entries[..]), s) == None
      ensures count == (old(count) + 1) % UINT16_RANGE
    {
      ghost var pool := entries[..];
      var hash := GetStringHash(s);
      var index := hash % TABLE_SIZE;
      entries[index] := Added(entries[index], index, s);
      key := entries[index][0].nameKey;
      count := (count + 1) % UINT16_RANGE;
      assert entries[..] == pool[index := Added(pool[index], index, s)];
      AddedKeys(pool, s);
      AddedInOrder(pool, s);
    }

    method GetByKey(key: nat) returns (r: Option<Chars>)
      requires Valid()
      ensures r == ByKey(entries[..], key)
    {
      var chain := entries[key % TABLE_SIZE];
      var j := 0;
      while j < |chain|
        invariant 0 <= j <= FindKey(chain, key)
      {
        if chain[j].nameKey == key {
          return Some(chain[j].chars);
        }
        j := j + 1;
      }
      r := None;
    }
  }

  /** The string that is added is found with its new key, and every other string with the key it had. */
  lemma AddedKeys(pool: Chains, s: Chars)
    requires |pool| == TABLE_SIZE
    ensures var after := pool[Index(s) := Added(pool[Index(s)], Index(s), s)];
            && KeyOf(after, s) == Some(after[Index(s)][0].nameKey)
            && (after[Index(s)][0].nameKey % TABLE_SIZE == Index(s) ==> ByKey(after, after[Index(s)][0].nameKey) == Some(s))
            && forall t :: t != s ==> KeyOf(after, t) == KeyOf(pool, t)
  {
    assert Added(pool[Index(s)], Index(s), s)[1..] == pool[Index(s)];
  }

  lemma AddedInOrder(pool: Chains, s: Chars)
    requires PoolOk(pool)
    ensures var after := pool[Index(s) := Added(pool[Index(s)], Index(s), s)];
            && (PoolOk(after) <==> KeyOf(pool, s) == None) && after[Index(s)][0].nameKey % TABLE_SIZE == Index(s)
  {
    var index, chain := Index(s), pool[Index(s)];
    var longer := Added(chain, index, s);
    AddedIs(chain, index, s);
    if KeyOf(pool, s) == None {
      AddedOk(chain, s);
    } else {
      assert longer[0].chars == longer[Find(chain, s) + 1].chars;
      assert !ChainOk(pool[index := longer][index], index);
    }
  }

  lemma InsertedKeys(pool: Chains, s: Chars)
    requires PoolOk(pool) && KeyOf(pool, s) == None
    ensures var after := pool[Index(s) := Added(pool[Index(s)], Index(s), s)];
            && PoolOk(after) && KeyOf(after, s) == Some(after[Index(s)][0].nameKey)
            && ByKey(after, after[Index(s)][0].nameKey) == Some(s)
            && forall t :: t != s ==> KeyOf(after, t) == KeyOf(pool, t)
  {
    AddedKeys(pool, s);
    AddedInOrder(pool, s);
  }
}
