/** The chained hash map behind the id map and the location map, and its Fibonacci hashing. */
module HashMap {
  import opened Memory
  import opened Machine
  import opened Sequences

  const GOLDEN: int := 11400714819323198485
  const UINT32: int := 0x1_0000_0000

  // ----- hashing

  function Pow2(n: nat): (p: nat)
    ensures p > 0
  {
    if n == 0 then 1 else 2 * Pow2(n - 1)
  }

  /** The number of trailing zero bits. */
  function Ctz(n: nat): nat
    requires n > 0
  {
    if n % 2 == 1 then 0 else 1 + Ctz(n / 2)
  }

  lemma {:induction false} Pow2Adds(a: nat, b: nat)
    ensures Pow2(a + b) == Pow2(a) * Pow2(b)
  {
    if a > 0 {
      Pow2Adds(a - 1, b);
    }
  }

  lemma {:induction false} CtzBound(n: nat)
    requires n > 0
    ensures Pow2(Ctz(n)) <= n
  {
    if n % 2 == 0 {
      CtzBound(n / 2);
    }
  }

  lemma {:induction false} Pow2Monotone(a: nat, b: nat)
    requires a <= b
    ensures Pow2(a) <= Pow2(b)
  {
    if a < b {
      Pow2Monotone(a, b - 1);
    }
  }

  lemma Pow2Of64()
    ensures Pow2(32) == UINT32 && Pow2(64) == ADDRESS_SPACE
  {
    assert Pow2(8) == 256;
    Pow2Adds(8, 8);
    Pow2Adds(16, 16);
    Pow2Adds(32, 32);
  }

  /** An odd size is rounded up, in 32 bits. */
  function RoundedSize(size: nat): nat {
    if size % 2 == 1 then (size + 1) % UINT32 else size
  }

  function ShiftBits(size: nat): int
    requires size > 0
  {
    64 - Ctz(size)
  }

  function Product(key: int): (p: nat)
    ensures p < ADDRESS_SPACE
  {
    key * GOLDEN % ADDRESS_SPACE
  }

  /** The 64-bit product, shifted, as 32 bits. */
  function Index(key: int, shift: nat): int {
    Shifted(Product(key), shift) % UINT32
  }

  lemma DivideNonNegative(p: nat, d: nat)
    requires d > 0
    ensures p / d >= 0
  {
  }

  function Shifted(p: nat, shift: nat): (q: nat) {
    DivideNonNegative(p, Pow2(shift));
    p / Pow2(shift)
  }

  lemma DivideBound(p: nat, x: nat, y: nat)
    requires y > 0 && p < x * y
    ensures p / y < x
  {
  }

  lemma QuotientBound(p: nat, a: nat, b: nat)
    requires p < Pow2(a + b)
    ensures Shifted(p, b) < Pow2(a)
  {
    Pow2Adds(a, b);
    DivideBound(p, Pow2(a), Pow2(b));
  }

  lemma RoundedSizeIsEven(size: nat)
    requires 0 < size < UINT32 - 1
    ensures var n := RoundedSize(size); 0 < n < UINT32 && n % 2 == 0 && size <= n <= size + 1
  {
  }

  lemma CtzOfEven(n: nat)
    requires 0 < n < UINT32 && n % 2 == 0
    ensures 1 <= Ctz(n) <= 31 && Pow2(Ctz(n)) <= n
  {
    CtzBound(n);
    Pow2Of64();
    if Ctz(n) >= 32 {
      Pow2Monotone(32, Ctz(n));
    }
  }

  lemma ShiftedInBounds(p: nat, n: nat)
    requires p < ADDRESS_SPACE && 0 < n < UINT32 && n % 2 == 0
    ensures 33 <= ShiftBits(n) <= 63 && Shifted(p, ShiftBits(n)) < Pow2(Ctz(n)) <= n
    ensures Shifted(p, ShiftBits(n)) % UINT32 == Shifted(p, ShiftBits(n))
  {
    CtzOfEven(n);
    Pow2Of64();
    assert Ctz(n) + ShiftBits(n) == 64;
    QuotientBound(p, Ctz(n), ShiftBits(n));
    SmallCast(Shifted(p, ShiftBits(n)));
  }

  lemma SmallCast(x: nat)
    requires x < UINT32
    ensures x % UINT32 == x
  {
  }

  /** For every size but the one that wraps to zero, power of two or not, the shift is a shift by
      33 to 63 bits and every key's index is inside the table; nothing is lost in the cast. */
  lemma IndexInBounds(size: nat, key: int)
    requires 0 < size < UINT32 - 1
    ensures 0 < RoundedSize(size) < UINT32 && 33 <= ShiftBits(RoundedSize(size)) <= 63
    ensures 0 <= Index(key, ShiftBits(RoundedSize(size))) < Pow2(Ctz(RoundedSize(size))) <= RoundedSize(size)
    ensures Index(key, ShiftBits(RoundedSize(size))) == Shifted(Product(key), ShiftBits(RoundedSize(size)))
  {
    RoundedSizeIsEven(size);
    ShiftedInBounds(Product(key), RoundedSize(size));
  }

  /** The shift of a rounded size keeps as many bits as the power of two in it has. */
  lemma {:induction false} CtzSplits(n: nat) returns (odd: nat)
    requires n > 0
    ensures n == Pow2(Ctz(n)) * odd && odd % 2 == 1
  {
    if n % 2 == 1 {
      odd := n;
    } else {
      odd := CtzSplits(n / 2);
      assert n == 2 * (Pow2(Ctz(n / 2)) * odd);
    }
  }

  /** An index is the part of the product above the shift. */
  lemma IndexIsUpperPart(size: nat, key: int)
    requires 0 < size < UINT32 - 1
    ensures var bits := ShiftBits(RoundedSize(size));
      bits >= 0 && Index(key, bits) * Pow2(bits) <= Product(key) < (Index(key, bits) + 1) * Pow2(bits)
  {
    IndexInBounds(size, key);
    QuotientIs(Product(key), Pow2(ShiftBits(RoundedSize(size))));
  }

  lemma QuotientIs(p: nat, d: nat)
    requires d > 0
    ensures p / d * d <= p < (p / d + 1) * d
  {
  }

  /** The inverse of the multiplier in 64 bits. */
  const INVERSE: int := 17428512612931826493
  const CARRY: int := 10771413168148108919

  lemma SameModulo(k: int, x: int, c: int)
    requires 0 <= k < ADDRESS_SPACE && x == k + ADDRESS_SPACE * c
    ensures x % ADDRESS_SPACE == k
  {
  }

  /** The product loses nothing: the key can be got back from it, so that no two keys have the same. */
  lemma ProductInverts(key: int)
    requires 0 <= key < ADDRESS_SPACE
    ensures Product(key) * INVERSE % ADDRESS_SPACE == key
    ensures Product(1) == 11400714819323198485
  {
    var q := key * GOLDEN / ADDRESS_SPACE;
    assert key * GOLDEN == q * ADDRESS_SPACE + Product(key);
    assert GOLDEN * INVERSE == 1 + ADDRESS_SPACE * CARRY;
    assert Product(key) * INVERSE == key * (GOLDEN * INVERSE) - q * ADDRESS_SPACE * INVERSE;
    assert Product(key) * INVERSE == key + ADDRESS_SPACE * (key * CARRY - q * INVERSE);
    SameModulo(key, Product(key) * INVERSE, key * CARRY - q * INVERSE);
  }

  // ----- the table

  class Entry<V> {
    const key: int
    const obj: V
    var next: Entry?<V>

    constructor (key: int, obj: V, next: Entry?<V>)
      ensures this.key == key && this.obj == obj && this.next == next
    {
      this.key, this.obj, this.next := key, obj, next;
    }
  }

  /** `c` lists the entries from `head` on, following `next` to the end. */
  ghost predicate Chain<V>(head: Entry?<V>, c: seq<Entry<V>>)
    reads c
  {
    && (head == if c == [] then null else c[0])
    && forall j :: 0 <= j < |c| ==> c[j].next == NextIn(c, j)
  }

  ghost function NextIn<V>(c: seq<Entry<V>>, j: nat): Entry?<V> {
    if j + 1 < |c| then c[j + 1] else null
  }

  lemma ChainNext<V>(head: Entry?<V>, c: seq<Entry<V>>, j: nat)
    requires Chain(head, c) && j < |c|
    ensures c[j].next == NextIn(c, j)
  {
  }

  function Cut<V>(c: seq<Entry<V>>, j: nat): seq<Entry<V>>
    requires j < |c|
  {
    c[..j] + c[j + 1..]
  }

  lemma CutStaysChain<V>(head: Entry?<V>, c: seq<Entry<V>>, j: nat)
    requires j < |c| && head == (if j > 0 then c[0] else NextIn(c, 0))
    requires forall k :: 0 <= k < |c| && k != j ==> c[k].next == if k + 1 == j then NextIn(c, j) else NextIn(c, k)
    ensures Chain(head, Cut(c, j))
  {
  }

  lemma PushedStaysChain<V>(head: Entry?<V>, c: seq<Entry<V>>, e: Entry<V>)
    requires Chain(head, c) && e.next == head
    ensures Chain(e, [e] + c)
  {
  }

  /** The chains are those of the table. */
  ghost predicate Shaped<V>(elements: array<Entry?<V>>, chains: seq<seq<Entry<V>>>, owned: set<Entry<V>>)
    reads elements, owned
  {
    && elements.Length == |chains|
    && (forall i, e :: 0 <= i < |chains| && e in chains[i] ==> e in owned)
    && forall i :: 0 <= i < |chains| ==> Chain(elements[i], chains[i])
  }

  /** The entry at position `j` of chain `i` is nowhere else. */
  ghost predicate Sole<V>(chains: seq<seq<Entry<V>>>, i: nat, j: nat)
    requires i < |chains| && j < |chains[i]|
  {
    && (forall k :: 0 <= k < |chains| && k != i ==> chains[i][j] !in chains[k])
    && forall k :: 0 <= k < |chains[i]| && k != j ==> chains[i][k] != chains[i][j]
  }

  /** The new entry `e` becomes the head of bucket `index`. */
  method Push<V>(elements: array<Entry?<V>>, index: nat, e: Entry<V>,
                 ghost chains: seq<seq<Entry<V>>>, ghost owned: set<Entry<V>>)
    requires Shaped(elements, chains, owned) && index < elements.Length && e.next == elements[index]
    modifies elements
    ensures Shaped(elements, chains[index := [e] + chains[index]], owned + {e})
  {
    PushedStaysChain(elements[index], chains[index], e);
    elements[index] := e;
  }

  /** Takes the entry `temp`, at position `j` of its chain and behind `prev`, out of the chain. */
  method Unlink<V>(elements: array<Entry?<V>>, index: nat, prev: Entry?<V>, temp: Entry<V>, ghost j: nat,
                   ghost chains: seq<seq<Entry<V>>>, ghost owned: set<Entry<V>>)
    requires Shaped(elements, chains, owned) && index < elements.Length && j < |chains[index]|
    requires temp == chains[index][j] && prev == if j == 0 then null else chains[index][j - 1]
    requires j > 0 ==> Sole(chains, index, j - 1)
    modifies elements, if prev == null then {} else {prev}
    ensures Shaped(elements, chains[index := Cut(chains[index], j)], owned)
  {
    ghost var c := chains[index];
    assert Chain(elements[index], c);
    ChainNext(elements[index], c, j);
    if prev == null {
      elements[index] := temp.next;
    } else {
      prev.next := temp.next;
    }
    CutStaysChain(elements[index], c, j);
    forall i | 0 <= i < |chains| && i != index
      ensures Chain(elements[i], chains[i])
    {
      assert old(Chain(elements[i], chains[i]));
    }
  }

  /** Walks a chain up to the entry of a key, or the end. */
  method Walk<V>(head: Entry?<V>, key: int, ghost c: seq<Entry<V>>)
    returns (prev: Entry?<V>, temp: Entry?<V>, ghost j: nat)
    requires Chain(head, c)
    ensures j <= |c| && (temp == if j < |c| then c[j] else null) && (prev == if j == 0 then null else c[j - 1])
    ensures forall k :: 0 <= k < j ==> c[k].key != key
    ensures temp != null ==> temp.key == key
  {
    prev, temp, j := null, head, 0;
    while temp != null && temp.key != key
      invariant j <= |c| && temp == if j < |c| then c[j] else null
      invariant prev == if j == 0 then null else c[j - 1]
      invariant forall k :: 0 <= k < j ==> c[k].key != key
      decreases |c| - j
    {
      ChainNext(head, c, j);
      prev := temp;
      temp := temp.next;
      j := j + 1;
    }
  }

  /** No key occurs twice in a chain. */
  ghost predicate DistinctKeys<V>(c: seq<Entry<V>>) {
    forall i, j :: 0 <= i < j < |c| ==> c[i].key != c[j].key
  }

  ghost predicate HasKey<V>(c: seq<Entry<V>>, key: int) {
    exists j :: 0 <= j < |c| && c[j].key == key
  }

  class HashMap<V> {
    const size: nat
    const shiftBits: nat
    const hasCleanup: bool
    const elements: array<Entry?<V>>
    /** The objects the cleanup function has been called on, in order. */
    var cleaned: seq<V>
    ghost var chains: seq<seq<Entry<V>>>
    /** The finite map the table represents. */
    ghost var contents: map<int, V>
    /** The entries allocated for the table. */
    ghost var owned: set<Entry<V>>

    ghost predicate ValidSize() {
      0 < size < UINT32 && size % 2 == 0 && shiftBits == ShiftBits(size)
    }

    function Bucket(key: int): (i: nat)
      requires ValidSize()
      ensures i < size
    {
      ShiftedInBounds(Product(key), size);
      Index(key, shiftBits)
    }

    /** Chain `c` is that of bucket `i`: each key once, only keys that hash here, all of those in
        `m`, with the objects `m` has for them. */
    ghost predicate Keys(i: nat, c: seq<Entry<V>>, m: map<int, V>)
      requires ValidSize()
    {
      && DistinctKeys(c)
      && (forall e :: e in c ==> Bucket(e.key) == i && e.key in m && m[e.key] == e.obj)
      && forall key :: key in m && Bucket(key) == i ==> HasKey(c, key)
    }

    /** The chains represent the map `m`. */
    ghost predicate Keyed(chains: seq<seq<Entry<V>>>, m: map<int, V>)
      requires ValidSize()
    {
      |chains| == size && forall i :: 0 <= i < size ==> Keys(i, chains[i], m)
    }

    lemma KeysAfterInsert(i: nat, c: seq<Entry<V>>, m: map<int, V>, e: Entry<V>)
      requires ValidSize() && Keys(i, c, m) && e.key !in m
      ensures Keys(i, if Bucket(e.key) == i then [e] + c else c, m[e.key := e.obj])
    {
      if Bucket(e.key) == i {
        var r := [e] + c;
        assert r[0] == e;
        forall key | key in m && Bucket(key) == i
          ensures HasKey(r, key)
        {
          var j :| 0 <= j < |c| && c[j].key == key;
          assert r[j + 1].key == key;
        }
        assert forall x :: x in c ==> x.key != e.key;
      }
    }

    lemma KeysAfterDelete(i: nat, c: seq<Entry<V>>, m: map<int, V>, j: nat)
      requires ValidSize() && Keys(i, c, m) && j < |c|
      ensures Keys(i, Cut(c, j), m - {c[j].key})
    {
      var r := Cut(c, j);
      assert forall k :: 0 <= k < |r| ==> r[k] == c[if k < j then k else k + 1];
      forall key | key in m && key != c[j].key && Bucket(key) == i
        ensures HasKey(r, key)
      {
        var k :| 0 <= k < |c| && c[k].key == key;
        assert r[if k < j then k else k - 1].key == key;
      }
    }

    lemma KeysElsewhere(i: nat, c: seq<Entry<V>>, m: map<int, V>, key: int)
      requires ValidSize() && Keys(i, c, m) && Bucket(key) != i
      ensures Keys(i, c, m - {key})
    {
    }

    lemma KeyedAfterInsert(chains: seq<seq<Entry<V>>>, m: map<int, V>, e: Entry<V>)
      requires ValidSize() && Keyed(chains, m) && e.key !in m
      ensures Keyed(chains[Bucket(e.key) := [e] + chains[Bucket(e.key)]], m[e.key := e.obj])
    {
      forall i | 0 <= i < size {
        KeysAfterInsert(i, chains[i], m, e);
      }
    }

    lemma KeyedAfterDelete(chains: seq<seq<Entry<V>>>, m: map<int, V>, i: nat, j: nat)
      requires ValidSize() && Keyed(chains, m) && i < size && j < |chains[i]|
      ensures Keyed(chains[i := Cut(chains[i], j)], m - {chains[i][j].key})
    {
      var key := chains[i][j].key;
      assert Keys(i, chains[i], m) && chains[i][j] in chains[i];
      KeysAfterDelete(i, chains[i], m, j);
      forall k | 0 <= k < size && k != i {
        KeysElsewhere(k, chains[k], m, key);
      }
    }

    /** An entry is at one place in the table only. */
    lemma EntryOnce(chains: seq<seq<Entry<V>>>, m: map<int, V>, i: nat, j: nat)
      requires ValidSize() && Keyed(chains, m) && i < size && j < |chains[i]|
      ensures Sole(chains, i, j)
    {
    }

    ghost predicate Valid()
      reads this, elements, owned
    {
      && ValidSize() && Shaped(elements, chains, owned)
      && Keyed(chains, contents)
    }

    /** An empty table; the size that wraps to 0 has no shift. */
    constructor (size: nat, hasCleanup: bool)
      requires 0 < size < UINT32 - 1
      ensures Valid() && contents == map[] && cleaned == [] && fresh(elements) && owned == {}
      ensures this.hasCleanup == hasCleanup && this.size == if size % 2 == 1 then size + 1 else size
    {
      RoundedSizeIsEven(size);
      ShiftedInBounds(0, RoundedSize(size));
      this.size := RoundedSize(size);
      this.hasCleanup := hasCleanup;
      shiftBits := ShiftBits(RoundedSize(size));
      elements := new Entry?<V>[RoundedSize(size)](_ => null);
      cleaned, contents := [], map[];
      chains := seq(RoundedSize(size), _ => []);
      owned := {};
    }

    /** Walks the chain of the key's bucket up to its entry, or the end. */
    method Find(key: int) returns (prev: Entry?<V>, temp: Entry?<V>, ghost j: nat)
      requires Valid()
      ensures var c := chains[Bucket(key)];
        && j <= |c| && (temp == if j < |c| then c[j] else null) && (prev == if j == 0 then null else c[j - 1])
        && (temp != null ==> temp.key == key && key in contents && contents[key] == temp.obj)
        && (temp == null ==> key !in contents)
    {
      var index := Bucket(key);
      assert Chain(elements[index], chains[index]) && Keys(index, chains[index], contents);
      prev, temp, j := Walk(elements[index], key, chains[index]);
      if temp != null {
        assert temp in chains[index];
      }
    }

    /** The object stored under `key`, if there is one. */
    method Lookup(key: int) returns (obj: Option<V>)
      requires Valid()
      ensures obj == if key in contents then Some(contents[key]) else None
    {
      var _, temp, _ := Find(key);
      obj := if temp == null then None else Some(temp.obj);
    }

    /** Fails exactly on a null object or a key that is present. */
    method Insert(key: int, obj: Option<V>) returns (ok: bool)
      requires Valid()
      modifies this, elements, owned
      ensures Valid() && fresh(owned - old(owned)) && cleaned == old(cleaned)
      ensures ok <==> obj.Some? && key !in old(contents)
      ensures contents == if ok then old(contents)[key := obj.value] else old(contents)
    {
      if obj.None? {
        return false;
      }
      var present := Lookup(key);
      if present.Some? {
        return false;
      }
      var index := Bucket(key);
      var e := new Entry(key, obj.value, elements[index]);
      KeyedAfterInsert(chains, contents, e);
      Push(elements, index, e, chains, owned);
      chains := chains[index := [e] + chains[index]];
      contents := contents[key := obj.value];
      owned := owned + {e};
      ok := true;
    }

    /** Removes the entry of a key, if there is one, and cleans its object up. */
    method Delete(key: int)
      requires Valid()
      modifies this, elements, owned
      ensures Valid() && owned == old(owned)
      ensures contents == old(contents) - {key}
      ensures cleaned == old(cleaned) + if hasCleanup && key in old(contents) then [old(contents)[key]] else []
    {
      var prev, temp, j := Find(key);
      if temp == null {
        assert contents - {key} == contents;
        return;
      }
      TakeOut(Bucket(key), prev, temp, j);
    }

    method Cleanup(obj: V)
      requires Valid()
      modifies this`cleaned
      ensures Valid() && cleaned == old(cleaned) + if hasCleanup then [obj] else []
    {
      if hasCleanup {
        cleaned := cleaned + [obj];
      }
    }

    /** Unlinks an entry and cleans its object up. */
    method TakeOut(index: nat, prev: Entry?<V>, temp: Entry<V>, ghost j: nat)
      requires Valid() && index < size && j < |chains[index]|
      requires temp == chains[index][j] && prev == if j == 0 then null else chains[index][j - 1]
      modifies this, elements, owned
      ensures Valid() && owned == old(owned) && contents == old(contents) - {temp.key}
      ensures chains == old(chains)[index := Cut(old(chains)[index], j)]
      ensures cleaned == old(cleaned) + if hasCleanup then [temp.obj] else []
    {
      ghost var c, m := chains[index := Cut(chains[index], j)], contents - {temp.key};
      assert Keyed(c, m) by {
        KeyedAfterDelete(chains, contents, index, j);
      }
      if j > 0 {
        EntryOnce(chains, contents, index, j - 1);
      }
      Unlink(elements, index, prev, temp, j, chains, owned);
      chains, contents := c, m;
      Cleanup(temp.obj);
    }

    /** The log of freeing: the keys in the order their entries went. */
    ghost predicate Logged(freed: seq<int>, was: map<int, V>, now: map<int, V>) {
      && Distinct(freed)
      && (forall key :: key in was <==> key in now || key in freed)
      && (forall key :: key in freed ==> key !in now)
      && forall key :: key in now ==> key in was && now[key] == was[key]
    }

    /** The objects of the freed keys, in order. */
    ghost function Objects(freed: seq<int>, was: map<int, V>): (objects: seq<V>)
      requires forall key :: key in freed ==> key in was
      ensures |objects| == |freed| && forall i :: 0 <= i < |freed| ==> freed[i] in was && objects[i] == was[freed[i]]
    {
      if freed == [] then []
      else
        var key := Last(freed);
        assert key in freed;
        Objects(Front(freed), was) + [was[key]]
    }

    lemma LogOneMore(freed: seq<int>, was: map<int, V>, now: map<int, V>, key: int)
      requires Logged(freed, was, now) && key in now
      ensures Logged(freed + [key], was, now - {key})
      ensures Objects(freed + [key], was) == Objects(freed, was) + [was[key]]
    {
    }

    lemma EmptyBucket(m: map<int, V>, key: int)
      requires ValidSize() && Keys(Bucket(key), [], m)
      ensures key !in m
    {
    }

    lemma EmptyTable(chains: seq<seq<Entry<V>>>, m: map<int, V>)
      requires ValidSize() && Keyed(chains, m) && forall i :: 0 <= i < size ==> chains[i] == []
      ensures m == map[]
    {
      forall key
        ensures key !in m
      {
        assert Keys(Bucket(key), chains[Bucket(key)], m) && chains[Bucket(key)] == [];
        EmptyBucket(m, key);
      }
    }

    /** Of the map `was`, the entries of the keys `freed` have been freed and their objects cleaned
        up after `before`. */
    ghost predicate Freeing(freed: seq<int>, was: map<int, V>, before: seq<V>)
      reads this, elements, owned
    {
      && Valid() && Logged(freed, was, contents)
      && cleaned == before + if hasCleanup then Objects(freed, was) else []
    }

    /** Frees the head of a bucket. */
    method Pop(i: nat, ghost freed: seq<int>, ghost was: map<int, V>, ghost before: seq<V>)
      returns (ghost log: seq<int>)
      requires Freeing(freed, was, before) && i < size && elements[i] != null
      modifies this, elements, owned
      ensures Freeing(log, was, before) && owned == old(owned)
      ensures old(chains)[i] != [] && chains == old(chains)[i := old(chains)[i][1..]]
    {
      var temp := elements[i];
      assert Chain(elements[i], chains[i]);
      assert Keys(i, chains[i], contents) && temp in chains[i];
      LogOneMore(freed, was, contents, temp.key);
      log := freed + [temp.key];
      TakeOut(i, null, temp, 0);
      assert Cut(old(chains)[i], 0) == old(chains)[i][1..];
    }

    /** Frees a bucket's entries from the head on. */
    method FreeBucket(i: nat, ghost freed: seq<int>, ghost was: map<int, V>, ghost before: seq<V>)
      returns (ghost log: seq<int>)
      requires Freeing(freed, was, before) && i < size
      modifies this, elements, owned
      ensures Freeing(log, was, before) && owned == old(owned)
      ensures chains == old(chains)[i := []]
    {
      log := freed;
      while elements[i] != null
        invariant Freeing(log, was, before) && owned == old(owned)
        invariant chains == old(chains)[i := chains[i]]
        decreases |chains[i]|
      {
        log := Pop(i, log, was, before);
      }
      assert Chain(elements[i], chains[i]);
    }

    /** Frees every entry: each object of the map is cleaned up exactly once, and nothing else. */
    method Free() returns (ghost freed: seq<int>)
      requires Valid()
      modifies this, elements, owned
      ensures Valid() && owned == old(owned) && contents == map[]
      ensures Distinct(freed) && forall key :: key in freed <==> key in old(contents)
      ensures cleaned == old(cleaned) + if hasCleanup then Objects(freed, old(contents)) else []
    {
      freed := [];
      assert cleaned == cleaned + [];
      var i := 0;
      while i < size
        invariant i <= size && owned == old(owned) && Freeing(freed, old(contents), old(cleaned))
        invariant forall k :: 0 <= k < i ==> chains[k] == []
      {
        freed := FreeBucket(i, freed, old(contents), old(cleaned));
        i := i + 1;
      }
      EmptyTable(chains, contents);
    }
  }

  /** There is no table of size 0. */
  method MapInit<V>(size: nat, hasCleanup: bool) returns (m: HashMap?<V>)
    requires size < UINT32 - 1
    ensures size == 0 <==> m == null
    ensures m != null ==> fresh(m) && fresh(m.elements) && m.Valid() && m.contents == map[] && m.cleaned == []
    ensures m != null ==> m.owned == {} && m.hasCleanup == hasCleanup
    ensures m != null ==> m.size == if size % 2 == 1 then size + 1 else size
  {
    if size == 0 {
      return null;
    }
    m := new HashMap(size, hasCleanup);
  }
}
