// The byte-budgeted LRU cache of extracted archive members (src/client.cpp).
module ExtractCache {
  import opened Wrappers

  // ---- The cache as a list of entries, most recently used first ----

  datatype Item = Item(key: string, bytes: Bytes)

  function Total(items: seq<Item>): nat {
    if items == [] then 0 else Total(items[..|items| - 1]) + |items[|items| - 1].bytes|
  }

  function Find(items: seq<Item>, key: string): (i: nat)
    ensures i <= |items| && (i < |items| ==> items[i].key == key)
    ensures forall k :: 0 <= k < i ==> items[k].key != key
  {
    if items == [] || items[0].key == key then 0 else 1 + Find(items[1..], key)
  }

  predicate Has(items: seq<Item>, key: string) { Find(items, key) < |items| }

  function Without(items: seq<Item>, i: nat): seq<Item>
    requires i < |items|
  {
    items[..i] + items[i + 1..]
  }

  /** How many of the most recent entries are kept so that their bytes fit the room. */
  function Kept(items: seq<Item>, room: int): (n: nat)
    ensures n <= |items|
  {
    if items == [] || Total(items) <= room then |items| else Kept(items[..|items| - 1], room)
  }

  function PutItems(items: seq<Item>, key: string, bytes: Bytes, budget: nat): seq<Item> {
    var i := Find(items, key);
    if bytes == [] then items
    else if i < |items| then [Item(key, bytes)] + Without(items, i)
    else [Item(key, bytes)] + items[..Kept(items, budget - |bytes|)]
  }

  function GetItems(items: seq<Item>, key: string): seq<Item> {
    var i := Find(items, key);
    if i < |items| then [items[i]] + Without(items, i) else items
  }

  ghost predicate NoDuplicates(items: seq<Item>) {
    forall i, k :: 0 <= i < k < |items| ==> items[i].key != items[k].key
  }

  // ---- Facts ----

  lemma {:induction false} TotalConcat(a: seq<Item>, b: seq<Item>)
    ensures Total(a + b) == Total(a) + Total(b)
  {
    if b == [] {
      assert a + b == a;
    } else {
      TotalConcat(a, b[..|b| - 1]);
      assert (a + b)[..|a + b| - 1] == a + b[..|b| - 1];
    }
  }

  lemma TotalOne(x: Item)
    ensures Total([x]) == |x.bytes|
  {
    assert [x][..0] == [];
  }

  lemma TotalWithout(items: seq<Item>, i: nat)
    requires i < |items|
    ensures Total(Without(items, i)) + |items[i].bytes| == Total(items)
  {
    assert items == items[..i] + ([items[i]] + items[i + 1..]);
    TotalConcat(items[..i], [items[i]] + items[i + 1..]);
    TotalConcat([items[i]], items[i + 1..]);
    TotalConcat(items[..i], items[i + 1..]);
    TotalOne(items[i]);
  }

  /** The kept part is the longest prefix that fits, or nothing. */
  lemma {:induction false} KeptIsLongest(items: seq<Item>, room: int)
    ensures var n := Kept(items, room);
      && (n > 0 ==> Total(items[..n]) <= room)
      && forall m :: n < m <= |items| ==> Total(items[..m]) > room
  {
    assert items[..|items|] == items;
    if items != [] && Total(items) > room {
      var a := items[..|items| - 1];
      KeptIsLongest(a, room);
      var n := Kept(items, room);
      assert a[..n] == items[..n];
      forall m | n < m <= |items| ensures Total(items[..m]) > room {
        if m < |items| { assert a[..m] == items[..m]; }
      }
    }
  }

  lemma {:induction false} KeptNothing(items: seq<Item>, room: int)
    requires room < 0
    ensures Kept(items, room) == 0
  {
    if items != [] {
      KeptNothing(items[..|items| - 1], room);
    }
  }

  /** Inserting a new key: that entry first, then the longest recent prefix that fits beside
      it; so the bytes fit the budget or the entry is alone. */
  lemma InsertFits(items: seq<Item>, key: string, bytes: Bytes, budget: nat)
    requires bytes != [] && !Has(items, key)
    ensures var after := PutItems(items, key, bytes, budget); var n := Kept(items, budget - |bytes|);
      && after == [Item(key, bytes)] + items[..n]
      && (Total(after) <= budget || after == [Item(key, bytes)])
      && (n < |items| ==> |bytes| + Total(items[..n + 1]) > budget)
  {
    var n := Kept(items, budget - |bytes|);
    KeptIsLongest(items, budget - |bytes|);
    TotalConcat([Item(key, bytes)], items[..n]);
    TotalOne(Item(key, bytes));
  }

  /** Updating a key evicts nothing: the total afterwards is within the budget exactly when
      the size difference leaves it there. */
  lemma UpdateTotal(items: seq<Item>, key: string, bytes: Bytes, budget: nat)
    requires bytes != [] && Has(items, key)
    ensures var after := PutItems(items, key, bytes, budget); var i := Find(items, key);
      && after == [Item(key, bytes)] + Without(items, i) && |after| == |items|
      && Total(after) == Total(items) - |items[i].bytes| + |bytes|
  {
    var i := Find(items, key);
    TotalWithout(items, i);
    TotalConcat([Item(key, bytes)], Without(items, i));
    TotalOne(Item(key, bytes));
  }

  lemma GetTotal(items: seq<Item>, key: string)
    ensures Total(GetItems(items, key)) == Total(items) && |GetItems(items, key)| == |items|
  {
    if Has(items, key) {
      FrontTotal(items, Find(items, key));
    }
  }

  lemma FrontTotal(items: seq<Item>, i: nat)
    requires i < |items|
    ensures Total([items[i]] + Without(items, i)) == Total(items)
  {
    TotalWithout(items, i);
    TotalConcat([items[i]], Without(items, i));
    TotalOne(items[i]);
  }

  lemma KeepsNoDuplicates(items: seq<Item>, key: string, bytes: Bytes, budget: nat)
    requires NoDuplicates(items)
    ensures NoDuplicates(PutItems(items, key, bytes, budget)) && NoDuplicates(GetItems(items, key))
  {
    var i := Find(items, key);
    if i < |items| {
      FrontNoDuplicates(items, i, Item(key, bytes));
      FrontNoDuplicates(items, i, items[i]);
    }
  }

  lemma FrontNoDuplicates(items: seq<Item>, i: nat, x: Item)
    requires NoDuplicates(items) && i < |items| && x.key == items[i].key
    ensures NoDuplicates([x] + Without(items, i))
  {
    var r := [x] + Without(items, i);
    assert r[0] == x && forall k :: 1 <= k < |r| ==> r[k] == items[if k <= i then k - 1 else k];
  }

  // ---- Runs ----

  datatype Op = Put(key: string, bytes: Bytes) | Get(key: string)

  function Apply(items: seq<Item>, op: Op, budget: nat): seq<Item> {
    match op
    case Put(key, bytes) => PutItems(items, key, bytes, budget)
    case Get(key) => GetItems(items, key)
  }

  function Run(ops: seq<Op>, budget: nat): seq<Item> {
    if ops == [] then [] else Apply(Run(ops[..|ops| - 1], budget), ops[|ops| - 1], budget)
  }

  /** The bytes last put under a key, if any. */
  function LastPut(ops: seq<Op>, key: string): Option<Bytes> {
    if ops == [] then None
    else
      var op := ops[|ops| - 1];
      if op.Put? && op.key == key && op.bytes != [] then Some(op.bytes) else LastPut(ops[..|ops| - 1], key)
  }

  function Bump(order: seq<string>, key: string): seq<string> {
    [key] + Drop(order, key)
  }

  function Drop(order: seq<string>, key: string): seq<string> {
    if order == [] then [] else if order[0] == key then Drop(order[1..], key) else [order[0]] + Drop(order[1..], key)
  }

  /** All keys ever stored by how recently they were stored or found. */
  function Recency(ops: seq<Op>, budget: nat): seq<string> {
    if ops == [] then []
    else
      var before := ops[..|ops| - 1];
      match ops[|ops| - 1]
      case Put(key, bytes) => if bytes == [] then Recency(before, budget) else Bump(Recency(before, budget), key)
      case Get(key) =>
        if Has(Run(before, budget), key) then Bump(Recency(before, budget), key) else Recency(before, budget)
  }

  function Keys(items: seq<Item>): (r: seq<string>)
    ensures |r| == |items| && forall i :: 0 <= i < |items| ==> r[i] == items[i].key
  {
    seq(|items|, i requires 0 <= i < |items| => items[i].key)
  }

  lemma {:induction false} RunNoDuplicates(ops: seq<Op>, budget: nat)
    ensures NoDuplicates(Run(ops, budget))
  {
    if ops != [] {
      RunNoDuplicates(ops[..|ops| - 1], budget);
      var op := ops[|ops| - 1];
      KeepsNoDuplicates(Run(ops[..|ops| - 1], budget), op.key, if op.Put? then op.bytes else [], budget);
    }
  }

  /** A hit is never stale: whatever the cache holds under a key was the last put there. */
  lemma {:induction false} HitsAreCurrent(ops: seq<Op>, budget: nat, i: nat)
    requires i < |Run(ops, budget)|
    ensures var x := Run(ops, budget)[i]; LastPut(ops, x.key) == Some(x.bytes)
  {
    var n := |ops| - 1;
    var before, op, after := Run(ops[..n], budget), ops[n], Run(ops, budget);
    RunNoDuplicates(ops, budget);
    RunNoDuplicates(ops[..n], budget);
    var x := after[i];
    if !(op.Put? && op.bytes != [] && x == Item(op.key, op.bytes)) {
      KeptFromBefore(before, op, budget, i);
      var k :| 0 <= k < |before| && before[k] == x && (op.Put? && op.bytes != [] ==> x.key != op.key);
      HitsAreCurrent(ops[..n], budget, k);
    }
  }

  lemma KeptFromBefore(items: seq<Item>, op: Op, budget: nat, i: nat)
    requires NoDuplicates(items) && i < |Apply(items, op, budget)|
    requires var x := Apply(items, op, budget)[i]; !(op.Put? && op.bytes != [] && x == Item(op.key, op.bytes))
    ensures var x := Apply(items, op, budget)[i];
      exists k :: 0 <= k < |items| && items[k] == x && (op.Put? && op.bytes != [] ==> x.key != op.key)
  {
    var after := Apply(items, op, budget);
    var f := Find(items, op.key);
    if op.Put? && op.bytes == [] {
      assert after[i] == items[i];
    } else if f < |items| {
      if i == 0 {
        assert op.Get? && after[0] == items[f];
      } else {
        var k := if i - 1 < f then i - 1 else i;
        assert after[i] == items[k] && k != f;
        assert items[k].key != items[f].key;
      }
    } else if op.Get? {
      assert after[i] == items[i];
    } else {
      assert i > 0 && after[i] == items[i - 1];
    }
  }

  lemma {:induction false} DropPrefix(order: seq<string>, n: nat, key: string)
    requires n <= |order|
    ensures Drop(order[..n], key) <= Drop(order, key)
  {
    if n > 0 {
      DropPrefix(order[1..], n - 1, key);
      assert order[..n][1..] == order[1..][..n - 1];
    }
  }

  lemma {:induction false} DropAbsent(order: seq<string>, key: string)
    requires key !in order
    ensures Drop(order, key) == order
  {
    if order != [] {
      DropAbsent(order[1..], key);
    }
  }

  lemma {:induction false} DropOnce(order: seq<string>, i: nat, key: string)
    requires i < |order| && order[i] == key && forall k :: 0 <= k < |order| && k != i ==> order[k] != key
    ensures Drop(order, key) == order[..i] + order[i + 1..]
  {
    if i == 0 {
      DropAbsent(order[1..], key);
    } else {
      DropOnce(order[1..], i - 1, key);
      assert order[..i] + order[i + 1..] == [order[0]] + (order[1..][..i - 1] + order[1..][i..]);
    }
  }

  /** Least recently used means just that: the cached keys are at all times the most recent
      stretch of the recency order, so everything evicted is older than everything kept. */
  lemma {:induction false} CacheIsMostRecent(ops: seq<Op>, budget: nat)
    ensures Keys(Run(ops, budget)) <= Recency(ops, budget)
  {
    if ops != [] {
      var n := |ops| - 1;
      var before, op, after := Run(ops[..n], budget), ops[n], Run(ops, budget);
      CacheIsMostRecent(ops[..n], budget);
      RunNoDuplicates(ops[..n], budget);
      KeysAfter(before, op, budget);
      BumpPrefix(Keys(before), Recency(ops[..n], budget), op.key);
      if (op.Put? && op.bytes != []) || (op.Get? && Has(before, op.key)) {
        assert Recency(ops, budget) == Bump(Recency(ops[..n], budget), op.key);
        PrefixTwice(Keys(after), Bump(Keys(before), op.key), Recency(ops, budget));
      } else {
        assert Recency(ops, budget) == Recency(ops[..n], budget);
      }
    }
  }

  lemma PrefixTwice(a: seq<string>, b: seq<string>, c: seq<string>)
    requires a <= b && b <= c
    ensures a <= c
  {
  }

  lemma BumpPrefix(a: seq<string>, b: seq<string>, key: string)
    requires a <= b
    ensures Bump(a, key) <= Bump(b, key)
  {
    DropPrefix(b, |a|, key);
    assert b[..|a|] == a;
  }

  lemma KeysFront(items: seq<Item>, i: nat, x: Item)
    requires NoDuplicates(items) && i < |items| && x.key == items[i].key
    ensures Keys([x] + Without(items, i)) == Bump(Keys(items), x.key)
  {
    DropOnce(Keys(items), i, x.key);
    assert Keys([x] + Without(items, i)) == [x.key] + (Keys(items)[..i] + Keys(items)[i + 1..]);
  }

  lemma KeysAfter(items: seq<Item>, op: Op, budget: nat)
    requires NoDuplicates(items)
    ensures var after := Apply(items, op, budget);
      if (op.Put? && op.bytes != []) || (op.Get? && Has(items, op.key))
      then Keys(after) <= Bump(Keys(items), op.key)
      else after == items
  {
    if op.Put? && op.bytes != [] {
      KeysPut(items, op.key, op.bytes, budget);
    } else if op.Get? && Has(items, op.key) {
      KeysFront(items, Find(items, op.key), items[Find(items, op.key)]);
    }
  }

  lemma KeysPut(items: seq<Item>, key: string, bytes: Bytes, budget: nat)
    requires NoDuplicates(items) && bytes != []
    ensures Keys(PutItems(items, key, bytes, budget)) <= Bump(Keys(items), key)
  {
    var i := Find(items, key);
    if i < |items| {
      KeysFront(items, i, Item(key, bytes));
    } else {
      KeysInserted(items, Kept(items, budget - |bytes|), Item(key, bytes));
    }
  }

  lemma KeysInserted(items: seq<Item>, n: nat, x: Item)
    requires n <= |items| && !Has(items, x.key)
    ensures Keys([x] + items[..n]) <= Bump(Keys(items), x.key)
  {
    assert Keys([x] + items[..n]) == [x.key] + Keys(items)[..n];
    DropAbsent(Keys(items), x.key);
  }

  ghost predicate Within(items: seq<Item>, budget: nat) {
    Total(items) <= budget || |items| == 1
  }

  /** No put replaces an entry by a longer one. */
  ghost predicate NoGrowth(ops: seq<Op>, budget: nat) {
    forall n :: 0 <= n < |ops| && ops[n].Put? ==>
      var items := Run(ops[..n], budget);
      Has(items, ops[n].key) ==> |ops[n].bytes| <= |items[Find(items, ops[n].key)].bytes|
  }

  /** In particular, as long as entries do not grow in place, the cache is within its budget,
      or holds a single entry that is larger than that. */
  lemma {:induction false} BudgetKept(ops: seq<Op>, budget: nat)
    requires NoGrowth(ops, budget)
    ensures Within(Run(ops, budget), budget)
  {
    if ops != [] {
      var n := |ops| - 1;
      forall m | 0 <= m < n && ops[m].Put?
        ensures var items := Run(ops[..n][..m], budget);
          Has(items, ops[m].key) ==> |ops[m].bytes| <= |items[Find(items, ops[m].key)].bytes|
      {
        assert ops[..n][..m] == ops[..m];
      }
      assert NoGrowth(ops[..n], budget);
      BudgetKept(ops[..n], budget);
      ShrinkingFits(Run(ops[..n], budget), ops[n], budget);
      BudgetStep(Run(ops[..n], budget), ops[n], budget);
    }
  }

  lemma ShrinkingFits(items: seq<Item>, op: Op, budget: nat)
    requires Within(items, budget)
    requires op.Put? && Has(items, op.key) ==> |op.bytes| <= |items[Find(items, op.key)].bytes|
    ensures Fits(items, op, budget)
  {
  }

  /** An update in place leaves a total that fits, or changes the only entry there is. */
  predicate Fits(items: seq<Item>, op: Op, budget: nat) {
    op.Put? && op.bytes != [] && Has(items, op.key) ==>
      Total(items) - |items[Find(items, op.key)].bytes| + |op.bytes| <= budget || |items| == 1
  }

  lemma FrontRun(ops: seq<Op>, budget: nat, n: nat)
    requires n < |ops|
    ensures Run(ops[..n + 1], budget) == Apply(Run(ops[..n], budget), ops[n], budget)
  {
    assert ops[..n + 1][..n] == ops[..n];
  }

  lemma {:induction false} FittingKeepsBudget(ops: seq<Op>, budget: nat, n: nat)
    requires n <= |ops| && forall k: nat :: k < n ==> Fits(Run(ops[..k], budget), ops[k], budget)
    ensures Within(Run(ops[..n], budget), budget)
  {
    if n == 0 {
      assert ops[..0] == [];
    } else {
      FittingKeepsBudget(ops, budget, n - 1);
      FrontRun(ops, budget, n - 1);
      BudgetStep(Run(ops[..n - 1], budget), ops[n - 1], budget);
    }
  }

  /** Throughout a run the cache is within its budget, or holds a single entry, exactly when
      every update in place fits. */
  lemma BudgetKeptIff(ops: seq<Op>, budget: nat)
    ensures (forall n: nat :: n <= |ops| ==> Within(Run(ops[..n], budget), budget))
       <==> (forall n: nat :: n < |ops| ==> Fits(Run(ops[..n], budget), ops[n], budget))
  {
    if forall n: nat :: n < |ops| ==> Fits(Run(ops[..n], budget), ops[n], budget) {
      forall n: nat | n <= |ops| ensures Within(Run(ops[..n], budget), budget) {
        FittingKeepsBudget(ops, budget, n);
      }
    }
    if forall n: nat :: n <= |ops| ==> Within(Run(ops[..n], budget), budget) {
      forall n: nat | n < |ops| ensures Fits(Run(ops[..n], budget), ops[n], budget) {
        assert Within(Run(ops[..n + 1], budget), budget);
        FrontRun(ops, budget, n);
        BudgetStep(Run(ops[..n], budget), ops[n], budget);
      }
    }
  }

  /** One operation keeps the budget exactly unless it is an update that does not fit. */
  lemma BudgetStep(items: seq<Item>, op: Op, budget: nat)
    requires Within(items, budget)
    ensures Within(Apply(items, op, budget), budget) <==> Fits(items, op, budget)
  {
    if op.Get? {
      GetTotal(items, op.key);
    } else if op.bytes != [] {
      if Has(items, op.key) {
        UpdateTotal(items, op.key, op.bytes, budget);
      } else {
        InsertFits(items, op.key, op.bytes, budget);
      }
    }
  }

  /** The condition is needed: an entry that grows in place can take the cache over its
      budget with two entries in it. */
  lemma GrowthBreaksBudget()
    ensures !Within(Run([Put("a", [0]), Put("b", [0]), Put("a", [0, 0])], 2), 2)
  {
    var a, b, c := Put("a", [0]), Put("b", [0]), Put("a", [0, 0]);
    var ops := [a, b, c];
    assert ops[..2] == [a, b] && ops[..2][..1] == [a] && ops[..2][..1][..0] == [];
    var one := [Item("a", [0])];
    assert Run([], 2) == [];
    assert Run(ops[..2][..1], 2) == one;
    TotalOne(one[0]);
    assert Kept(one, 1) == 1;
    assert !Has(one, "b");
    var two := [Item("b", [0])] + one;
    assert Run(ops[..2], 2) == two;
    TotalConcat([Item("b", [0])], one);
    TotalOne(Item("b", [0]));
    assert two[0].key != "a" && Find(two, "a") == 1;
    UpdateTotal(two, "a", [0, 0], 2);
    assert Run(ops, 2) == PutItems(two, "a", [0, 0], 2);
  }

  // ---- Keys ----

  function CacheKey(archive: string, member: string): string { archive + "\n" + member }

  lemma KeyStartsLonger(a: string, m: string, b: string, k: string)
    requires CacheKey(a, m) == CacheKey(b, k) && |a| < |b|
    ensures a + "\n" <= b
  {
    var key := CacheKey(a, m);
    assert key[..|a|] == a && key[|a|] == '\n' && key[..|b|] == b;
    assert b[..|a|] == a && b[|a|] == '\n';
  }

  lemma KeyStartsSame(a: string, m: string, b: string, k: string)
    requires CacheKey(a, m) == CacheKey(b, k) && |a| == |b|
    ensures a == b
  {
    assert CacheKey(a, m)[..|a|] == a && CacheKey(b, k)[..|b|] == b;
  }

  lemma KeysMeet(a: string, b: string)
    requires a + "\n" <= b
    ensures CacheKey(a, b[|a| + 1..] + "\n") == CacheKey(b, "")
  {
    assert b == a + "\n" + b[|a| + 1..];
  }

  lemma KeyParts(a: string, m: string, k: string)
    requires CacheKey(a, m) == CacheKey(a, k)
    ensures m == k
  {
    assert CacheKey(a, m)[|a| + 1..] == m && CacheKey(a, k)[|a| + 1..] == k;
  }

  /** Members of two archives can share a key if and only if one archive's path followed by a
      newline begins the other's path. */
  lemma KeysCollideIff(a: string, b: string)
    requires a != b
    ensures (exists m: string, k: string :: CacheKey(a, m) == CacheKey(b, k)) <==> a + "\n" <= b || b + "\n" <= a
  {
    forall m: string, k: string | CacheKey(a, m) == CacheKey(b, k) ensures a + "\n" <= b || b + "\n" <= a {
      if |a| < |b| {
        KeyStartsLonger(a, m, b, k);
      } else if |b| < |a| {
        KeyStartsLonger(b, k, a, m);
      } else {
        KeyStartsSame(a, m, b, k);
      }
    }
    if a + "\n" <= b {
      KeysMeet(a, b);
    }
    if b + "\n" <= a {
      KeysMeet(b, a);
    }
  }

  /** So different members of any archives never share a key as long as neither path, followed by
      a newline, begins the other. */
  lemma KeysAreInjective(a: string, m: string, b: string, k: string)
    requires CacheKey(a, m) == CacheKey(b, k) && !(a + "\n" <= b) && !(b + "\n" <= a)
    ensures a == b && m == k
  {
    if a == b {
      KeyParts(a, m, k);
    } else {
      KeysCollideIff(a, b);
    }
  }

  lemma PrefixHasNewline(a: string, b: string)
    requires a + "\n" <= b
    ensures '\n' in b
  {
    assert b[|a|] == (a + "\n")[|a|];
  }

  /** Without newlines in archive paths a key always determines its member. */
  lemma PlainPathsDoNotCollide(a: string, m: string, b: string, k: string)
    requires '\n' !in a && '\n' !in b && CacheKey(a, m) == CacheKey(b, k)
    ensures a == b && m == k
  {
    if a + "\n" <= b {
      PrefixHasNewline(a, b);
    } else if b + "\n" <= a {
      PrefixHasNewline(b, a);
    } else {
      KeysAreInjective(a, m, b, k);
    }
  }

  /** With a newline in an archive path two members can share one. */
  lemma KeysCanCollide()
    ensures CacheKey("a\nb", "c") == CacheKey("a", "b\nc")
  {
  }

  // ---- The data structure ----

  /** A node of extract_cache_lru_; `id` stands for its address, which an iterator holds. */
  datatype Node = Node(id: nat, key: string)

  datatype Entry = Entry(bytes: Bytes, lruIt: nat)

  class Cache {
    var entries: map<string, Entry>
    var lru: seq<Node>
    var size: nat
    var nextId: nat
    const budget: nat

    /** List and map hold the same keys, once each; every entry's iterator stands at its own
        node; the byte counter is the sum of the entry sizes. */
    ghost predicate Valid()
      reads this
    {
      Represents(entries, lru, nextId, size)
    }

    ghost function Items(): seq<Item>
      reads this
    {
      ItemsOf(entries, lru)
    }

    constructor (budget: nat)
      ensures Valid() && Items() == [] && this.budget == budget
    {
      entries, lru, size, nextId := map[], [], 0, 0;
      this.budget := budget;
    }

    /** The node an iterator stands at. */
    static method Locate(lru: seq<Node>, it: nat, ghost i: nat) returns (k: nat)
      requires i < |lru| && lru[i].id == it && forall k :: 0 <= k < i ==> lru[k].id != it
      ensures k == i
    {
      k := 0;
      while lru[k].id != it
        invariant k <= i
        decreases i - k
      {
        k := k + 1;
      }
    }

    /** The list and map with the node of a known key erased and pushed to the front. */
    static method Refreshed(entries: map<string, Entry>, lru: seq<Node>, nextId: nat, key: string)
      returns (touched: map<string, Entry>, list: seq<Node>, ghost i: nat)
      requires Linked(entries, lru, nextId) && key in entries
      ensures i == At(lru, key) < |lru|
      ensures touched == entries[key := entries[key].(lruIt := nextId)]
      ensures list == [Node(nextId, lru[i].key)] + (lru[..i] + lru[i + 1..])
    {
      i := At(lru, key);
      KeyListed(entries, lru, nextId, key);
      FindItem(entries, lru, nextId, i);
      var k := Locate(lru, entries[key].lruIt, i);
      list := [Node(nextId, key)] + (lru[..k] + lru[k + 1..]);
      touched := entries[key := entries[key].(lruIt := nextId)];
    }

    /** Moves the node of a known key to the front. */
    method Touch(key: string)
      requires Valid() && key in entries
      modifies this`lru, this`entries, this`nextId
      ensures Valid()
      ensures var i := Find(old(Items()), key);
        i < |old(Items())| && Items() == [old(Items())[i]] + Without(old(Items()), i)
    {
      var touched, list; ghost var i;
      touched, list, i := Refreshed(entries, lru, nextId, key);
      FindItem(entries, lru, nextId, i);
      TouchedRepresents(entries, lru, nextId, size, i, touched, list);
      lru, entries, nextId := list, touched, nextId + 1;
    }

    /** Drops the least recently used entry. */
    method EvictLast()
      requires Valid() && lru != []
      modifies this`entries, this`lru, this`size
      ensures Valid() && |lru| == |old(lru)| - 1 && Items() == old(Items())[..|lru|]
      ensures forall key :: key in entries ==> key in old(entries)
    {
      var n := |lru| - 1;
      EvictedLinked(entries, lru, nextId);
      EvictedItems(entries, lru, nextId);
      var victim := lru[n].key;
      if victim in entries {
        size := size - |entries[victim].bytes|;
        entries := entries - {victim};
      }
      lru := lru[..n];
    }

    /** The eviction loop: from the least recent end until the new bytes fit. */
    method Evict(need: nat)
      requires Valid()
      modifies this`entries, this`lru, this`size
      ensures Valid() && Items() == old(Items())[..Kept(old(Items()), budget - need)]
      ensures forall key :: key in entries ==> key in old(entries)
    {
      ghost var was := Items();
      assert was[..|was|] == was;
      NotEmpty(entries, lru, nextId);
      while entries != map[] && size + need > budget
        invariant Valid() && |lru| <= |was| && Items() == was[..|lru|]
        invariant (entries == map[] <==> lru == []) && forall key :: key in entries ==> key in old(entries)
        invariant Kept(was, budget - need) == Kept(Items(), budget - need)
        decreases |lru|
      {
        ghost var n := |lru| - 1;
        EvictLast();
        assert was[..n + 1][..n] == was[..n];
        NotEmpty(entries, lru, nextId);
      }
    }

    /** extract_cache_put. */
    method Put(archive: string, member: string, bytes: Bytes)
      requires Valid()
      modifies this
      ensures Valid() && Items() == PutItems(old(Items()), CacheKey(archive, member), bytes, budget)
    {
      if bytes == [] {
        return;
      }
      var key := CacheKey(archive, member);
      if key in entries {
        Update(key, bytes);
        return;
      }
      AbsentKey(entries, lru, nextId, key);
      Evict(|bytes|);
      if |bytes| > budget {
        KeptNothing(old(Items()), budget - |bytes|);
        Clear();
      }
      PushFront(key, bytes);
    }

    method Clear()
      modifies this`entries, this`lru, this`size
      ensures Valid() && Items() == [] && entries == map[]
    {
      entries, lru, size := map[], [], 0;
    }

    method PushFront(key: string, bytes: Bytes)
      requires Valid() && key !in entries
      modifies this
      ensures Valid() && Items() == [Item(key, bytes)] + old(Items())
    {
      InsertedLinked(entries, lru, nextId, key, bytes);
      InsertedItems(entries, lru, nextId, key, bytes);
      lru := [Node(nextId, key)] + lru;
      size := size + |bytes|;
      entries := entries[key := Entry(bytes, nextId)];
      nextId := nextId + 1;
    }

    method Update(key: string, bytes: Bytes)
      requires Valid() && key in entries && bytes != []
      modifies this
      ensures Valid() && Items() == PutItems(old(Items()), key, bytes, budget)
    {
      ghost var i := At(lru, key);
      KeyListed(entries, lru, nextId, key);
      ghost var was := Items();
      FindItem(entries, lru, nextId, i);
      UpdatedLinked(entries, lru, nextId, i, bytes);
      UpdatedTotals(was, i, Item(key, bytes));
      size := size - |entries[key].bytes|;
      size := size + |bytes|;
      entries := entries[key := Entry(bytes, entries[key].lruIt)];
      FindItem(entries, lru, nextId, i);
      Touch(key);
    }

    /** extract_cache_get: a hit becomes the most recent entry, a miss changes nothing. */
    method Get(archive: string, member: string) returns (r: Option<Bytes>)
      requires Valid()
      modifies this`entries, this`lru, this`nextId
      ensures Valid() && Items() == GetItems(old(Items()), CacheKey(archive, member))
      ensures var i := Find(old(Items()), CacheKey(archive, member));
        r == if i < |old(Items())| then Some(old(Items())[i].bytes) else None
    {
      var key := CacheKey(archive, member);
      if key !in entries {
        AbsentKey(entries, lru, nextId, key);
        return None;
      }
      ghost var i := At(lru, key);
      KeyListed(entries, lru, nextId, key);
      FindItem(entries, lru, nextId, i);
      GetTotal(Items(), key);
      r := Some(entries[key].bytes);
      Touch(key);
    }
  }

  // ---- The representation ----

  function At(lru: seq<Node>, key: string): (i: nat)
    ensures i <= |lru| && (i < |lru| ==> lru[i].key == key)
    ensures forall k :: 0 <= k < i ==> lru[k].key != key
  {
    if lru == [] || lru[0].key == key then 0 else 1 + At(lru[1..], key)
  }

  predicate ApartAt(lru: seq<Node>, i: nat, k: nat) {
    i < k < |lru| ==> lru[i].key != lru[k].key && lru[i].id != lru[k].id
  }

  ghost predicate Apart(lru: seq<Node>) {
    forall i: nat, k: nat {:trigger ApartAt(lru, i, k)} :: ApartAt(lru, i, k)
  }

  predicate Points(entries: map<string, Entry>, x: Node, nextId: nat) {
    x.key in entries && entries[x.key].lruIt == x.id && x.id < nextId
  }

  ghost predicate Pointed(entries: map<string, Entry>, lru: seq<Node>, nextId: nat) {
    forall i {:trigger Points(entries, lru[i], nextId)} :: 0 <= i < |lru| ==> Points(entries, lru[i], nextId)
  }

  ghost predicate Covered(entries: map<string, Entry>, lru: seq<Node>) {
    forall key {:trigger At(lru, key)} :: key in entries ==> At(lru, key) < |lru|
  }

  ghost predicate Linked(entries: map<string, Entry>, lru: seq<Node>, nextId: nat) {
    Apart(lru) && Pointed(entries, lru, nextId) && Covered(entries, lru)
  }

  ghost predicate Represents(entries: map<string, Entry>, lru: seq<Node>, nextId: nat, size: nat) {
    Linked(entries, lru, nextId) && size == Total(ItemsOf(entries, lru))
  }

  function ItemOf(entries: map<string, Entry>, x: Node): Item {
    Item(x.key, if x.key in entries then entries[x.key].bytes else [])
  }

  function ItemsOf(entries: map<string, Entry>, lru: seq<Node>): (r: seq<Item>)
    ensures |r| == |lru| && forall i {:trigger r[i]} :: 0 <= i < |lru| ==> r[i] == ItemOf(entries, lru[i])
  {
    seq(|lru|, i requires 0 <= i < |lru| => ItemOf(entries, lru[i]))
  }

  lemma NotEmpty(entries: map<string, Entry>, lru: seq<Node>, nextId: nat)
    requires Linked(entries, lru, nextId)
    ensures entries == map[] <==> lru == []
  {
    if lru != [] {
      assert Points(entries, lru[0], nextId);
    } else {
      forall key ensures key !in entries { assert key in entries ==> At(lru, key) < |lru|; }
    }
  }

  lemma FindItem(entries: map<string, Entry>, lru: seq<Node>, nextId: nat, i: nat)
    requires Linked(entries, lru, nextId) && i < |lru|
    ensures lru[i].key in entries && entries[lru[i].key].lruIt == lru[i].id
    ensures var items := ItemsOf(entries, lru);
      Find(items, lru[i].key) == i && items[i] == Item(lru[i].key, entries[lru[i].key].bytes)
    ensures At(lru, lru[i].key) == i && forall k :: 0 <= k < i ==> lru[k].id != lru[i].id
  {
    assert Points(entries, lru[i], nextId);
    var items := ItemsOf(entries, lru);
    assert items[i] == ItemOf(entries, lru[i]);
    forall k | 0 <= k < i ensures items[k].key != lru[i].key && lru[k].key != lru[i].key && lru[k].id != lru[i].id {
      assert items[k] == ItemOf(entries, lru[k]) && ApartAt(lru, k, i);
    }
  }

  lemma KeyListed(entries: map<string, Entry>, lru: seq<Node>, nextId: nat, key: string)
    requires Linked(entries, lru, nextId) && key in entries
    ensures At(lru, key) < |lru|
  {
  }

  lemma AbsentKey(entries: map<string, Entry>, lru: seq<Node>, nextId: nat, key: string)
    requires Linked(entries, lru, nextId) && key !in entries
    ensures !Has(ItemsOf(entries, lru), key)
  {
    var items := ItemsOf(entries, lru);
    forall i | 0 <= i < |lru| ensures items[i].key != key {
      assert Points(entries, lru[i], nextId) && items[i] == ItemOf(entries, lru[i]);
    }
  }

  lemma AtSome(lru: seq<Node>, i: nat)
    requires i < |lru|
    ensures At(lru, lru[i].key) < |lru|
  {
  }

  lemma ApartFront(list: seq<Node>, i: nat, id: nat)
    requires Apart(list) && i < |list| && forall k :: 0 <= k < |list| ==> list[k].id < id
    ensures Apart([Node(id, list[i].key)] + (list[..i] + list[i + 1..]))
  {
    var lru := [Node(id, list[i].key)] + (list[..i] + list[i + 1..]);
    forall a: nat, b: nat ensures ApartAt(lru, a, b) {
      if a < b < |lru| {
        var y := if b <= i then b - 1 else b;
        assert lru[b] == list[y] && y != i && ApartAt(list, i, y) && ApartAt(list, y, i);
        if a > 0 {
          var x := if a <= i then a - 1 else a;
          assert lru[a] == list[x] && x < y && ApartAt(list, x, y);
        }
      }
    }
  }

  lemma CoveredFront(entries: map<string, Entry>, list: seq<Node>, i: nat, id: nat)
    requires Covered(entries, list) && i < |list|
    ensures Covered(entries, [Node(id, list[i].key)] + (list[..i] + list[i + 1..]))
  {
    var lru := [Node(id, list[i].key)] + (list[..i] + list[i + 1..]);
    forall key | key in entries ensures At(lru, key) < |lru| {
      var k := At(list, key);
      assert k < |list|;
      var m := if k == i then 0 else if k < i then k + 1 else k;
      assert lru[m].key == key;
      AtSome(lru, m);
    }
  }

  lemma PointedFront(was: map<string, Entry>, list: seq<Node>, id: nat, i: nat)
    requires Pointed(was, list, id) && Apart(list) && i < |list| && list[i].key in was
    ensures Pointed(was[list[i].key := was[list[i].key].(lruIt := id)],
                    [Node(id, list[i].key)] + (list[..i] + list[i + 1..]), id + 1)
  {
    var entries := was[list[i].key := was[list[i].key].(lruIt := id)];
    var lru := [Node(id, list[i].key)] + (list[..i] + list[i + 1..]);
    forall k | 0 <= k < |lru| ensures Points(entries, lru[k], id + 1) {
      if k > 0 {
        var x := if k <= i then k - 1 else k;
        assert lru[k] == list[x] && x != i && Points(was, list[x], id);
        assert ApartAt(list, x, i) && ApartAt(list, i, x);
      }
    }
  }

  /** The node of one key replaced by a new one at the front. */
  lemma TouchedLinked(was: map<string, Entry>, list: seq<Node>, id: nat, i: nat, entries: map<string, Entry>,
                      lru: seq<Node>)
    requires Linked(was, list, id) && i < |list| && list[i].key in was
    requires lru == [Node(id, list[i].key)] + (list[..i] + list[i + 1..])
    requires entries == was[list[i].key := was[list[i].key].(lruIt := id)]
    ensures Linked(entries, lru, id + 1)
  {
    forall k | 0 <= k < |list| ensures list[k].id < id { assert Points(was, list[k], id); }
    ApartFront(list, i, id);
    CoveredFront(entries, list, i, id);
    PointedFront(was, list, id, i);
  }

  lemma TouchedItems(was: map<string, Entry>, list: seq<Node>, id: nat, i: nat, entries: map<string, Entry>,
                     lru: seq<Node>)
    requires Linked(was, list, id) && i < |list| && list[i].key in was
    requires lru == [Node(id, list[i].key)] + (list[..i] + list[i + 1..])
    requires entries == was[list[i].key := was[list[i].key].(lruIt := id)]
    ensures ItemsOf(entries, lru) == [ItemsOf(was, list)[i]] + Without(ItemsOf(was, list), i)
  {
    var before, now := ItemsOf(was, list), ItemsOf(entries, lru);
    var moved := [before[i]] + Without(before, i);
    forall k | 0 <= k < |lru| ensures now[k] == moved[k] {
      if k > 0 {
        var x := if k <= i then k - 1 else k;
        assert lru[k] == list[x] && moved[k] == before[x] && ItemOf(entries, list[x]) == ItemOf(was, list[x]);
      }
    }
  }

  lemma TouchedRepresents(was: map<string, Entry>, list: seq<Node>, id: nat, size: nat, i: nat,
                          entries: map<string, Entry>, lru: seq<Node>)
    requires Represents(was, list, id, size) && i < |list| && list[i].key in was
    requires lru == [Node(id, list[i].key)] + (list[..i] + list[i + 1..])
    requires entries == was[list[i].key := was[list[i].key].(lruIt := id)]
    ensures Represents(entries, lru, id + 1, size)
    ensures ItemsOf(entries, lru) == [ItemsOf(was, list)[i]] + Without(ItemsOf(was, list), i)
  {
    TouchedLinked(was, list, id, i, entries, lru);
    TouchedItems(was, list, id, i, entries, lru);
    FrontTotal(ItemsOf(was, list), i);
  }

  lemma EvictedLinked(entries: map<string, Entry>, lru: seq<Node>, nextId: nat)
    requires Linked(entries, lru, nextId) && lru != []
    ensures var n := |lru| - 1; Linked(entries - {lru[n].key}, lru[..n], nextId)
  {
    var n := |lru| - 1;
    var rest := entries - {lru[n].key};
    forall k | 0 <= k < n ensures Points(rest, lru[..n][k], nextId) {
      assert Points(entries, lru[k], nextId) && ApartAt(lru, k, n);
    }
    forall i: nat, k: nat ensures ApartAt(lru[..n], i, k) { assert ApartAt(lru, i, k); }
    forall key | key in rest ensures At(lru[..n], key) < n {
      var k := At(lru, key);
      assert k < |lru| && k != n;
      AtSome(lru[..n], k);
    }
  }

  lemma EvictedItems(entries: map<string, Entry>, lru: seq<Node>, nextId: nat)
    requires Linked(entries, lru, nextId) && lru != []
    ensures var n := |lru| - 1; var victim := lru[n].key;
      && victim in entries
      && ItemsOf(entries - {victim}, lru[..n]) == ItemsOf(entries, lru)[..n]
      && Total(ItemsOf(entries, lru)) == Total(ItemsOf(entries, lru)[..n]) + |entries[victim].bytes|
  {
    var n := |lru| - 1;
    var rest := entries - {lru[n].key};
    assert Points(entries, lru[n], nextId);
    var a, b := ItemsOf(rest, lru[..n]), ItemsOf(entries, lru);
    forall k | 0 <= k < n ensures a[k] == b[k] {
      assert ApartAt(lru, k, n) && lru[..n][k] == lru[k];
    }
    assert a == b[..n];
    assert b[n] == ItemOf(entries, lru[n]);
  }

  lemma InsertedLinked(entries: map<string, Entry>, lru: seq<Node>, id: nat, key: string, bytes: Bytes)
    requires Linked(entries, lru, id) && key !in entries
    ensures Linked(entries[key := Entry(bytes, id)], [Node(id, key)] + lru, id + 1)
  {
    var e, l := entries[key := Entry(bytes, id)], [Node(id, key)] + lru;
    forall k | 0 <= k < |l| ensures Points(e, l[k], id + 1) {
      if k > 0 { assert l[k] == lru[k - 1] && Points(entries, lru[k - 1], id); }
    }
    forall k | k in e ensures At(l, k) < |l| {
      if k == key { AtSome(l, 0); } else { assert At(lru, k) < |lru|; AtSome(l, At(lru, k) + 1); }
    }
    forall a: nat, b: nat ensures ApartAt(l, a, b) {
      if a < b < |l| {
        assert l[b] == lru[b - 1] && Points(entries, lru[b - 1], id);
        if a > 0 { assert l[a] == lru[a - 1] && ApartAt(lru, a - 1, b - 1); }
      }
    }
  }

  lemma InsertedItems(entries: map<string, Entry>, lru: seq<Node>, id: nat, key: string, bytes: Bytes)
    requires Linked(entries, lru, id) && key !in entries
    ensures var e := entries[key := Entry(bytes, id)]; var l := [Node(id, key)] + lru;
      && ItemsOf(e, l) == [Item(key, bytes)] + ItemsOf(entries, lru)
      && Total(ItemsOf(e, l)) == |bytes| + Total(ItemsOf(entries, lru))
  {
    var e, l := entries[key := Entry(bytes, id)], [Node(id, key)] + lru;
    var a, b := ItemsOf(e, l), [Item(key, bytes)] + ItemsOf(entries, lru);
    forall k | 0 <= k < |l| ensures a[k] == b[k] {
      if k > 0 { assert l[k] == lru[k - 1] && Points(entries, lru[k - 1], id) && b[k] == ItemsOf(entries, lru)[k - 1]; }
    }
    assert a == b;
    TotalConcat([Item(key, bytes)], ItemsOf(entries, lru));
    TotalOne(Item(key, bytes));
  }

  lemma UpdatedLinked(entries: map<string, Entry>, lru: seq<Node>, nextId: nat, i: nat, bytes: Bytes)
    requires Linked(entries, lru, nextId) && i < |lru|
    ensures lru[i].key in entries
    ensures var key := lru[i].key; var e := entries[key := Entry(bytes, entries[key].lruIt)];
      Linked(e, lru, nextId) && ItemsOf(e, lru) == ItemsOf(entries, lru)[i := Item(key, bytes)]
  {
    assert Points(entries, lru[i], nextId);
    var key := lru[i].key;
    var e := entries[key := Entry(bytes, entries[key].lruIt)];
    forall k | 0 <= k < |lru| ensures Points(e, lru[k], nextId) { assert Points(entries, lru[k], nextId); }
    var a, b := ItemsOf(e, lru), ItemsOf(entries, lru)[i := Item(key, bytes)];
    forall k | 0 <= k < |lru| ensures a[k] == b[k] {
      assert ApartAt(lru, k, i) && ApartAt(lru, i, k) && ItemsOf(entries, lru)[k] == ItemOf(entries, lru[k]);
    }
    assert a == b;
  }

  /** The bookkeeping of an update, before the entry moves to the front. */
  lemma UpdatedTotals(items: seq<Item>, i: nat, x: Item)
    requires i < |items| && x.key == items[i].key
    ensures Total(items[i := x]) == Total(items) - |items[i].bytes| + |x.bytes| && Total(items) >= |items[i].bytes|
    ensures Without(items[i := x], i) == Without(items, i)
  {
    TotalWithout(items, i);
    TotalWithout(items[i := x], i);
    assert Without(items[i := x], i) == Without(items, i);
  }
}
