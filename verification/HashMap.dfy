/** The segmented hash map of tools/concurrent_hashmap.c, used by one thread at a time. Every bucket
    is a chain behind a head entry that lies inside its segment. The source keeps the number of
    buckets in one global variable, so that there is one live map; here it is a field. */
module HashMap {
  import opened Division

  const SEG_SIZE: int := 7

  /** The remainder as C defines it: it has the sign of the dividend. */
  function Remainder(a: int, b: int): int
    requires b > 0
  {
    if a >= 0 then a % b else -((-a) % b)
  }

  /** In C the quotient is cut off towards zero, and a is the quotient times b plus the remainder, which
      is nearer to zero than b. */
  lemma RemainderIs(a: int, b: int, q: int, r: int)
    requires b > 0 && a == q * b + r && -b < r < b && (if a >= 0 then r >= 0 else r <= 0)
    ensures Remainder(a, b) == r
  {
    if a >= 0 {
      DivisionIs(a, b, q, r);
    } else {
      DivisionIs(-a, b, -q, -r);
    }
  }

  /** hashmap_hash. */
  function Hash(key: int, hashCapacity: int): int
    requires hashCapacity > 0
  {
    Remainder(key, hashCapacity)
  }

  /** A negative key leads outside the segments, unless it is a multiple of the number of buckets. */
  predicate LegalKey(key: int, hashCapacity: int)
    requires hashCapacity > 0
  {
    key >= 0 || key % hashCapacity == 0
  }

  lemma HashInRange(key: int, hashCapacity: int)
    requires hashCapacity > 0
    ensures 0 <= Hash(key, hashCapacity) < hashCapacity <==> LegalKey(key, hashCapacity)
  {
    if key < 0 {
      var q := key / hashCapacity;
      var r := key % hashCapacity;
      DivisionIs(-key, hashCapacity, if r == 0 then -q else -q - 1, if r == 0 then 0 else hashCapacity - r);
    }
  }

  class Entry {
    const key: int
    const hash: int
    var value: int
    var next: Entry?
    ghost const home: int     // the bucket of a head, or -1

    constructor (key: int, value: int, hash: int, ghost home: int)
      ensures this.key == key && this.value == value && this.hash == hash && this.home == home && next == null
    {
      this.key, this.value, this.hash := key, value, hash;
      this.home := home;
      next := null;
    }
  }

  /** The entries behind head, in order, are those of chain. */
  ghost predicate Linked(head: Entry, chain: seq<Entry>)
    reads head, chain
  {
    && head.next == At(chain, 0)
    && (forall i {:trigger chain[i].next} :: 0 <= i < |chain| ==> chain[i].next == At(chain, i + 1))
  }

  /** Each entry is one of this bucket, and no key occurs twice. */
  ghost predicate IsBucket(chain: seq<Entry>, bucket: int, hashCapacity: int)
    requires hashCapacity > 0
  {
    && (forall i :: 0 <= i < |chain| ==> IsMember(chain[i], bucket, hashCapacity))
    && (forall i, j :: 0 <= i < j < |chain| ==> chain[i].key != chain[j].key)
  }

  ghost predicate IsMember(e: Entry, bucket: int, hashCapacity: int)
    requires hashCapacity > 0
  {
    e.home == -1 && e.hash == bucket && Hash(e.key, hashCapacity) == bucket
  }

  ghost predicate Buckets(chains: seq<seq<Entry>>, hashCapacity: int)
    requires hashCapacity > 0
  {
    |chains| == hashCapacity && forall b :: 0 <= b < hashCapacity ==> IsBucket(chains[b], b, hashCapacity)
  }

  /** The chains hold the keys of m, each in its bucket. */
  ghost predicate Keys(chains: seq<seq<Entry>>, m: map<int, int>, hashCapacity: int)
    requires hashCapacity > 0
  {
    && |chains| == hashCapacity
    && (forall b, i :: 0 <= b < hashCapacity && 0 <= i < |chains[b]| ==> chains[b][i].key in m)
    && (forall k :: k in m ==> HasKey(chains, k, hashCapacity))
  }

  ghost predicate HasKey(chains: seq<seq<Entry>>, key: int, hashCapacity: int)
    requires 0 < hashCapacity == |chains|
  {
    0 <= Hash(key, hashCapacity) < hashCapacity && Has(chains[Hash(key, hashCapacity)], key)
  }

  /** The entries hold the values of m. */
  ghost predicate HoldValues(chains: seq<seq<Entry>>, m: map<int, int>, repr: set<Entry>)
    reads repr
  {
    forall b, i :: 0 <= b < |chains| && 0 <= i < |chains[b]| ==>
      chains[b][i] in repr && chains[b][i].key in m && m[chains[b][i].key] == chains[b][i].value
  }

  ghost predicate NoRepeats(entries: seq<Entry>) {
    forall i, j :: 0 <= i < j < |entries| ==> entries[i] != entries[j]
  }

  /** Every entry that was ever allocated is in the chain of its bucket or has been freed, but not
      both, and nothing is freed twice. */
  ghost predicate FreedOnce(chains: seq<seq<Entry>>, freed: seq<Entry>, repr: set<Entry>) {
    && NoRepeats(freed)
    && (forall b, i :: 0 <= b < |chains| && 0 <= i < |chains[b]| ==> chains[b][i] !in freed)
    && (forall e: Entry :: e in freed ==> e in repr && e.home == -1)
    && (forall e: Entry :: e in repr && e.home == -1 && e !in freed ==> 0 <= e.hash < |chains| && e in chains[e.hash])
  }

  function At(chain: seq<Entry>, i: nat): Entry? {
    if i < |chain| then chain[i] else null
  }

  ghost predicate Has(chain: seq<Entry>, key: int) {
    exists i :: 0 <= i < |chain| && chain[i].key == key
  }

  ghost function Flat(chains: seq<seq<Entry>>): seq<Entry> {
    if chains == [] then [] else Flat(chains[..|chains| - 1]) + chains[|chains| - 1]
  }

  method NewSegment(ghost first: nat) returns (entrys: seq<Entry>)
    ensures |entrys| == SEG_SIZE
    ensures forall j :: 0 <= j < SEG_SIZE ==> fresh(entrys[j]) && entrys[j].home == first + j && entrys[j].next == null
  {
    entrys := [];
    for j := 0 to SEG_SIZE
      invariant |entrys| == j
      invariant forall i :: 0 <= i < j ==> fresh(entrys[i]) && entrys[i].home == first + i && entrys[i].next == null
    {
      var e := new Entry(0, 0, 0, first + j);
      entrys := entrys + [e];
    }
  }

  class HashMap {
    const hashCapacity: int
    const capacity: int
    const segs: seq<seq<Entry>>
    ghost const heads: seq<Entry>    // the heads of all segments, one after another
    var size: int
    ghost var m: map<int, int>
    ghost var chains: seq<seq<Entry>>
    ghost var repr: set<Entry>
    ghost var freed: seq<Entry>

    ghost predicate Shape() {
      && 0 < hashCapacity == |segs| * SEG_SIZE
      && -SEG_SIZE < capacity
      && |segs| == Segments(capacity)
      && (forall i :: 0 <= i < |segs| ==> |segs[i]| == SEG_SIZE)
      && |heads| == hashCapacity
      && (forall i, j {:trigger segs[i][j]} :: 0 <= i < |segs| && 0 <= j < SEG_SIZE ==>
            segs[i][j] == heads[i * SEG_SIZE + j])
      && (forall b :: 0 <= b < hashCapacity ==> heads[b].home == b)
    }

    /** The head of a bucket: the entry lies in segment bucket / 7. */
    function Head(bucket: int): (e: Entry)
      requires Shape() && 0 <= bucket < hashCapacity
      ensures e == heads[bucket]
    {
      segs[bucket / SEG_SIZE][bucket % SEG_SIZE]
    }

    ghost predicate InRepr(chains: seq<seq<Entry>>)
      reads this`repr
    {
      forall b, i :: 0 <= b < |chains| && 0 <= i < |chains[b]| ==> chains[b][i] in repr
    }

    ghost predicate Chained()
      requires Shape()
      reads this`chains, this`repr, repr
    {
      && |chains| == hashCapacity && InRepr(chains)
      && (forall b :: 0 <= b < hashCapacity ==> heads[b] in repr)
      && (forall b :: 0 <= b < hashCapacity ==> Linked(heads[b], chains[b]))
    }

    ghost predicate Linkage()
      reads this`chains, this`repr, repr
    {
      Shape() && Chained() && Buckets(chains, hashCapacity)
    }

    /** The chains hold m. */
    ghost predicate Contents()
      reads this`chains, this`repr, this`m, this`size, repr
      requires Shape()
    {
      Keys(chains, m, hashCapacity) && HoldValues(chains, m, repr) && size == |m|
    }

    ghost predicate Valid()
      reads this, repr
    {
      Linkage() && Contents() && FreedOnce(chains, freed, repr)
    }

    /** The chains are disjoint and without cycles, a key sits in the bucket of its hash only, once if
        the map has it and not at all otherwise, and the head of a bucket is in no chain. */
    lemma OnePlacePerKey()
      requires Valid()
      ensures forall b, i, c, j ::
        0 <= b < hashCapacity && 0 <= i < |chains[b]| && 0 <= c < hashCapacity && 0 <= j < |chains[c]| ==>
        (chains[b][i] == chains[c][j] || chains[b][i].key == chains[c][j].key ==> b == c && i == j)
      ensures forall b, c, i :: 0 <= b < hashCapacity && 0 <= c < hashCapacity && 0 <= i < |chains[c]| ==>
        heads[b] != chains[c][i]
      ensures forall b, k :: 0 <= b < hashCapacity ==> (Has(chains[b], k) <==> k in m && Hash(k, hashCapacity) == b)
    {
      forall b, i | 0 <= b < hashCapacity && 0 <= i < |chains[b]|
        ensures Hash(chains[b][i].key, hashCapacity) == b && chains[b][i].home == -1
      {
        assert IsMember(chains[b][i], b, hashCapacity);
      }
    }

    /** hashmap_init. */
    constructor (capacity: int)
      requires -SEG_SIZE < capacity
      ensures Valid() && m == map[] && freed == []
      ensures fresh(repr) && this.capacity == capacity && |segs| == Segments(capacity)
      ensures hashCapacity % 7 == 0
      ensures if capacity < 0 then hashCapacity == 7 else capacity < hashCapacity <= capacity + 7
    {
      SegmentsAre(capacity);
      var nmemb := Segments(capacity);
      var segs: seq<seq<Entry>> := [];
      ghost var heads: seq<Entry> := [];
      for i := 0 to nmemb
        invariant |segs| == i && |heads| == i * SEG_SIZE
        invariant forall k :: 0 <= k < i ==> |segs[k]| == SEG_SIZE
        invariant forall b :: 0 <= b < |heads| ==> fresh(heads[b]) && heads[b].home == b && heads[b].next == null
        invariant forall k, j {:trigger segs[k][j]} :: 0 <= k < i && 0 <= j < SEG_SIZE ==>
          segs[k][j] == heads[k * SEG_SIZE + j]
      {
        var entrys := NewSegment(i * SEG_SIZE);
        segs := segs + [entrys];
        heads := heads + entrys;
      }
      this.capacity := capacity;
      this.hashCapacity := nmemb * SEG_SIZE;
      this.segs, this.heads := segs, heads;
      this.size := 0;
      this.m, this.freed, this.repr := map[], [], set e | e in heads;
      this.chains := seq(nmemb * SEG_SIZE, _ => []);
    }

    /** hashmap_getentry. */
    method GetEntry(key: int) returns (entry: Entry?, ghost at: nat)
      requires Valid() && LegalKey(key, hashCapacity)
      ensures entry == null <==> key !in m
      ensures entry != null ==> entry.key == key && entry.value == m[key]
      ensures entry != null ==> var b := Hash(key, hashCapacity);
        0 <= b < hashCapacity && at < |chains[b]| && chains[b][at] == entry
    {
      HashInRange(key, hashCapacity);
      var hash := Hash(key, hashCapacity);
      var entryhead := Head(hash);
      entry, at := FindInChain(entryhead, key, chains[hash]);
    }

    /** Lines 113-124 and 137-148: a new entry at the end of its chain. */
    method Append(key: int, value: int)
      requires Valid() && LegalKey(key, hashCapacity) && key !in m
      modifies this`size, this`m, this`chains, this`repr, repr
      ensures Valid() && m == old(m)[key := value] && freed == old(freed)
      ensures fresh(repr - old(repr))
    {
      HashInRange(key, hashCapacity);
      var hash := Hash(key, hashCapacity);
      var entry := new Entry(key, value, hash, -1);
      var entryhead := Head(hash);
      var last := LastEntry(entryhead, chains[hash]);
      AppendedNotFreed(chains, freed, repr, hash, entry);
      PlaceEntry(last, entry, hash);
    }

    /** Lines 122-123 and 146-147. */
    method PlaceEntry(last: Entry, entry: Entry, ghost hash: int)
      requires Linkage() && Contents() && 0 <= hash < hashCapacity
      requires last == (if chains[hash] == [] then heads[hash] else chains[hash][|chains[hash]| - 1])
      requires IsMember(entry, hash, hashCapacity) && entry.next == null && entry !in repr && entry.key !in m
      modifies last`next, this`size, this`m, this`chains, this`repr
      ensures Linkage() && Contents() && m == old(m)[entry.key := entry.value]
      ensures chains == old(chains)[hash := old(chains[hash]) + [entry]] && repr == old(repr) + {entry}
    {
      hide IsBucket, Has, HasKey, Keys, HoldValues;
      RecordAppend(entry, hash);
      LinkKeepingValues(last, entry, hash);
      size := size + 1;
    }

    method LinkKeepingValues(last: Entry, entry: Entry, ghost hash: int)
      requires Shape() && Chained() && 0 <= hash < hashCapacity && Buckets(chains, hashCapacity)
      requires last == (if chains[hash] == [] then heads[hash] else chains[hash][|chains[hash]| - 1])
      requires entry.next == null && entry !in repr
      requires HoldValues(chains[hash := chains[hash] + [entry]], m, repr + {entry})
      modifies last`next, this`chains, this`repr
      ensures Chained()
      ensures chains == old(chains)[hash := old(chains[hash]) + [entry]] && repr == old(repr) + {entry}
      ensures HoldValues(chains, m, repr)
    {
      LinkEntry(last, entry, hash);
    }

    ghost method RecordAppend(entry: Entry, hash: int)
      requires Shape() && Buckets(chains, hashCapacity) && Keys(chains, m, hashCapacity) && HoldValues(chains, m, repr)
      requires 0 <= hash < hashCapacity && IsMember(entry, hash, hashCapacity) && entry.key !in m && entry !in repr
      modifies this`m
      ensures m == old(m)[entry.key := entry.value] && |m| == |old(m)| + 1
      ensures var chains' := chains[hash := chains[hash] + [entry]];
        && Buckets(chains', hashCapacity) && Keys(chains', m, hashCapacity)
        && HoldValues(chains', m, repr + {entry})
    {
      KeyAppended(chains, m, hashCapacity, hash, entry, entry.value);
      ValuesAppended(chains, m, hash, entry);
      m := m[entry.key := entry.value];
    }

    /** Lines 122 and 146. */
    method LinkEntry(last: Entry, entry: Entry, ghost hash: int)
      requires Shape() && Chained() && 0 <= hash < hashCapacity && Buckets(chains, hashCapacity)
      requires last == (if chains[hash] == [] then heads[hash] else chains[hash][|chains[hash]| - 1])
      requires entry.next == null && entry !in repr
      modifies last`next, this`chains, this`repr
      ensures Chained()
      ensures chains == old(chains)[hash := old(chains[hash]) + [entry]] && repr == old(repr) + {entry}
    {
      OthersApart(last, hash);
      last.next := entry;
      chains := chains[hash := chains[hash] + [entry]];
      repr := repr + {entry};
    }

    lemma ValuesAppended(chains: seq<seq<Entry>>, m: map<int, int>, hash: int, entry: Entry)
      requires HoldValues(chains, m, repr) && 0 <= hash < |chains|
      requires entry.key !in m
      ensures HoldValues(chains[hash := chains[hash] + [entry]], m[entry.key := entry.value], repr + {entry})
    {
    }

    /** hashmap_putIfAbsent. */
    method PutIfAbsent(key: int, value: int) returns (r: int)
      requires Valid() && LegalKey(key, hashCapacity)
      modifies this`size, this`m, this`chains, this`repr, repr
      ensures Valid() && freed == old(freed) && fresh(repr - old(repr))
      ensures r == if key in old(m) then 0 else 1
      ensures m == if key in old(m) then old(m) else old(m)[key := value]
    {
      var entry, at := GetEntry(key);
      if entry == null {
        Append(key, value);
        return 1;
      }
      return 0;
    }

    /** hashmap_put. */
    method Put(key: int, value: int) returns (r: int)
      requires Valid() && LegalKey(key, hashCapacity)
      modifies this`size, this`m, this`chains, this`repr, repr
      ensures Valid() && freed == old(freed) && fresh(repr - old(repr))
      ensures r == if key in old(m) then 0 else 1
      ensures m == old(m)[key := value]
    {
      var entry, at := GetEntry(key);
      if entry == null {
        Append(key, value);
        return 1;
      }
      SetValue(entry, at, value);
      return 0;
    }

    /** Line 152. */
    method SetValue(entry: Entry, ghost at: nat, value: int)
      requires Valid()
      requires 0 <= entry.hash < hashCapacity && at < |chains[entry.hash]| && chains[entry.hash][at] == entry
      modifies entry`value, this`m
      ensures Valid() && m == old(m)[entry.key := value]
    {
      hide IsBucket, FreedOnce, Keys, HoldValues, Linked;
      EntryAlone(chains, hashCapacity, entry, at);
      KeyUpdated(chains, m, hashCapacity, entry, at, value);
      ChangeValue(entry, value);
    }

    method ChangeValue(entry: Entry, value: int)
      requires Shape() && Chained() && HoldValues(chains, m, repr) && entry in repr
      requires forall b, i :: 0 <= b < |chains| && 0 <= i < |chains[b]| && chains[b][i].key == entry.key ==>
        chains[b][i] == entry
      modifies entry`value, this`m
      ensures Chained() && m == old(m)[entry.key := value] && HoldValues(chains, m, repr)
    {
      entry.value := value;
      m := m[entry.key := value];
    }

    /** hashmap_containsKey. */
    method ContainsKey(key: int) returns (r: int)
      requires Valid() && LegalKey(key, hashCapacity)
      ensures r == if key in m then 1 else 0
    {
      var entry, at := GetEntry(key);
      return if entry == null then 0 else 1;
    }

    /** hashmap_get: -1 stands for an absent key, or is the value that was put. */
    method Get(key: int) returns (r: int)
      requires Valid() && LegalKey(key, hashCapacity)
      ensures r == if key in m then m[key] else -1
    {
      var entry, at := GetEntry(key);
      if entry == null {
        return -1;
      }
      return entry.value;
    }

    /** hashmap_size. */
    method Size() returns (r: int)
      requires Valid()
      ensures r == |m|
    {
      return size;
    }

    /** hashmap_remove. */
    method Remove(key: int) returns (r: int)
      requires Valid() && LegalKey(key, hashCapacity)
      modifies this`size, this`m, this`chains, this`freed, repr
      ensures Valid()
      ensures r == if key in old(m) then 1 else 0
      ensures m == old(m) - {key}
      ensures key in old(m) ==> |freed| == |old(freed)| + 1 && freed[..|freed| - 1] == old(freed)
      ensures key !in old(m) ==> freed == old(freed)
    {
      hide IsBucket, FreedOnce, Linked;
      HashInRange(key, hashCapacity);
      var hash := Hash(key, hashCapacity);
      var entryhead, at := Predecessor(Head(hash), key, chains[hash]);
      if entryhead.next != null {
        RemovedIsFreed(chains, freed, repr, hashCapacity, hash, at);
        freed := freed + [entryhead.next];
        RemoveAfter(entryhead, hash, at);
        return 1;
      } else {
        return 0;
      }
    }

    /** Lines 205-208. */
    method RemoveAfter(entryhead: Entry, ghost hash: int, ghost at: nat)
      requires Linkage() && Contents() && 0 <= hash < hashCapacity && at < |chains[hash]|
      requires entryhead == (if at == 0 then heads[hash] else chains[hash][at - 1])
      modifies entryhead`next, this`size, this`m, this`chains
      ensures Linkage() && Contents() && m == old(m) - {old(chains[hash][at].key)}
      ensures chains == old(chains)[hash := Without(old(chains[hash]), at)]
    {
      hide IsBucket, Has, HasKey, Keys, HoldValues, FreedOnce;
      assert Linked(heads[hash], chains[hash]);
      var target := entryhead.next;
      RecordRemove(target, hash, at);
      UnlinkKeepingValues(entryhead, target, hash, at);
      size := size - 1;
    }

    ghost method RecordRemove(target: Entry, hash: int, at: nat)
      requires Shape() && Buckets(chains, hashCapacity) && Keys(chains, m, hashCapacity) && HoldValues(chains, m, repr)
      requires 0 <= hash < hashCapacity && at < |chains[hash]| && chains[hash][at] == target
      modifies this`m
      ensures m == old(m) - {target.key} && |m| == |old(m)| - 1
      ensures var chains' := chains[hash := Without(chains[hash], at)];
        && Buckets(chains', hashCapacity) && Keys(chains', m, hashCapacity)
        && HoldValues(chains', m, repr)
    {
      KeyRemoved(chains, m, hashCapacity, hash, at);
      ValuesRemoved(chains, m, hash, at);
      m := m - {target.key};
    }

    method UnlinkKeepingValues(entryhead: Entry, target: Entry, ghost hash: int, ghost at: nat)
      requires Shape() && Chained() && 0 <= hash < hashCapacity && Buckets(chains, hashCapacity)
      requires at < |chains[hash]| && chains[hash][at] == target
      requires entryhead == (if at == 0 then heads[hash] else chains[hash][at - 1])
      requires HoldValues(chains[hash := Without(chains[hash], at)], m, repr)
      modifies entryhead`next, this`chains
      ensures Chained()
      ensures chains == old(chains)[hash := Without(old(chains[hash]), at)]
      ensures HoldValues(chains, m, repr)
    {
      UnlinkEntry(entryhead, target, hash, at);
    }

    /** Line 206. */
    method UnlinkEntry(entryhead: Entry, target: Entry, ghost hash: int, ghost at: nat)
      requires Shape() && Chained() && 0 <= hash < hashCapacity && Buckets(chains, hashCapacity)
      requires at < |chains[hash]| && chains[hash][at] == target
      requires entryhead == (if at == 0 then heads[hash] else chains[hash][at - 1])
      modifies entryhead`next, this`chains
      ensures Chained()
      ensures chains == old(chains)[hash := Without(old(chains[hash]), at)]
    {
      OthersApart(entryhead, hash);
      CutAfter(heads[hash], entryhead, target, chains[hash], at);
      chains := chains[hash := Without(chains[hash], at)];
    }

    /** An entry is in one chain only. */
    lemma OthersApart(e: Entry, hash: int)
      requires Shape() && Buckets(chains, hashCapacity) && 0 <= hash < hashCapacity
      requires e.home == hash || IsMember(e, hash, hashCapacity)
      ensures forall b :: 0 <= b < hashCapacity && b != hash ==> heads[b] != e && e !in chains[b]
    {
      forall b | 0 <= b < hashCapacity && b != hash
        ensures heads[b] != e && e !in chains[b]
      {
        assert IsBucket(chains[b], b, hashCapacity);
      }
    }

    lemma ValuesRemoved(chains: seq<seq<Entry>>, m: map<int, int>, hash: int, at: nat)
      requires HoldValues(chains, m, repr) && hashCapacity > 0 && Buckets(chains, hashCapacity)
      requires 0 <= hash < |chains| && at < |chains[hash]|
      ensures HoldValues(chains[hash := Without(chains[hash], at)], m - {chains[hash][at].key}, repr)
    {
      WithoutAt(chains[hash], at);
      assert IsBucket(chains[hash], hash, hashCapacity);
      assert IsMember(chains[hash][at], hash, hashCapacity);
      forall b, i | 0 <= b < |chains| && b != hash && 0 <= i < |chains[b]|
        ensures chains[b][i].key != chains[hash][at].key
      {
        assert IsMember(chains[b][i], b, hashCapacity);
      }
    }

    /** hashmap_destroy. */
    method Destroy()
      requires Valid()
      modifies this`freed
      ensures NoRepeats(freed)
      ensures Elements(freed) == Allocated(repr)
    {
      AllFreed(chains, freed, repr, hashCapacity);
      ghost var all := freed + Flat(chains);
      FreeChains();
      assert freed == all;
    }

    method FreeChains()
      requires Linkage()
      modifies this`freed
      ensures freed == old(freed) + Flat(chains)
    {
      assert freed + Flat(chains[..0]) == freed;
      for i := 0 to Segments(capacity)
        invariant freed == old(freed) + Flat(chains[..i * SEG_SIZE])
      {
        FreeSegment(i, old(freed));
      }
      assert chains[..|chains|] == chains;
    }

    method FreeSegment(i: int, ghost before: seq<Entry>)
      requires Linkage() && 0 <= i < |segs| && freed == before + Flat(chains[..i * SEG_SIZE])
      modifies this`freed
      ensures freed == before + Flat(chains[..i * SEG_SIZE + SEG_SIZE])
    {
      for j := 0 to SEG_SIZE
        invariant freed == before + Flat(chains[..i * SEG_SIZE + j])
      {
        FreeBucket(i, j, before);
      }
    }

    method FreeBucket(i: int, j: int, ghost before: seq<Entry>)
      requires Linkage() && 0 <= i < |segs| && 0 <= j < SEG_SIZE
      requires freed == before + Flat(chains[..i * SEG_SIZE + j])
      modifies this`freed
      ensures freed == before + Flat(chains[..i * SEG_SIZE + j + 1])
    {
      ghost var b := i * SEG_SIZE + j;
      assert segs[i][j] == heads[b];
      FreedStep(before, chains, b);
      ghost var done := FreeChain(segs[i][j], chains[b]);
      freed := freed + done;
    }
  }

  ghost function Without(chain: seq<Entry>, at: nat): seq<Entry>
    requires at < |chain|
  {
    chain[..at] + chain[at + 1..]
  }

  // ---------------------------------------------------------------- walks along a chain

  /** Lines 162-169. */
  method FindInChain(head: Entry, key: int, ghost chain: seq<Entry>)
    returns (entry: Entry?, ghost at: nat)
    requires Linked(head, chain)
    ensures entry == null <==> !Has(chain, key)
    ensures entry != null ==> at < |chain| && chain[at] == entry && entry.key == key
  {
    var entryhead: Entry? := head;
    ghost var n: nat := 0;
    while entryhead != null
      invariant n <= |chain| + 1
      invariant entryhead == if n == 0 then head else At(chain, n - 1)
      invariant forall i :: 0 <= i < n && i < |chain| ==> chain[i].key != key
      decreases |chain| + 1 - n
    {
      entryhead := entryhead.next;
      assert entryhead == At(chain, n);
      if entryhead != null && entryhead.key == key {
        return entryhead, n;
      }
      n := n + 1;
    }
    return null, 0;
  }

  /** Lines 119-121 and 143-145. */
  method LastEntry(head: Entry, ghost chain: seq<Entry>) returns (e: Entry)
    requires Linked(head, chain)
    ensures e == if chain == [] then head else chain[|chain| - 1]
  {
    e := head;
    ghost var n: nat := 0;
    while e.next != null
      invariant n <= |chain|
      invariant e == if n == 0 then head else chain[n - 1]
      decreases |chain| - n
    {
      e := e.next;
      n := n + 1;
    }
  }

  /** Lines 197-200: the entry whose successor has the key, or the last. */
  method Predecessor(head: Entry, key: int, ghost chain: seq<Entry>)
    returns (e: Entry, ghost at: nat)
    requires Linked(head, chain)
    ensures at <= |chain| && e == (if at == 0 then head else chain[at - 1]) && e.next == At(chain, at)
    ensures at < |chain| <==> Has(chain, key)
    ensures at < |chain| ==> chain[at].key == key
  {
    e, at := head, 0;
    while e.next != null && e.next.key != key
      invariant at <= |chain|
      invariant e == if at == 0 then head else chain[at - 1]
      invariant forall i :: 0 <= i < at ==> chain[i].key != key
      decreases |chain| - at
    {
      e := e.next;
      at := at + 1;
    }
  }

  // ---------------------------------------------------------------- changes of a chain

  method CutAfter(ghost head: Entry, entryhead: Entry, target: Entry, ghost chain: seq<Entry>, ghost at: nat)
    requires Linked(head, chain) && head !in chain && at < |chain| && chain[at] == target
    requires entryhead == (if at == 0 then head else chain[at - 1])
    requires forall i, j :: 0 <= i < j < |chain| ==> chain[i] != chain[j]
    modifies entryhead`next
    ensures Linked(head, Without(chain, at))
  {
    entryhead.next := target.next;
    WithoutAt(chain, at);
  }

  lemma KeyAppended(chains: seq<seq<Entry>>, m: map<int, int>, hashCapacity: int, hash: int, entry: Entry, value: int)
    requires hashCapacity > 0 && Buckets(chains, hashCapacity) && Keys(chains, m, hashCapacity)
    requires 0 <= hash < hashCapacity && IsMember(entry, hash, hashCapacity) && entry.key !in m
    ensures var chains' := chains[hash := chains[hash] + [entry]];
      Buckets(chains', hashCapacity) && Keys(chains', m[entry.key := value], hashCapacity)
  {
    var chain, chains' := chains[hash] + [entry], chains[hash := chains[hash] + [entry]];
    assert chain[|chains[hash]|].key == entry.key;
    forall k | k in m
      ensures HasKey(chains', k, hashCapacity)
    {
      var h := Hash(k, hashCapacity);
      assert HasKey(chains, k, hashCapacity);
      var i :| 0 <= i < |chains[h]| && chains[h][i].key == k;
      assert chains'[h][i].key == k;
    }
  }

  lemma AppendedNotFreed(chains: seq<seq<Entry>>, freed: seq<Entry>, repr: set<Entry>, hash: int, entry: Entry)
    requires FreedOnce(chains, freed, repr) && 0 <= hash < |chains| && entry !in repr && entry.hash == hash
    ensures FreedOnce(chains[hash := chains[hash] + [entry]], freed, repr + {entry})
  {
    var chain := chains[hash] + [entry];
    assert chain[|chains[hash]|] == entry;
    assert forall e: Entry :: e in chains[hash] ==> e in chain;
  }

  lemma KeyUpdated(chains: seq<seq<Entry>>, m: map<int, int>, hashCapacity: int, entry: Entry, at: nat, value: int)
    requires hashCapacity > 0 && Keys(chains, m, hashCapacity)
    requires 0 <= entry.hash < hashCapacity && at < |chains[entry.hash]| && chains[entry.hash][at] == entry
    ensures Keys(chains, m[entry.key := value], hashCapacity) && |m[entry.key := value]| == |m|
  {
    assert entry.key in m;
  }

  /** A key belongs to one entry only. */
  lemma EntryAlone(chains: seq<seq<Entry>>, hashCapacity: int, entry: Entry, at: nat)
    requires hashCapacity > 0 && Buckets(chains, hashCapacity)
    requires 0 <= entry.hash < hashCapacity && at < |chains[entry.hash]| && chains[entry.hash][at] == entry
    ensures forall b, i :: 0 <= b < hashCapacity && 0 <= i < |chains[b]| && chains[b][i].key == entry.key ==>
      chains[b][i] == entry
  {
    forall b, i | 0 <= b < hashCapacity && 0 <= i < |chains[b]| && chains[b][i].key == entry.key
      ensures chains[b][i] == entry
    {
      assert IsMember(chains[b][i], b, hashCapacity) && IsMember(entry, entry.hash, hashCapacity);
    }
  }

  lemma WithoutAt(chain: seq<Entry>, at: nat)
    requires at < |chain|
    ensures var rest := Without(chain, at);
      forall i :: 0 <= i < |rest| ==> rest[i] == if i < at then chain[i] else chain[i + 1]
  {
  }

  lemma BucketRemoved(chain: seq<Entry>, bucket: int, hashCapacity: int, at: nat)
    requires hashCapacity > 0 && IsBucket(chain, bucket, hashCapacity) && at < |chain|
    ensures IsBucket(Without(chain, at), bucket, hashCapacity)
    ensures forall k :: Has(Without(chain, at), k) <==> Has(chain, k) && k != chain[at].key
  {
    var rest := Without(chain, at);
    assert forall i :: 0 <= i < |rest| ==> rest[i] == if i < at then chain[i] else chain[i + 1];
    forall k | Has(chain, k) && k != chain[at].key
      ensures Has(rest, k)
    {
      var i :| 0 <= i < |chain| && chain[i].key == k;
      assert rest[if i < at then i else i - 1].key == k;
    }
  }

  lemma KeyRemoved(chains: seq<seq<Entry>>, m: map<int, int>, hashCapacity: int, hash: int, at: nat)
    requires hashCapacity > 0 && Buckets(chains, hashCapacity) && Keys(chains, m, hashCapacity)
    requires 0 <= hash < hashCapacity && at < |chains[hash]|
    ensures var chains' := chains[hash := Without(chains[hash], at)];
      var key := chains[hash][at].key;
      Buckets(chains', hashCapacity) && Keys(chains', m - {key}, hashCapacity) && |m - {key}| == |m| - 1
  {
    var chains': seq<seq<Entry>> := chains[hash := Without(chains[hash], at)];
    var key := chains[hash][at].key;
    BucketRemoved(chains[hash], hash, hashCapacity, at);
    assert (m - {key})[key := m[key]] == m;
    forall b, i | 0 <= b < hashCapacity && 0 <= i < |chains'[b]|
      ensures chains'[b][i].key in m - {key}
    {
      assert Has(chains'[b], chains'[b][i].key);
      if b == hash {
        assert Has(chains[b], chains'[b][i].key);
      } else {
        assert IsMember(chains[b][i], b, hashCapacity) && IsMember(chains[hash][at], hash, hashCapacity);
      }
    }
    forall k | k in m - {key}
      ensures HasKey(chains', k, hashCapacity)
    {
      assert HasKey(chains, k, hashCapacity);
    }
  }

  lemma RemovedIsFreed(chains: seq<seq<Entry>>, freed: seq<Entry>, repr: set<Entry>, hashCapacity: int, hash: int,
      at: nat)
    requires hashCapacity > 0 && Buckets(chains, hashCapacity) && FreedOnce(chains, freed, repr)
    requires 0 <= hash < hashCapacity && at < |chains[hash]| && chains[hash][at] in repr
    ensures FreedOnce(chains[hash := Without(chains[hash], at)], freed + [chains[hash][at]], repr)
  {
    var chains': seq<seq<Entry>>, target := chains[hash := Without(chains[hash], at)], chains[hash][at];
    WithoutAt(chains[hash], at);
    assert IsBucket(chains[hash], hash, hashCapacity);
    assert IsMember(target, hash, hashCapacity);
    forall b, i | 0 <= b < hashCapacity && 0 <= i < |chains'[b]|
      ensures chains'[b][i] !in freed + [target]
    {
      if b != hash {
        assert IsMember(chains[b][i], b, hashCapacity);
      }
    }
    forall e: Entry | e in repr && e.home == -1 && e !in freed + [target]
      ensures 0 <= e.hash < |chains'| && e in chains'[e.hash]
    {
      if e.hash == hash {
        var i :| 0 <= i < |chains[hash]| && chains[hash][i] == e;
        assert Without(chains[hash], at)[if i < at then i else i - 1] == e;
      }
    }
  }

  // ---------------------------------------------------------------- hashmap_destroy

  /** Lines 90-96: the entries that are freed, in order. */
  method FreeChain(head: Entry, ghost chain: seq<Entry>) returns (ghost freed: seq<Entry>)
    requires Linked(head, chain)
    ensures freed == chain
  {
    freed := [];
    var entry := head.next;
    while entry != null
      invariant |freed| <= |chain| && freed == chain[..|freed|] && entry == At(chain, |freed|)
      decreases |chain| - |freed|
    {
      var tmp := entry.next;
      freed := freed + [entry];
      entry := tmp;
    }
  }

  lemma {:induction false} FlatEntries(chains: seq<seq<Entry>>, hashCapacity: int, n: nat)
    requires hashCapacity > 0 && Buckets(chains, hashCapacity) && n <= |chains|
    ensures forall e: Entry :: e in Flat(chains[..n]) <==> 0 <= e.hash < n && e in chains[e.hash]
    ensures NoRepeats(Flat(chains[..n]))
  {
    if n > 0 {
      FlatEntries(chains, hashCapacity, n - 1);
      FlatStep(chains, n - 1);
      assert IsBucket(chains[n - 1], n - 1, hashCapacity);
      BucketHashes(chains[n - 1], n - 1, hashCapacity);
    }
  }

  lemma FreedStep(before: seq<Entry>, chains: seq<seq<Entry>>, n: nat)
    requires n < |chains|
    ensures before + Flat(chains[..n + 1]) == before + Flat(chains[..n]) + chains[n]
  {
    FlatStep(chains, n);
  }

  lemma BucketHashes(chain: seq<Entry>, bucket: int, hashCapacity: int)
    requires hashCapacity > 0 && IsBucket(chain, bucket, hashCapacity)
    ensures NoRepeats(chain) && forall e: Entry :: e in chain ==> e.hash == bucket && e.home == -1
  {
  }

  lemma FlatStep(chains: seq<seq<Entry>>, n: nat)
    requires n < |chains|
    ensures Flat(chains[..n + 1]) == Flat(chains[..n]) + chains[n]
  {
    assert chains[..n + 1][..n] == chains[..n];
  }

  /** Once the chains have been freed, every entry that was ever allocated has been freed, and
      exactly once. */
  lemma AllFreed(chains: seq<seq<Entry>>, freed: seq<Entry>, repr: set<Entry>, hashCapacity: int)
    requires hashCapacity > 0 && Buckets(chains, hashCapacity) && FreedOnce(chains, freed, repr)
    requires forall b, i :: 0 <= b < |chains| && 0 <= i < |chains[b]| ==> chains[b][i] in repr
    ensures NoRepeats(freed + Flat(chains))
    ensures Elements(freed + Flat(chains)) == Allocated(repr)
  {
    FlatEntries(chains, hashCapacity, |chains|);
    var flat := Flat(chains);
    assert chains[..|chains|] == chains;
    assert NoRepeats(flat);
    forall e: Entry | e in flat
      ensures e in repr && e.home == -1 && e !in freed
    {
      assert 0 <= e.hash < |chains| && e in chains[e.hash];
      assert IsBucket(chains[e.hash], e.hash, hashCapacity);
      var i :| 0 <= i < |chains[e.hash]| && chains[e.hash][i] == e;
      assert IsMember(chains[e.hash][i], e.hash, hashCapacity);
    }
    NoRepeatsJoined(freed, flat);
  }

  ghost function Elements(entries: seq<Entry>): set<Entry> {
    set e | e in entries
  }

  /** The entries that are not heads, and so were allocated one by one. */
  ghost function Allocated(repr: set<Entry>): set<Entry> {
    set e: Entry | e in repr && e.home == -1
  }

  lemma NoRepeatsJoined(a: seq<Entry>, b: seq<Entry>)
    requires NoRepeats(a) && NoRepeats(b) && forall e: Entry :: e in b ==> e !in a
    ensures NoRepeats(a + b)
  {
    forall i, j | 0 <= i < j < |a + b|
      ensures (a + b)[i] != (a + b)[j]
    {
      if i < |a| <= j {
        assert b[j - |a|] in b;
      }
    }
  }

  lemma SegmentsAre(capacity: int)
    requires -SEG_SIZE < capacity
    ensures var buckets := Segments(capacity) * SEG_SIZE;
      buckets % 7 == 0 && (if capacity < 0 then buckets == 7 else capacity < buckets <= capacity + 7)
  {
  }

  /** The quotient is truncated towards zero. */
  function Segments(capacity: int): nat
    requires -SEG_SIZE < capacity
  {
    if capacity < 0 then 1 else capacity / SEG_SIZE + 1
  }
}
