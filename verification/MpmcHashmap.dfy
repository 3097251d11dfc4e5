/**
  The hash map used sequentially: an open-addressed index from 40-bit hashes to element numbers, with
  linear probing no further than the largest spread seen, over a store of elements whose free slots
  are handed out first in, first out.
 */
module MpmcHashmap {
  import opened Arithmetic
  import opened Wrappers

  const KEY_LIMIT: nat := 0x100_0000_0000
  const VALUE_LIMIT: nat := 0x100_0000

  /** A slot of the index. A value of zero marks an empty slot. */
  datatype Slot = Slot(key: nat, value: nat)

  const EMPTY: Slot := Slot(0, 0)

  function Mask(key: nat): (masked: nat)
    ensures masked < KEY_LIMIT
  {
    key % KEY_LIMIT
  }

  // ---------------------------------------------------------------------------------------
  // Probing

  function Position(start: nat, offset: nat, size: nat): (p: nat)
    requires size > 0
    ensures p < size
  {
    (start + offset) % size
  }

  /** How many probes from the home slot of a key reach a slot. */
  function Distance(start: nat, p: nat, size: nat): (d: nat)
    requires size > 0
    ensures d < size
  {
    (p - start) % size
  }

  lemma ProbeReaches(start: nat, p: nat, size: nat)
    requires p < size
    ensures Position(start, Distance(start, p, size), size) == p
  {
    var d := Distance(start, p, size);
    var turns := (p - start) / size;
    assert start + d == p + (-turns) * size;
    DivModUnique(start + d, size, -turns, p);
  }

  lemma ProbeDistance(start: nat, offset: nat, size: nat)
    requires offset < size
    ensures Distance(start, Position(start, offset, size), size) == offset
  {
    var p := Position(start, offset, size);
    var turns := (start + offset) / size;
    assert p - start == (-turns) * size + offset;
    DivModUnique(p - start, size, -turns, offset);
  }

  // ---------------------------------------------------------------------------------------
  // The index as a map

  ghost predicate DistinctKeys(slots: seq<Slot>) {
    forall p, q :: 0 <= p < q < |slots| && slots[p].value != 0 && slots[q].value != 0 ==> slots[p].key != slots[q].key
  }

  /** Every key is stored within the spread of its home slot, although removals leave holes. */
  ghost predicate WithinSpread(slots: seq<Slot>, spread: nat) {
    forall p :: 0 <= p < |slots| && slots[p].value != 0 ==> Distance(slots[p].key, p, |slots|) < spread
  }

  ghost predicate IndexOk(slots: seq<Slot>, spread: nat) {
    && DistinctKeys(slots) && WithinSpread(slots, spread)
    && (forall p :: 0 <= p < |slots| ==> slots[p].key < KEY_LIMIT && (slots[p].value == 0 ==> slots[p] == EMPTY))
    && spread <= |slots| && (|slots| > 0 ==> spread > 0)
  }

  ghost function Entries(slots: seq<Slot>): map<nat, nat>
    requires DistinctKeys(slots)
  {
    map p | 0 <= p < |slots| && slots[p].value != 0 :: slots[p].key := slots[p].value
  }

  ghost predicate Has(slots: seq<Slot>, k: nat, v: nat) {
    v != 0 && exists p :: 0 <= p < |slots| && slots[p] == Slot(k, v)
  }

  lemma EntriesHave(slots: seq<Slot>)
    requires DistinctKeys(slots)
    ensures forall k :: k in Entries(slots) ==> Has(slots, k, Entries(slots)[k])
    ensures forall k, v :: Has(slots, k, v) ==> k in Entries(slots) && Entries(slots)[k] == v
  {
    forall k | k in Entries(slots) ensures Has(slots, k, Entries(slots)[k]) {
      var p :| 0 <= p < |slots| && slots[p].value != 0 && slots[p].key == k;
      assert slots[p] == Slot(k, Entries(slots)[k]);
    }
  }

  lemma EntryAt(slots: seq<Slot>, p: nat)
    requires DistinctKeys(slots) && p < |slots| && slots[p].value != 0
    ensures slots[p].key in Entries(slots) && Entries(slots)[slots[p].key] == slots[p].value
  {
  }

  /** Indexes with the same used slots, wherever they are, have the same entries. */
  lemma SameEntries(a: seq<Slot>, b: seq<Slot>)
    requires DistinctKeys(a) && DistinctKeys(b)
    requires forall k, v :: Has(a, k, v) <==> Has(b, k, v)
    ensures Entries(a) == Entries(b)
  {
    hide Has, Entries;
    EntriesHave(a);
    EntriesHave(b);
  }

  lemma SameMaps(a: map<nat, nat>, b: map<nat, nat>)
    requires forall k :: k in a ==> k in b && b[k] == a[k]
    requires forall k :: k in b ==> k in a
    ensures a == b
  {
  }

  lemma HasAfter(slots: seq<Slot>, p: nat, slot: Slot, k: nat, v: nat)
    requires p < |slots| && (slots[p].value == 0 || slot.value == 0)
    requires slots[p].value != 0 ==> DistinctKeys(slots)
    ensures Has(slots[p := slot], k, v) <==>
      (Has(slots, k, v) && !(slots[p].value != 0 && k == slots[p].key)) || (v != 0 && slot == Slot(k, v))
  {
    var after := slots[p := slot];
    if Has(slots, k, v) {
      var q :| 0 <= q < |slots| && slots[q] == Slot(k, v);
      assert after[q] == if q == p then slot else slots[q];
      assert slots[p].value != 0 && q != p ==> slots[p].key != k;
    }
    if Has(after, k, v) {
      var q :| 0 <= q < |slots| && after[q] == Slot(k, v);
      assert q != p ==> slots[q] == after[q];
    }
    assert after[p] == slot;
  }

  lemma EntriesInsert(slots: seq<Slot>, p: nat, slot: Slot)
    requires DistinctKeys(slots) && p < |slots| && slots[p].value == 0 && slot.value != 0
    requires slot.key !in Entries(slots)
    ensures DistinctKeys(slots[p := slot])
    ensures Entries(slots[p := slot]) == Entries(slots)[slot.key := slot.value]
  {
    hide Entries, Has;
    var after := slots[p := slot];
    EntriesHave(slots);
    forall q | 0 <= q < |slots| && slots[q].value != 0 ensures slots[q].key != slot.key { EntryAt(slots, q); }
    EntriesHave(after);
    forall k, v ensures Has(after, k, v) <==> Has(slots, k, v) || (v != 0 && slot == Slot(k, v)) {
      HasAfter(slots, p, slot, k, v);
    }
    assert Has(after, slot.key, slot.value);
    SameMaps(Entries(after), Entries(slots)[slot.key := slot.value]);
  }

  lemma EntriesRemove(slots: seq<Slot>, p: nat)
    requires DistinctKeys(slots) && p < |slots| && slots[p].value != 0
    ensures DistinctKeys(slots[p := EMPTY])
    ensures Entries(slots[p := EMPTY]) == Entries(slots) - {slots[p].key}
  {
    hide Entries, Has;
    var after := slots[p := EMPTY];
    EntriesHave(slots);
    EntriesHave(after);
    forall k, v ensures Has(after, k, v) <==> Has(slots, k, v) && k != slots[p].key {
      HasAfter(slots, p, EMPTY, k, v);
    }
    SameMaps(Entries(after), Entries(slots) - {slots[p].key});
  }

  /** An index with a free place behind it has the same entries. */
  lemma EntriesLonger(slots: seq<Slot>)
    requires DistinctKeys(slots)
    ensures DistinctKeys(slots + [EMPTY]) && Entries(slots + [EMPTY]) == Entries(slots)
  {
    var more := slots + [EMPTY];
    forall k, v ensures Has(slots, k, v) <==> Has(more, k, v) {
      if Has(slots, k, v) {
        var p :| 0 <= p < |slots| && slots[p] == Slot(k, v);
        assert more[p] == slots[p];
      }
    }
    SameEntries(slots, more);
  }

  lemma NewKey(slots: seq<Slot>, n: nat)
    requires DistinctKeys(slots) && n < |slots| && slots[n].value != 0
    ensures slots[n].key !in Entries(slots[..n])
  {
  }

  /** Adding one slot at the end adds one entry if the slot is used. */
  lemma EntriesOneMore(slots: seq<Slot>, n: nat)
    requires DistinctKeys(slots) && n < |slots|
    ensures |Entries(slots[..n + 1])| == |Entries(slots[..n])| + if slots[n].value != 0 then 1 else 0
  {
    hide Entries, Has;
    var most, slot := slots[..n], slots[n];
    var longer := most + [EMPTY];
    EntriesLonger(most);
    assert longer[n := slot] == slots[..n + 1];
    if slot.value != 0 {
      NewKey(slots, n);
      EntriesInsert(longer, n, slot);
    } else {
      forall k, v ensures Has(longer, k, v) <==> Has(slots[..n + 1], k, v) { HasAfter(longer, n, slot, k, v); }
      SameEntries(longer, slots[..n + 1]);
    }
  }

  lemma NoEntries()
    ensures DistinctKeys([]) && Entries([]) == map[]
  {
  }

  /** An index has as many entries as used slots: all of them are used when it is full. */
  lemma {:induction false} CountEntries(slots: seq<Slot>, n: nat)
    requires DistinctKeys(slots) && n <= |slots|
    ensures |Entries(slots[..n])| <= n
    ensures |Entries(slots[..n])| == n <==> forall p :: 0 <= p < n ==> slots[p].value != 0
  {
    hide Entries, DistinctKeys;
    if n == 0 {
      assert slots[..0] == [];
      NoEntries();
    } else {
      CountEntries(slots, n - 1);
      EntriesOneMore(slots, n - 1);
    }
  }

  class MurmurHashIndex {
    var slots: seq<Slot>
    var maxSpread: nat

    ghost predicate Valid()
      reads this
    {
      IndexOk(slots, maxSpread)
    }

    ghost function Map(): map<nat, nat>
      requires Valid()
      reads this
    {
      Entries(slots)
    }

    constructor (elementCount: nat)
      ensures Valid() && |slots| == elementCount && Map() == map[]
    {
      slots := seq(elementCount, _ => EMPTY);
      maxSpread := if elementCount == 0 then 0 else 1;
    }

    /** Looks a key up, no further than the spread. */
    method Get(key: nat) returns (value: Option<nat>)
      requires Valid()
      ensures value == if Mask(key) in Map() then Some(Map()[Mask(key)]) else None
    {
      hide Position, Distance, Mask;
      var start := Mask(key);
      for i := 0 to maxSpread
        invariant forall p :: 0 <= p < |slots| && slots[p].value != 0 && slots[p].key == start ==>
          i <= Distance(start, p, |slots|)
      {
        var entry := slots[Position(start, i, |slots|)];
        if entry.key == start && entry.value != 0 {
          return Some(entry.value);
        }
        NotAt(slots, start, i);
      }
      return None;
    }

    /** Adds an entry. It fails exactly for a key already there and for a full index. */
    method Add(key: nat, value: nat) returns (ok: bool)
      requires Valid() && 0 < value < VALUE_LIMIT
      modifies this
      ensures Valid() && |slots| == old(|slots|)
      ensures ok <==> Mask(key) !in old(Map()) && |old(Map())| < |slots|
      ensures Map() == if ok then old(Map())[Mask(key) := value] else old(Map())
    {
      hide Position, Distance, Mask, IndexOk;
      var start := Mask(key);
      var found := Get(key);
      if found.Some? {
        return false;
      }
      var i := 0;
      while i < |slots|
        invariant Valid() && slots == old(slots) && i <= |slots|
        invariant forall p :: 0 <= p < |slots| && Distance(start, p, |slots|) < i ==> slots[p].value != 0
      {
        var pos := Position(start, i, |slots|);
        UpdateSpread(i);
        if slots[pos].value == 0 {
          ProbeDistance(start, i, |slots|);
          AddKeepsIndex(slots, maxSpread, pos, Slot(start, value));
          IndexDistinct(slots, maxSpread);
          CountEntries(slots, |slots|);
          assert slots[..|slots|] == slots;
          slots := slots[pos := Slot(start, value)];
          return true;
        }
        OnlyAt(slots, start, i);
        i := i + 1;
      }
      IndexDistinct(slots, maxSpread);
      CountEntries(slots, |slots|);
      assert slots[..|slots|] == slots;
      return false;
    }

    method UpdateSpread(i: nat)
      requires Valid() && i < |slots|
      modifies this`maxSpread
      ensures Valid() && i < maxSpread && old(maxSpread) <= maxSpread
    {
      if i < 1 {
        return;
      }
      if i + 1 > maxSpread {
        maxSpread := i + 1;
      }
    }

    method Remove(key: nat) returns (ok: bool)
      requires Valid()
      modifies this`slots
      ensures Valid() && |slots| == old(|slots|)
      ensures ok <==> Mask(key) in old(Map())
      ensures Map() == old(Map()) - {Mask(key)}
    {
      hide Position, Distance, Mask;
      var start := Mask(key);
      for i := 0 to maxSpread
        invariant slots == old(slots)
        invariant forall p :: 0 <= p < |slots| && slots[p].value != 0 && slots[p].key == start ==>
          i <= Distance(start, p, |slots|)
      {
        var pos := Position(start, i, |slots|);
        if slots[pos].key == start && slots[pos].value != 0 {
          EntriesRemove(slots, pos);
          slots := slots[pos := EMPTY];
          return true;
        }
        NotAt(slots, start, i);
      }
      return false;
    }

    /** Removes the first entry at or after a slot and reports its value; zero when there is none. */
    method RemoveNext(index: nat) returns (next: nat, position: nat)
      requires Valid()
      modifies this`slots
      ensures Valid() && |slots| == old(|slots|)
      ensures position == 0 ==>
        next == |slots| && slots == old(slots) && forall p :: index <= p < |slots| ==> slots[p].value == 0
      ensures position != 0 ==>
        && index < next <= |slots| && old(slots)[next - 1].value == position
        && (forall p :: index <= p < next - 1 ==> slots[p].value == 0)
        && slots == old(slots)[next - 1 := EMPTY]
        && old(slots)[next - 1].key in old(Map()) && old(Map())[old(slots)[next - 1].key] == position
        && Map() == old(Map()) - {old(slots)[next - 1].key}
    {
      hide Entries;
      var i := index;
      while i < |slots|
        invariant slots == old(slots) && index <= i && forall p :: index <= p < i && p < |slots| ==> slots[p].value == 0
      {
        if slots[i].value != 0 {
          EntriesRemove(slots, i);
          EntryAt(slots, i);
          position := slots[i].value;
          slots := slots[i := EMPTY];
          return i + 1, position;
        }
        i := i + 1;
      }
      return |slots|, 0;
    }
  }

  /** A key that is not in the slot of probe i is not at distance i. */
  lemma NotAt(slots: seq<Slot>, start: nat, i: nat)
    requires i < |slots|
    requires !(slots[Position(start, i, |slots|)].key == start && slots[Position(start, i, |slots|)].value != 0)
    requires forall p :: 0 <= p < |slots| && slots[p].value != 0 && slots[p].key == start ==>
      i <= Distance(start, p, |slots|)
    ensures forall p :: 0 <= p < |slots| && slots[p].value != 0 && slots[p].key == start ==>
      i + 1 <= Distance(start, p, |slots|)
  {
    hide Position, Distance;
    forall p | 0 <= p < |slots| ensures Distance(start, p, |slots|) == i ==> p == Position(start, i, |slots|) {
      ProbeReaches(start, p, |slots|);
    }
  }

  lemma OnlyAt(slots: seq<Slot>, start: nat, i: nat)
    requires i < |slots| && slots[Position(start, i, |slots|)].value != 0
    requires forall p :: 0 <= p < |slots| && Distance(start, p, |slots|) < i ==> slots[p].value != 0
    ensures forall p :: 0 <= p < |slots| && Distance(start, p, |slots|) < i + 1 ==> slots[p].value != 0
  {
    hide Position, Distance;
    forall p | 0 <= p < |slots| ensures Distance(start, p, |slots|) == i ==> p == Position(start, i, |slots|) {
      ProbeReaches(start, p, |slots|);
    }
  }

  lemma IndexDistinct(slots: seq<Slot>, spread: nat)
    requires IndexOk(slots, spread)
    ensures DistinctKeys(slots)
  {
  }

  lemma AddKeepsIndex(slots: seq<Slot>, spread: nat, p: nat, slot: Slot)
    requires IndexOk(slots, spread) && p < |slots| && slots[p].value == 0
    requires slot.value != 0 && slot.key < KEY_LIMIT && slot.key !in Entries(slots)
    requires Distance(slot.key, p, |slots|) < spread
    ensures IndexOk(slots[p := slot], spread)
    ensures Entries(slots[p := slot]) == Entries(slots)[slot.key := slot.value]
  {
    hide Distance;
    EntriesInsert(slots, p, slot);
  }

  // ---------------------------------------------------------------------------------------
  // The element store

  type Key = int
  type Element = int

  datatype Status = Empty | Committed | Tombstone

  datatype Entry = Entry(status: Status, key: Key, element: Element)

  type Hash = Key -> nat

  function HashOf(hash: Hash, key: Key): nat {
    Mask(hash(key))
  }

  /** Fresh slots are the ones from end on, and are handed out in order before any tombstone. */
  ghost predicate StoreOk(elements: seq<Entry>, free: seq<nat>, end: nat) {
    && end <= |elements| <= end + |free|
    && (forall i :: 0 <= i < |elements| - end ==> free[i] == end + i)
    && (forall i :: |elements| - end <= i < |free| ==> free[i] < end && elements[free[i]].status == Tombstone)
    && (forall i, j :: |elements| - end <= i < j < |free| ==> free[i] != free[j])
    && (forall p :: 0 <= p < |elements| ==> (elements[p].status == Empty <==> end <= p))
  }

  predicate IsEntryOf(entry: Entry, k: nat, hash: Hash) {
    entry.status == Committed && HashOf(hash, entry.key) == k
  }

  /** The index has exactly one entry for every committed element, under the hash of its key. */
  ghost predicate LinkOk(elements: seq<Entry>, m: map<nat, nat>, hash: Hash) {
    && (forall k :: k in m ==> 0 < m[k] <= |elements| && IsEntryOf(elements[m[k] - 1], k, hash))
    && (forall p :: 0 <= p < |elements| && elements[p].status == Committed ==>
      HashOf(hash, elements[p].key) in m && m[HashOf(hash, elements[p].key)] == p + 1)
  }

  /** The map a program sees, keyed by hash. */
  ghost function ContentsOf(elements: seq<Entry>, m: map<nat, nat>): (contents: map<nat, (Key, Element)>)
    requires forall k :: k in m ==> 0 < m[k] <= |elements|
    ensures contents.Keys == m.Keys
  {
    map k | k in m :: (elements[m[k] - 1].key, elements[m[k] - 1].element)
  }

  ghost predicate AllOk(elements: seq<Entry>, free: seq<nat>, end: nat, m: map<nat, nat>, hash: Hash) {
    && StoreOk(elements, free, end) && LinkOk(elements, m, hash)
    && |m| + |free| == |elements|
  }

  function EndAfterPop(elements: seq<Entry>, free: seq<nat>, end: nat): nat
    requires free != [] && free[0] < |elements|
  {
    if elements[free[0]].status == Empty then end + 1 else end
  }

  lemma PopInStore(elements: seq<Entry>, free: seq<nat>, end: nat)
    requires StoreOk(elements, free, end) && free != []
    ensures free[0] < |elements| && elements[free[0]].status != Committed
  {
  }

  lemma CommitKeepsStore(elements: seq<Entry>, free: seq<nat>, end: nat, entry: Entry)
    requires StoreOk(elements, free, end) && free != [] && free[0] < |elements| && entry.status == Committed
    ensures StoreOk(elements[free[0] := entry], free[1..], EndAfterPop(elements, free, end))
  {
    if end < |elements| {
      assert free[0] == end;
    }
  }

  lemma CommitKeepsLink(elements: seq<Entry>, m: map<nat, nat>, hash: Hash, p: nat, entry: Entry)
    requires LinkOk(elements, m, hash) && p < |elements| && elements[p].status != Committed
    requires entry.status == Committed && HashOf(hash, entry.key) !in m
    ensures LinkOk(elements[p := entry], m[HashOf(hash, entry.key) := p + 1], hash)
  {
    hide HashOf;
  }

  lemma CommitAddsContents(elements: seq<Entry>, m: map<nat, nat>, hash: Hash, p: nat, entry: Entry)
    requires LinkOk(elements, m, hash) && p < |elements| && elements[p].status != Committed
    requires HashOf(hash, entry.key) !in m
    ensures ContentsOf(elements[p := entry], m[HashOf(hash, entry.key) := p + 1])
      == ContentsOf(elements, m)[HashOf(hash, entry.key) := (entry.key, entry.element)]
  {
    hide HashOf, ContentsOf;
    var k := HashOf(hash, entry.key);
    var elements', m' := elements[p := entry], m[k := p + 1];
    var before, after := ContentsOf(elements, m), ContentsOf(elements', m');
    forall other | other in m ensures after[other] == before[other] {
      ContentAt(elements, m, other);
      ContentAt(elements', m', other);
    }
    ContentAt(elements', m', k);
  }

  lemma ContentAt(elements: seq<Entry>, m: map<nat, nat>, k: nat)
    requires (forall k :: k in m ==> 0 < m[k] <= |elements|) && k in m
    ensures ContentsOf(elements, m)[k] == (elements[m[k] - 1].key, elements[m[k] - 1].element)
  {
  }

  lemma BuryKeepsStore(elements: seq<Entry>, free: seq<nat>, end: nat, p: nat)
    requires StoreOk(elements, free, end) && p < |elements| && elements[p].status == Committed
    ensures StoreOk(elements[p := elements[p].(status := Tombstone)], free + [p], end)
  {
  }

  lemma BuryKeepsLink(elements: seq<Entry>, m: map<nat, nat>, hash: Hash, k: nat)
    requires LinkOk(elements, m, hash) && k in m
    ensures var p := m[k] - 1;
      && LinkOk(elements[p := elements[p].(status := Tombstone)], m - {k}, hash)
      && ContentsOf(elements[p := elements[p].(status := Tombstone)], m - {k}) == ContentsOf(elements, m) - {k}
  {
    hide HashOf;
    var p := m[k] - 1;
    forall other | other in m && other != k ensures m[other] != m[k] {}
  }

  lemma BuryKeepsAll(elements: seq<Entry>, free: seq<nat>, end: nat, m: map<nat, nat>, hash: Hash, k: nat)
    requires AllOk(elements, free, end, m, hash) && k in m
    ensures var p := m[k] - 1;
      AllOk(elements[p := elements[p].(status := Tombstone)], free + [p], end, m - {k}, hash)
  {
    hide StoreOk, HashOf;
    BuryKeepsLink(elements, m, hash, k);
    BuryKeepsStore(elements, free, end, m[k] - 1);
    SizeAfterRemove(m, k);
  }

  lemma SizeAfterRemove(m: map<nat, nat>, k: nat)
    requires k in m
    ensures |m - {k}| == |m| - 1
  {
    assert m == (m - {k})[k := m[k]];
  }

  lemma ContentsSize(elements: seq<Entry>, m: map<nat, nat>, hash: Hash)
    requires LinkOk(elements, m, hash)
    ensures |ContentsOf(elements, m)| == |m|
  {
    assert ContentsOf(elements, m).Keys == m.Keys;
  }

  class MpmcHashmap32 {
    const hash: Hash
    const index: MurmurHashIndex
    var elements: seq<Entry>
    var free: seq<nat>
    var end: nat

    ghost predicate Valid()
      reads this, index
    {
      && index.Valid() && AllOk(elements, free, end, index.Map(), hash)
      && |index.slots| == 4 * |elements| && |elements| < VALUE_LIMIT - 1
    }

    ghost function Contents(): map<nat, (Key, Element)>
      requires Valid()
      reads this, index
    {
      ContentsOf(elements, index.Map())
    }

    constructor (maxElements: nat, hash: Hash)
      requires maxElements < VALUE_LIMIT - 1
      ensures Valid() && fresh(index) && |elements| == maxElements && Contents() == map[] && this.hash == hash
    {
      this.hash := hash;
      index := new MurmurHashIndex(maxElements * 4);
      elements := seq(maxElements, _ => Entry(Empty, 0, 0));
      free := seq(maxElements, i => i);
      end := 0;
    }

    /** Where the element with a key of the same hash is. */
    method Find(key: Key) returns (position: Option<nat>)
      requires Valid()
      ensures position.Some? <==> HashOf(hash, key) in Contents()
      ensures position.Some? ==> IsEntryAt(elements, position.value, HashOf(hash, key), Contents(), hash)
    {
      hide StoreOk, IndexOk, Entries, ContentsOf, Mask, LinkOk, InMap;
      LinkedIsCommitted(elements, index.Map(), hash, HashOf(hash, key));
      var found := index.Get(hash(key));
      if found.Some? && elements[found.value - 1].status == Committed {
        return Some(found.value - 1);
      }
      return None;
    }

    /** Adds an element unless its hash is there or the store is full. */
    method Emplace(key: Key, element: Element) returns (position: nat, ok: bool)
      requires Valid()
      modifies this, index
      ensures Valid() && |elements| == old(|elements|)
      ensures ok <==> HashOf(hash, key) !in old(Contents()) && |old(Contents())| < |elements|
      ensures Contents() == if ok then old(Contents())[HashOf(hash, key) := (key, element)] else old(Contents())
      ensures HashOf(hash, key) in Contents() ==>
        IsEntryAt(elements, position, HashOf(hash, key), Contents(), hash)
    {
      hide StoreOk, LinkOk, IndexOk, Entries, ContentsOf, Mask;
      ContentsSize(elements, index.Map(), hash);
      var existing := Find(key);
      if existing.Some? {
        return existing.value, false;
      }
      if free == [] {
        return end, false;
      }
      PopInStore(elements, free, end);
      position := free[0];
      var entry := Entry(Committed, key, element);
      CommitKeepsStore(elements, free, end, entry);
      CommitKeepsLink(elements, index.Map(), hash, position, entry);
      CommitAddsContents(elements, index.Map(), hash, position, entry);
      free := free[1..];
      if elements[position].status == Empty {
        end := end + 1;
      }
      elements := elements[position := entry];
      ok := index.Add(hash(key), position + 1);
    }

    method Erase(key: Key) returns (ok: bool)
      requires Valid()
      modifies this, index
      ensures Valid() && |elements| == old(|elements|)
      ensures ok <==> HashOf(hash, key) in old(Contents())
      ensures Contents() == old(Contents()) - {HashOf(hash, key)}
    {
      hide StoreOk, LinkOk, IndexOk, Entries, ContentsOf, Mask;
      var found := index.Get(hash(key));
      if found.None? {
        return false;
      }
      LinkInStore(elements, index.Map(), hash, HashOf(hash, key));
      BuryKeepsAll(elements, free, end, index.Map(), hash, HashOf(hash, key));
      BuryKeepsLink(elements, index.Map(), hash, HashOf(hash, key));
      ok := index.Remove(hash(key));
      Bury(found.value - 1);
    }

    /** Marks an element as removed and lets its slot be used again. */
    method Bury(position: nat)
      requires position < |elements|
      modifies this`elements, this`free
      ensures elements == old(elements)[position := old(elements)[position].(status := Tombstone)]
      ensures free == old(free) + [position]
    {
      elements := elements[position := elements[position].(status := Tombstone)];
      free := free + [position];
    }

    method Clear()
      requires Valid()
      modifies this, index
      ensures Valid() && |elements| == old(|elements|) && Contents() == map[] && |free| == |elements|
    {
      hide StoreOk, LinkOk, IndexOk, Entries;
      var i := 0;
      while i < |index.slots|
        invariant Valid() && i <= |index.slots| && |elements| == old(|elements|)
        invariant forall p :: 0 <= p < i ==> index.slots[p].value == 0
        decreases |index.slots| - i
      {
        i := ClearNext(i);
      }
      AllEmpty(index.slots, index.maxSpread);
    }

    /** Removes the first element the index holds at or after slot i. */
    method ClearNext(i: nat) returns (next: nat)
      requires Valid() && i < |index.slots| && forall p :: 0 <= p < i ==> index.slots[p].value == 0
      modifies this, index
      ensures Valid() && |elements| == old(|elements|) && |index.slots| == old(|index.slots|)
      ensures i < next <= |index.slots| && forall p :: 0 <= p < next ==> index.slots[p].value == 0
    {
      hide StoreOk, LinkOk, IndexOk, Entries;
      ghost var m := index.Map();
      var position;
      next, position := index.RemoveNext(i);
      if position != 0 {
        ghost var k := old(index.slots)[next - 1].key;
        BuryKeepsAll(elements, free, end, m, hash, k);
        LinkInStore(elements, m, hash, k);
        Bury(position - 1);
      }
    }

    /** The first committed element at or after a position, or the end. */
    method SkipTo(first: nat, last: nat) returns (position: nat)
      requires first <= last <= |elements|
      ensures first <= position <= last && (position < last ==> elements[position].status == Committed)
      ensures forall p :: first <= p < position ==> elements[p].status != Committed
    {
      position := first;
      while position != last && elements[position].status != Committed
        invariant first <= position <= last
        invariant forall p :: first <= p < position ==> elements[p].status != Committed
        decreases last - position
      {
        position := position + 1;
      }
    }

    /** The positions an iteration from begin to end goes through. */
    method Positions() returns (visited: seq<nat>)
      requires end <= |elements|
      ensures Ascending(visited) && forall p :: p in visited <==> 0 <= p < end && elements[p].status == Committed
    {
      visited := [];
      var position := SkipTo(0, end);
      while position != end
        invariant position <= end && (position < end ==> elements[position].status == Committed)
        invariant Ascending(visited) && forall i :: 0 <= i < |visited| ==> visited[i] < position
        invariant forall p :: p in visited <==> 0 <= p < position && elements[p].status == Committed
        decreases end - position
      {
        visited := visited + [position];
        position := SkipTo(position + 1, end);
      }
    }

    /** Iterates from begin to end. Every entry of the map is visited, and none twice. */
    method Visit() returns (visited: seq<Entry>)
      requires Valid()
      ensures forall i, j :: 0 <= i < j < |visited| ==> HashOf(hash, visited[i].key) != HashOf(hash, visited[j].key)
      ensures forall i :: 0 <= i < |visited| ==> InMap(visited[i], Contents(), hash)
      ensures forall k :: k in Contents() ==> exists i :: 0 <= i < |visited| && HashOf(hash, visited[i].key) == k
    {
      hide IndexOk, Entries, StoreOk, LinkOk, Mask, ContentsOf;
      EndInStore(elements, free, end);
      var positions := Positions();
      assert forall i :: 0 <= i < |positions| ==> positions[i] in positions;
      visited := Pick(elements, positions);
      VisitsOnce(elements, index.Map(), hash, positions);
      VisitsAll(elements, free, end, index.Map(), hash, positions);
    }
  }

  predicate Ascending(s: seq<nat>) {
    forall i, j :: 0 <= i < j < |s| ==> s[i] < s[j]
  }

  predicate InMap(entry: Entry, contents: map<nat, (Key, Element)>, hash: Hash) {
    HashOf(hash, entry.key) in contents && contents[HashOf(hash, entry.key)] == (entry.key, entry.element)
  }

  /** The element at a position is committed and is what the map holds under a hash. */
  predicate IsEntryAt(elements: seq<Entry>, p: nat, k: nat, contents: map<nat, (Key, Element)>, hash: Hash) {
    p < |elements| && IsEntryOf(elements[p], k, hash) && InMap(elements[p], contents, hash)
  }

  lemma EndInStore(elements: seq<Entry>, free: seq<nat>, end: nat)
    requires StoreOk(elements, free, end)
    ensures end <= |elements|
  {
  }

  function Pick(elements: seq<Entry>, positions: seq<nat>): (picked: seq<Entry>)
    requires forall i :: 0 <= i < |positions| ==> positions[i] < |elements|
    ensures |picked| == |positions| && forall i :: 0 <= i < |positions| ==> picked[i] == elements[positions[i]]
  {
    seq(|positions|, i requires 0 <= i < |positions| => elements[positions[i]])
  }

  lemma LinkedIsCommitted(elements: seq<Entry>, m: map<nat, nat>, hash: Hash, k: nat)
    requires LinkOk(elements, m, hash)
    ensures k in m ==> 0 < m[k] && IsEntryAt(elements, m[k] - 1, k, ContentsOf(elements, m), hash)
  {
    hide HashOf;
  }

  lemma CommittedIsLinked(elements: seq<Entry>, m: map<nat, nat>, hash: Hash, p: nat)
    requires LinkOk(elements, m, hash) && p < |elements| && elements[p].status == Committed
    ensures HashOf(hash, elements[p].key) in m && m[HashOf(hash, elements[p].key)] == p + 1
    ensures InMap(elements[p], ContentsOf(elements, m), hash)
  {
    hide HashOf;
  }

  /** Committed elements at different positions are different entries of the map. */
  lemma VisitsOnce(elements: seq<Entry>, m: map<nat, nat>, hash: Hash, positions: seq<nat>)
    requires LinkOk(elements, m, hash) && Ascending(positions)
    requires forall i :: 0 <= i < |positions| ==> positions[i] < |elements| && elements[positions[i]].status == Committed
    ensures var visited := Pick(elements, positions);
      && (forall i, j :: 0 <= i < j < |visited| ==> HashOf(hash, visited[i].key) != HashOf(hash, visited[j].key))
      && (forall i :: 0 <= i < |visited| ==> InMap(visited[i], ContentsOf(elements, m), hash))
  {
    hide HashOf, InMap, ContentsOf, Pick;
    var visited := Pick(elements, positions);
    forall i | 0 <= i < |visited|
      ensures HashOf(hash, visited[i].key) in m && m[HashOf(hash, visited[i].key)] == positions[i] + 1
      ensures InMap(visited[i], ContentsOf(elements, m), hash)
    {
      CommittedIsLinked(elements, m, hash, positions[i]);
    }
  }

  /** The committed elements before end are all the entries of the map. */
  lemma VisitsAll(elements: seq<Entry>, free: seq<nat>, end: nat, m: map<nat, nat>, hash: Hash, positions: seq<nat>)
    requires StoreOk(elements, free, end) && LinkOk(elements, m, hash)
    requires forall i :: 0 <= i < |positions| ==> positions[i] < |elements|
    requires forall p :: 0 <= p < end && elements[p].status == Committed ==> p in positions
    ensures var visited := Pick(elements, positions);
      forall k :: k in m ==> exists i :: 0 <= i < |visited| && HashOf(hash, visited[i].key) == k
  {
    hide HashOf, Pick;
    var visited := Pick(elements, positions);
    forall k | k in m ensures exists i :: 0 <= i < |visited| && HashOf(hash, visited[i].key) == k {
      assert m[k] - 1 in positions;
      var i :| 0 <= i < |positions| && positions[i] == m[k] - 1;
      assert HashOf(hash, visited[i].key) == k;
    }
  }

  lemma AllEmpty(slots: seq<Slot>, spread: nat)
    requires IndexOk(slots, spread) && forall p :: 0 <= p < |slots| ==> slots[p].value == 0
    ensures Entries(slots) == map[]
  {
  }

  lemma LinkInStore(elements: seq<Entry>, m: map<nat, nat>, hash: Hash, k: nat)
    requires LinkOk(elements, m, hash) && k in m
    ensures 0 < m[k] <= |elements|
  {
  }
}
