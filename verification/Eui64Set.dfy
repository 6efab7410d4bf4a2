/**
  The set of interesting stream IDs of daemons/common/eui64set.c: a bounded array of 64-bit
  keys, each with a pointer, kept sorted, that refines a multiset of keys.
 */
module Eui64Set {
  import opened Mrpdu

  type u64 = x: int | 0 <= x < 0x1_0000_0000_0000_0000

  const ALL_ONES: u64 := 0xFFFF_FFFF_FFFF_FFFF

  // ---------------------------------------------------------------- Network order

  /** eui64_read: shifts and adds, most significant byte first. */
  function Read(b: seq<byte>): u64
    requires |b| == 8
  {
    b[0] as int * 0x100_0000_0000_0000 + b[1] as int * 0x1_0000_0000_0000 + b[2] as int * 0x100_0000_0000
    + b[3] as int * 0x1_0000_0000 + b[4] as int * 0x100_0000 + b[5] as int * 0x1_0000 + b[6] as int * 0x100 + b[7] as int
  }

  /** eui64_write: eight shifts and masks. */
  function Write(v: u64): (b: seq<byte>)
    ensures |b| == 8
  {
    [v / 0x100_0000_0000_0000 % 256, v / 0x1_0000_0000_0000 % 256, v / 0x100_0000_0000 % 256, v / 0x1_0000_0000 % 256,
     v / 0x100_0000 % 256, v / 0x1_0000 % 256, v / 0x100 % 256, v % 256]
  }

  /** Each shift by eight more bits drops the byte the mask has picked out. */
  lemma Shifts(v: u64)
    ensures v == 0x100 * (v / 0x100) + v % 256
    ensures v / 0x100 == 0x100 * (v / 0x1_0000) + v / 0x100 % 256
    ensures v / 0x1_0000 == 0x100 * (v / 0x100_0000) + v / 0x1_0000 % 256
    ensures v / 0x100_0000 == 0x100 * (v / 0x1_0000_0000) + v / 0x100_0000 % 256
  {
  }

  lemma ReadWrite(v: u64)
    ensures Read(Write(v)) == v
  {
    var top := v / 0x1_0000_0000;
    Shifts(v);
    Shifts(top);
    assert v / 0x100_0000_0000 == top / 0x100;
    assert v / 0x1_0000_0000_0000 == top / 0x1_0000;
    assert v / 0x100_0000_0000_0000 == top / 0x100_0000;
    assert top / 0x1_0000_0000 == 0;
  }

  lemma ReadIsBigEndian(b: seq<byte>)
    requires |b| == 8
    ensures Read(b) == BigEndian(b)
  {
    assert b[..7][..6] == b[..6] && b[..6][..5] == b[..5] && b[..5][..4] == b[..4];
    assert b[..4][..3] == b[..3] && b[..3][..2] == b[..2] && b[..2][..1] == b[..1] && b[..1][..0] == [];
    assert BigEndian(b[..1]) == b[0] && BigEndian(b[..2]) == b[0] as int * 256 + b[1];
    assert BigEndian(b[..3]) == BigEndian(b[..2]) * 256 + b[2] && BigEndian(b[..4]) == BigEndian(b[..3]) * 256 + b[3];
    assert BigEndian(b[..5]) == BigEndian(b[..4]) * 256 + b[4] && BigEndian(b[..6]) == BigEndian(b[..5]) * 256 + b[5];
    assert BigEndian(b[..7]) == BigEndian(b[..6]) * 256 + b[6] && BigEndian(b) == BigEndian(b[..7]) * 256 + b[7];
  }

  // ---------------------------------------------------------------- Sorting

  /** A key and the pointer stored with it; 0 is the null pointer. */
  datatype Entry = Entry(key: u64, p: nat)

  function KeysOf(s: seq<Entry>): (r: seq<u64>)
    ensures |r| == |s| && forall i :: 0 <= i < |s| ==> r[i] == s[i].key
  {
    seq<u64>(|s|, i requires 0 <= i < |s| => s[i].key)
  }

  ghost predicate Sorted(s: seq<Entry>) {
    forall i, j :: 0 <= i < j < |s| ==> s[i].key <= s[j].key
  }

  /** t is s in some sorted order, as qsort leaves it: entries with equal keys in any order. */
  ghost predicate SortOf(t: seq<Entry>, s: seq<Entry>) {
    Sorted(t) && multiset(t) == multiset(s)
  }

  function Inserted(s: seq<Entry>, x: Entry): seq<Entry> {
    if s == [] || x.key <= s[0].key then [x] + s else [s[0]] + Inserted(s[1..], x)
  }

  function SortedCopy(s: seq<Entry>): seq<Entry> {
    if s == [] then [] else Inserted(SortedCopy(s[1..]), s[0])
  }

  lemma {:induction false} InsertedKeys(s: seq<Entry>, x: Entry)
    ensures multiset(Inserted(s, x)) == multiset(s) + multiset{x}
    ensures forall i :: 0 <= i < |Inserted(s, x)| ==> Inserted(s, x)[i] == x || Inserted(s, x)[i] in s
  {
    if s != [] && x.key > s[0].key {
      InsertedKeys(s[1..], x);
      assert s == [s[0]] + s[1..];
    }
  }

  lemma {:induction false} InsertedSorts(s: seq<Entry>, x: Entry)
    requires Sorted(s)
    ensures Sorted(Inserted(s, x))
  {
    if s != [] && x.key > s[0].key {
      InsertedSorts(s[1..], x);
      InsertedKeys(s[1..], x);
    }
  }

  lemma {:induction false} SortedCopySorts(s: seq<Entry>)
    ensures SortOf(SortedCopy(s), s) && |SortedCopy(s)| == |s|
  {
    if s != [] {
      SortedCopySorts(s[1..]);
      InsertedSorts(SortedCopy(s[1..]), s[0]);
      InsertedKeys(SortedCopy(s[1..]), s[0]);
      assert s == [s[0]] + s[1..];
      assert |multiset(SortedCopy(s))| == |multiset(s)|;
    }
  }

  /** The same entries have the same keys. */
  lemma {:induction false} SameKeys(s: seq<Entry>, t: seq<Entry>)
    requires multiset(s) == multiset(t)
    ensures multiset(KeysOf(s)) == multiset(KeysOf(t))
  {
    hide KeysOf;
    SameLength(s, t);
    if s == [] {
      assert t == [];
    } else {
      var j := IndexOf(s[0], s, t);
      SameRest(s, t, j);
      SameKeys(s[1..], t[..j] + t[j + 1..]);
      KeysSplit(t, j);
      KeysCons(s);
    }
  }

  lemma SameLength(s: seq<Entry>, t: seq<Entry>)
    requires multiset(s) == multiset(t)
    ensures |s| == |t|
  {
    assert |multiset(s)| == |multiset(t)|;
  }

  lemma IndexOf(x: Entry, s: seq<Entry>, t: seq<Entry>) returns (j: nat)
    requires multiset(s) == multiset(t) && x in s
    ensures j < |t| && t[j] == x
  {
    assert x in multiset(t);
    j :| 0 <= j < |t| && t[j] == x;
  }

  lemma KeysCons(s: seq<Entry>)
    requires s != []
    ensures multiset(KeysOf(s)) == multiset(KeysOf(s[1..])) + multiset{s[0].key}
  {
    KeysSplit(s, 0);
    assert s[..0] + s[1..] == s[1..];
  }

  lemma SameRest(s: seq<Entry>, t: seq<Entry>, j: nat)
    requires s != [] && j < |t| && t[j] == s[0] && multiset(s) == multiset(t)
    ensures multiset(s[1..]) == multiset(t[..j] + t[j + 1..])
  {
    Without(t, j);
    Without(s, 0);
    assert s[..0] + s[1..] == s[1..];
    Cancel(multiset(s[1..]), multiset(t[..j] + t[j + 1..]), s[0]);
  }

  lemma Without(t: seq<Entry>, j: nat)
    requires j < |t|
    ensures multiset(t) == multiset(t[..j] + t[j + 1..]) + multiset{t[j]}
  {
    assert t == t[..j] + [t[j]] + t[j + 1..];
  }

  lemma KeysSplit(t: seq<Entry>, j: nat)
    requires j < |t|
    ensures multiset(KeysOf(t)) == multiset(KeysOf(t[..j] + t[j + 1..])) + multiset{t[j].key}
  {
    var k := KeysOf(t);
    assert k == k[..j] + [k[j]] + k[j + 1..];
    assert KeysOf(t[..j] + t[j + 1..]) == k[..j] + k[j + 1..];
  }

  // ---------------------------------------------------------------- Removing by sentinel

  function Marked(s: seq<Entry>, k: nat): (r: seq<Entry>)
    requires k < |s|
    ensures |r| == |s|
  {
    s[k := Entry(ALL_ONES, s[k].p)]
  }

  /** Something with the largest key is last in any sorted order of the marked entries. */
  lemma LastIsMarked(s: seq<Entry>, k: nat, t: seq<Entry>)
    requires k < |s| && SortOf(t, Marked(s, k))
    ensures |t| == |s| && t[|t| - 1].key == ALL_ONES && t[|t| - 1] in Marked(s, k)
    ensures multiset(t) == multiset(t[..|t| - 1]) + multiset{t[|t| - 1]}
  {
    var m := Marked(s, k);
    assert |multiset(t)| == |multiset(m)|;
    assert m[k] in multiset(t);
    var i :| 0 <= i < |t| && t[i] == m[k];
    var n := |t| - 1;
    assert t == t[..n] + [t[n]];
    assert t[n] in multiset(m);
  }

  /** Replacing one key by the largest possible one and dropping the last of the sorted entries removes that key. */
  lemma SentinelRemoves(s: seq<Entry>, k: nat, t: seq<Entry>)
    requires k < |s| && SortOf(t, Marked(s, k))
    ensures |t| == |s| && multiset(KeysOf(t[..|t| - 1])) == multiset(KeysOf(s)) - multiset{s[k].key}
  {
    var n, m := |s| - 1, Marked(s, k);
    LastIsMarked(s, k, t);
    SameKeys(t, m);
    KeysSplit(t, n);
    assert t[..n] + t[n + 1..] == t[..n];
    KeysSplit(m, k);
    KeysSplit(s, k);
    assert m[..k] + m[k + 1..] == s[..k] + s[k + 1..];
    Cancel(multiset(KeysOf(t[..n])), multiset(KeysOf(s[..k] + s[k + 1..])), ALL_ONES);
  }

  ghost predicate RemovesEntry(s: seq<Entry>, k: nat, t: seq<Entry>)
    requires k < |s|
  {
    |t| > 0 && multiset(t[..|t| - 1]) == multiset(s) - multiset{s[k]}
  }

  /** No other entry has the largest key with another pointer. */
  predicate SentinelAlone(s: seq<Entry>, k: nat)
    requires k < |s|
  {
    forall i :: 0 <= i < |s| && i != k && s[i].key == ALL_ONES ==> s[i].p == s[k].p
  }

  lemma AloneRemoves(s: seq<Entry>, k: nat, t: seq<Entry>)
    requires k < |s| && SortOf(t, Marked(s, k)) && SentinelAlone(s, k)
    ensures RemovesEntry(s, k, t)
  {
    var n, m := |s| - 1, Marked(s, k);
    LastIsMarked(s, k, t);
    var i :| 0 <= i < |m| && m[i] == t[n];
    assert t[n] == m[k];
    Without(m, k);
    Without(s, k);
    assert m[..k] + m[k + 1..] == s[..k] + s[k + 1..];
    Cancel(multiset(t[..n]), multiset(s[..k] + s[k + 1..]), m[k]);
  }

  /** An order in which another entry with the largest key comes last. */
  lemma OtherLast(s: seq<Entry>, k: nat, i: nat) returns (t: seq<Entry>)
    requires k < |s| && i < |s| && i != k && s[i].key == ALL_ONES && s[i].p != s[k].p
    ensures SortOf(t, Marked(s, k)) && !RemovesEntry(s, k, t)
  {
    var m := Marked(s, k);
    var rest := m[..i] + m[i + 1..];
    SortedCopySorts(rest);
    var u := SortedCopy(rest);
    t := u + [m[i]];
    Without(m, i);
    assert t[..|t| - 1] == u;
    OneMore(s, k, i, multiset(u));
  }

  /** Without the other entry, the marked ones hold the found pointer once more than they should. */
  lemma OneMore(s: seq<Entry>, k: nat, i: nat, u: multiset<Entry>)
    requires k < |s| && i < |s| && i != k && s[i].p != s[k].p
    requires multiset(Marked(s, k)) == u + multiset{s[i]}
    ensures var e := Entry(ALL_ONES, s[k].p); u[e] == (multiset(s) - multiset{s[k]})[e] + 1
  {
    var m, e := Marked(s, k), Entry(ALL_ONES, s[k].p);
    Without(m, k);
    Without(s, k);
    var rest := multiset(s[..k] + s[k + 1..]);
    assert m[..k] + m[k + 1..] == s[..k] + s[k + 1..];
    assert multiset(s) - multiset{s[k]} == rest;
    assert multiset(m)[e] == rest[e] + 1;
    assert (u + multiset{s[i]})[e] == u[e];
  }

  /**
    Removal takes out exactly the entry it found, whatever order qsort gives equal keys, if and
    only if no other entry has the largest key with another pointer. Otherwise the entry that
    stays can be the found one, marked, with the pointer that was freed.
   */
  lemma RemovalExact(s: seq<Entry>, k: nat)
    requires k < |s|
    ensures (forall t :: SortOf(t, Marked(s, k)) ==> RemovesEntry(s, k, t)) <==> SentinelAlone(s, k)
  {
    if SentinelAlone(s, k) {
      forall t | SortOf(t, Marked(s, k)) ensures RemovesEntry(s, k, t) {
        AloneRemoves(s, k, t);
      }
    } else {
      var i :| 0 <= i < |s| && i != k && s[i].key == ALL_ONES && s[i].p != s[k].p;
      var t := OtherLast(s, k, i);
    }
  }

  lemma Cancel<T>(a: multiset<T>, b: multiset<T>, x: T)
    requires a + multiset{x} == b + multiset{x}
    ensures a == b
  {
    assert a == (a + multiset{x}) - multiset{x};
    assert b == (b + multiset{x}) - multiset{x};
  }

  lemma Absent(a: multiset<u64>, x: u64)
    requires x !in a
    ensures a - multiset{x} == a
  {
  }

  lemma SortedPrefix(s: seq<Entry>, n: nat)
    requires Sorted(s) && n <= |s|
    ensures Sorted(s[..n])
  {
  }

  // ---------------------------------------------------------------- The set

  class KeySet {
    const storage: array<Entry>
    var count: nat

    ghost predicate Valid()
      reads this, storage
    {
      count <= storage.Length && Sorted(storage[..count])
    }

    ghost function Keys(): multiset<u64>
      reads this, storage
      requires count <= storage.Length
    {
      multiset(KeysOf(storage[..count]))
    }

    ghost function Entries(): multiset<Entry>
      reads this, storage
      requires count <= storage.Length
    {
      multiset(storage[..count])
    }

    constructor (max: nat)
      ensures Valid() && fresh(storage) && storage.Length == max && Keys() == multiset{} && Entries() == multiset{}
    {
      storage, count := new Entry[max](_ => Entry(0, 0)), 0;
    }

    method Clear()
      requires Valid()
      modifies this`count
      ensures Valid() && Keys() == multiset{} && Entries() == multiset{}
    {
      count := 0;
    }

    predicate IsFull()
      reads this
    {
      count >= storage.Length
    }

    /** eui64set_insert: appends without sorting. */
    method Insert(value: u64, p: nat) returns (ok: bool)
      requires count <= storage.Length
      modifies this`count, storage
      ensures count <= storage.Length && ok == !old(IsFull())
      ensures ok ==> storage[..count] == old(storage[..count]) + [Entry(value, p)]
      ensures !ok ==> storage[..count] == old(storage[..count])
    {
      ok := count < storage.Length;
      if ok {
        storage[count] := Entry(value, p);
        count := count + 1;
      }
    }

    /** qsort over the used part of the array. */
    method Sort()
      requires count <= storage.Length
      modifies storage
      ensures Valid() && SortOf(storage[..count], old(storage[..count]))
    {
      hide SortedCopy, Sorted;
      ghost var before := storage[..count];
      var sorted := SortedCopy(storage[..count]);
      SortedCopySorts(before);
      var i := 0;
      while i < count
        invariant 0 <= i <= count == |sorted| && forall k :: 0 <= k < i ==> storage[k] == sorted[k]
      {
        storage[i] := sorted[i];
        i := i + 1;
      }
      assert storage[..count] == sorted;
    }

    /** bsearch: an index of the key, or the number of keys when it is absent; the entry there holds its pointer. */
    method Find(value: u64) returns (k: nat)
      requires Valid()
      ensures k <= count && (k < count <==> value in Keys())
      ensures k < count ==> storage[k].key == value && storage[k] in Entries()
    {
      ghost var keys := KeysOf(storage[..count]);
      var lo, hi := 0, count;
      while lo < hi
        invariant 0 <= lo <= hi <= count
        invariant forall i :: 0 <= i < lo ==> storage[i].key < value
        invariant forall i :: hi <= i < count ==> value < storage[i].key
      {
        var mid := (lo + hi) / 2;
        if storage[mid].key < value {
          assert forall i :: 0 <= i < mid ==> storage[..count][i].key <= storage[..count][mid].key;
          lo := mid + 1;
        } else if value < storage[mid].key {
          assert forall i :: mid < i < count ==> storage[..count][mid].key <= storage[..count][i].key;
          hi := mid;
        } else {
          assert keys[mid] == value && storage[..count][mid] == storage[mid];
          return mid;
        }
      }
      k := count;
    }

    method InsertAndSort(value: u64, p: nat) returns (ok: bool)
      requires Valid()
      modifies this`count, storage
      ensures Valid() && ok == !old(IsFull())
      ensures Entries() == if ok then old(Entries()) + multiset{Entry(value, p)} else old(Entries())
      ensures Keys() == if ok then old(Keys()) + multiset{value} else old(Keys())
    {
      hide Sorted;
      ghost var before := storage[..count];
      ok := Insert(value, p);
      if ok {
        ghost var longer := storage[..count];
        Sort();
        SameKeys(storage[..count], longer);
        assert KeysOf(longer) == KeysOf(before) + [value];
      }
    }

    /** eui64set_remove_and_sort: overwrites the key with all ones, sorts it to the end, drops it; its pointer is freed. */
    method RemoveAndSort(value: u64) returns (found: bool, freed: nat)
      requires Valid()
      modifies this`count, storage
      ensures Valid() && found == (value in old(Keys()))
      ensures Keys() == old(Keys()) - multiset{value}
      ensures found ==> Entry(value, freed) in old(Entries())
      ensures found && ALL_ONES !in old(Keys()) - multiset{value} ==> Entries() == old(Entries()) - multiset{Entry(value, freed)}
      ensures !found ==> Entries() == old(Entries())
    {
      hide Sorted, Marked, SortOf, KeysOf;
      var k := Find(value);
      found, freed := k < count, 0;
      if found {
        ghost var s := storage[..count];
        freed := storage[k].p;
        storage[k] := Entry(ALL_ONES, freed);
        MarkedIs(s, k, storage[..count]);
        Sort();
        ghost var t := storage[..count];
        Removal(s, k, t);
        count := count - 1;
        assert storage[..count] == t[..|t| - 1];
      } else {
        Absent(old(Keys()), value);
      }
    }
  }

  lemma MarkedIs(s: seq<Entry>, k: nat, now: seq<Entry>)
    requires k < |s| == |now| && now == s[k := Entry(ALL_ONES, s[k].p)]
    ensures now == Marked(s, k)
  {
  }

  /** What is left when the last of the sorted entries is dropped. */
  lemma Removal(s: seq<Entry>, k: nat, t: seq<Entry>)
    requires k < |s| && SortOf(t, Marked(s, k))
    ensures |t| == |s| && Sorted(t[..|t| - 1])
    ensures multiset(KeysOf(t[..|t| - 1])) == multiset(KeysOf(s)) - multiset{s[k].key}
    ensures ALL_ONES !in multiset(KeysOf(s)) - multiset{s[k].key} ==> multiset(t[..|t| - 1]) == multiset(s) - multiset{s[k]}
  {
    hide Marked, KeysOf, SentinelAlone;
    SentinelRemoves(s, k, t);
    SortedPrefix(t, |t| - 1);
    if ALL_ONES !in multiset(KeysOf(s)) - multiset{s[k].key} {
      NoneElse(s, k);
      AloneRemoves(s, k, t);
    }
  }

  lemma NoneElse(s: seq<Entry>, k: nat)
    requires k < |s| && ALL_ONES !in multiset(KeysOf(s)) - multiset{s[k].key}
    ensures SentinelAlone(s, k)
  {
    KeysSplit(s, k);
    var rest := s[..k] + s[k + 1..];
    forall i | 0 <= i < |s| && i != k ensures s[i].key != ALL_ONES {
      assert s[i] == rest[if i < k then i else i - 1];
      assert KeysOf(rest)[if i < k then i else i - 1] in multiset(KeysOf(rest));
    }
  }
}
