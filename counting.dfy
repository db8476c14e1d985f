/** Frequency tables as the app builds them: a `forEach` that bumps
    `counts[key] = (counts[key] || 0) + 1` on a plain JavaScript object, then
    `Object.entries(counts).sort((a, b) => b[1] - a[1])`.

    A JavaScript object lists its own keys (OrdinaryOwnPropertyKeys, section
    10.1.11.1 of ECMA-262) with the array-index keys first, in ascending
    numeric order, and every other string key after them in insertion order.
    `Array.prototype.sort` is stable, so among equal counts that enumeration
    order decides. Both are modelled here. */
module Counting {
  import opened Types
  import opened Text

  /** One own property of the counting object: a key and its count. */
  datatype Entry = Entry(key: string, count: nat)

  /** How many of `keys` equal `k`. */
  function Occurrences(keys: seq<string>, k: string): nat {
    if keys == [] then 0
    else Occurrences(keys[..|keys| - 1], k) + (if keys[|keys| - 1] == k then 1 else 0)
  }

  lemma {:induction false} OccurrencesPositive(keys: seq<string>, k: string)
    ensures Occurrences(keys, k) > 0 <==> k in keys
  {
    if keys != [] {
      var init := keys[..|keys| - 1];
      OccurrencesPositive(init, k);
      assert keys == init + [keys[|keys| - 1]];
    }
  }

  predicate DistinctKeys(t: seq<Entry>) {
    forall i, j :: 0 <= i < |t| && 0 <= j < |t| && i != j ==> t[i].key != t[j].key
  }

  predicate HasKey(t: seq<Entry>, k: string) {
    exists i :: 0 <= i < |t| && t[i].key == k
  }

  /** `counts[k] || 0`: the count stored under `k`, 0 when there is none. */
  function Lookup(t: seq<Entry>, k: string): nat {
    if t == [] then 0
    else if t[0].key == k then t[0].count
    else Lookup(t[1..], k)
  }

  /** `counts[k] = (counts[k] || 0) + 1`: an existing key keeps its place and
      gains one; a new key is added last with count 1. */
  function Bump(t: seq<Entry>, k: string): (r: seq<Entry>)
    ensures |r| == if HasKey(t, k) then |t| else |t| + 1
    ensures forall i :: 0 <= i < |t| ==> r[i].key == t[i].key
    ensures !HasKey(t, k) ==> r[|t|] == Entry(k, 1)
  {
    if t == [] then [Entry(k, 1)]
    else if t[0].key == k then [Entry(k, t[0].count + 1)] + t[1..]
    else [t[0]] + Bump(t[1..], k)
  }

  /** The counting object after the `forEach` over `keys`. */
  function Tally(keys: seq<string>): (t: seq<Entry>)
    ensures |t| <= |keys|
    ensures forall i :: 0 <= i < |t| ==> t[i].key in keys
  {
    if keys == [] then []
    else Bump(Tally(keys[..|keys| - 1]), keys[|keys| - 1])
  }

  lemma DistinctCons(e: Entry, t: seq<Entry>)
    requires DistinctKeys(t)
    requires forall x :: x in t ==> x.key != e.key
    ensures DistinctKeys([e] + t)
  {
    var s := [e] + t;
    forall i, j | 0 <= i < |s| && 0 <= j < |s| && i != j ensures s[i].key != s[j].key {
      if i > 0 && j > 0 {
        assert s[i] == t[i - 1] && s[j] == t[j - 1];
      } else if i == 0 {
        assert s[j] in t;
      } else {
        assert s[i] in t;
      }
    }
  }

  lemma DistinctTail(t: seq<Entry>)
    requires t != [] && DistinctKeys(t)
    ensures DistinctKeys(t[1..])
    ensures forall x :: x in t[1..] ==> x.key != t[0].key
  {
    forall x | x in t[1..] ensures x.key != t[0].key {
      var j :| 0 <= j < |t[1..]| && t[1..][j] == x;
      assert t[j + 1] == x;
    }
  }

  /** What one bump does: the bumped key gains one, every other count stays,
      keys stay distinct, and every count stays at least 1. */
  lemma {:induction false} BumpSpec(t: seq<Entry>, k: string)
    requires DistinctKeys(t)
    requires forall x :: x in t ==> x.count >= 1
    ensures DistinctKeys(Bump(t, k))
    ensures forall x :: x in Bump(t, k) ==> x.count >= 1
    ensures forall x :: x in Bump(t, k) ==> x in t || x.key == k
    ensures forall k' :: Lookup(Bump(t, k), k') == Lookup(t, k') + (if k' == k then 1 else 0)
  {
    if t != [] {
      DistinctTail(t);
      if t[0].key == k {
        DistinctCons(Entry(k, t[0].count + 1), t[1..]);
        forall k' ensures Lookup(Bump(t, k), k') == Lookup(t, k') + (if k' == k then 1 else 0) {
          assert ([Entry(k, t[0].count + 1)] + t[1..])[1..] == t[1..];
        }
      } else {
        BumpSpec(t[1..], k);
        var b := Bump(t[1..], k);
        assert Bump(t, k) == [t[0]] + b;
        DistinctCons(t[0], b);
        forall k' ensures Lookup(Bump(t, k), k') == Lookup(t, k') + (if k' == k then 1 else 0) {
          assert ([t[0]] + b)[1..] == b;
        }
      }
    }
  }

  lemma {:induction false} LookupPositive(t: seq<Entry>, k: string)
    requires Lookup(t, k) > 0
    ensures HasKey(t, k)
  {
    if t[0].key != k {
      LookupPositive(t[1..], k);
      var i :| 0 <= i < |t[1..]| && t[1..][i].key == k;
      assert t[i + 1].key == k;
    }
  }

  lemma {:induction false} LookupMember(t: seq<Entry>, i: nat)
    requires i < |t| && DistinctKeys(t)
    ensures Lookup(t, t[i].key) == t[i].count
  {
    if i > 0 {
      assert t[0].key != t[i].key;
      DistinctTail(t);
      LookupMember(t[1..], i - 1);
    }
  }

  /** The counting object after the `forEach`: distinct keys, each mapped to
      how often it occurs, and a key for every value that occurs. */
  lemma {:induction false} TallySpec(keys: seq<string>)
    ensures DistinctKeys(Tally(keys))
    ensures forall x :: x in Tally(keys) ==> x.count >= 1
    ensures forall k :: Lookup(Tally(keys), k) == Occurrences(keys, k)
  {
    if keys != [] {
      var init := keys[..|keys| - 1];
      TallySpec(init);
      BumpSpec(Tally(init), keys[|keys| - 1]);
    }
  }

  /** Each entry of the tally counts its key exactly, and every occurring key has an entry. */
  lemma TallyEntries(keys: seq<string>)
    ensures DistinctKeys(Tally(keys))
    ensures forall i :: 0 <= i < |Tally(keys)| ==>
      Tally(keys)[i].count == Occurrences(keys, Tally(keys)[i].key) && Tally(keys)[i].key in keys
    ensures forall k :: k in keys ==> HasKey(Tally(keys), k)
  {
    var t := Tally(keys);
    TallySpec(keys);
    forall i | 0 <= i < |t| ensures t[i].count == Occurrences(keys, t[i].key) && t[i].key in keys {
      LookupMember(t, i);
      assert t[i] in t;
      OccurrencesPositive(keys, t[i].key);
    }
    forall k | k in keys ensures HasKey(t, k) {
      OccurrencesPositive(keys, k);
      LookupPositive(t, k);
    }
  }

  // ---- the order in which Object.entries lists the keys ----

  /** An array index: the canonical decimal form of an integer below 2^32 - 1. */
  predicate IsArrayIndex(k: string) {
    && |k| >= 1
    && (forall i :: 0 <= i < |k| ==> IsDecimalDigit(k[i]))
    && (k[0] != '0' || |k| == 1)
    && DigitsValue(k, 10) < 0xFFFF_FFFF
  }

  /** The entries whose key is (or is not) an array index, in their order. */
  function KeysOfKind(t: seq<Entry>, arrayIndex: bool): (r: seq<Entry>)
    ensures forall x :: x in r <==> x in t && IsArrayIndex(x.key) == arrayIndex
  {
    if t == [] then []
    else if IsArrayIndex(t[0].key) == arrayIndex then [t[0]] + KeysOfKind(t[1..], arrayIndex)
    else KeysOfKind(t[1..], arrayIndex)
  }

  lemma {:induction false} KeysOfKindDistinct(t: seq<Entry>, arrayIndex: bool)
    requires DistinctKeys(t)
    ensures DistinctKeys(KeysOfKind(t, arrayIndex))
  {
    if t != [] {
      DistinctTail(t);
      KeysOfKindDistinct(t[1..], arrayIndex);
      if IsArrayIndex(t[0].key) == arrayIndex {
        DistinctCons(t[0], KeysOfKind(t[1..], arrayIndex));
      }
    }
  }

  lemma {:induction false} KeysOfKindLength(t: seq<Entry>)
    ensures |KeysOfKind(t, true)| + |KeysOfKind(t, false)| == |t|
  {
    if t != [] {
      KeysOfKindLength(t[1..]);
    }
  }

  /** The two sort orders the app uses. */
  datatype Order = IndexAscending | CountDescending

  /** Sorting by `Order` is sorting by this number, smallest first. */
  function Rank(e: Entry, o: Order): int {
    match o
    case IndexAscending => if IsArrayIndex(e.key) then DigitsValue(e.key, 10) else 0
    case CountDescending => -(e.count as int)
  }

  /** Each element ranks no higher than the next. */
  predicate Sorted(s: seq<Entry>, o: Order) {
    forall i :: 0 <= i < |s| - 1 ==> Rank(s[i], o) <= Rank(s[i + 1], o)
  }

  /** In a sorted sequence every element ranks no higher than any later one. */
  lemma {:induction false} SortedPairs(s: seq<Entry>, o: Order, i: nat, j: nat)
    requires Sorted(s, o) && i <= j < |s|
    ensures Rank(s[i], o) <= Rank(s[j], o)
    decreases j - i
  {
    if i < j {
      SortedPairs(s, o, i + 1, j);
    }
  }

  /** Puts `x` in front of the first element of no smaller rank: `x` goes
      ahead of the elements that rank the same. */
  function Insert(x: Entry, s: seq<Entry>, o: Order): (r: seq<Entry>)
    ensures |r| == |s| + 1
  {
    if s == [] then [x]
    else if Rank(x, o) <= Rank(s[0], o) then [x] + s
    else [s[0]] + Insert(x, s[1..], o)
  }

  /** A stable sort: elements of equal rank keep their relative order. */
  function SortBy(s: seq<Entry>, o: Order): (r: seq<Entry>)
    ensures |r| == |s|
  {
    if s == [] then [] else Insert(s[0], SortBy(s[1..], o), o)
  }

  /** The elements of rank `v`, in their order. */
  function WithRank(s: seq<Entry>, o: Order, v: int): seq<Entry> {
    if s == [] then []
    else if Rank(s[0], o) == v then [s[0]] + WithRank(s[1..], o, v)
    else WithRank(s[1..], o, v)
  }

  lemma {:induction false} InsertPermutes(x: Entry, s: seq<Entry>, o: Order)
    ensures multiset(Insert(x, s, o)) == multiset(s) + multiset{x}
  {
    if s == [] {
    } else if Rank(x, o) <= Rank(s[0], o) {
      assert Insert(x, s, o) == [x] + s;
    } else {
      var rest := Insert(x, s[1..], o);
      InsertPermutes(x, s[1..], o);
      assert Insert(x, s, o) == [s[0]] + rest;
      calc {
        multiset(Insert(x, s, o));
        multiset([s[0]]) + multiset(rest);
        multiset([s[0]]) + multiset(s[1..]) + multiset{x};
        { assert s == [s[0]] + s[1..]; }
        multiset(s) + multiset{x};
      }
    }
  }

  lemma InsertHead(x: Entry, s: seq<Entry>, o: Order)
    ensures Insert(x, s, o) != []
    ensures Insert(x, s, o)[0] == x || (s != [] && Insert(x, s, o)[0] == s[0])
  {
  }

  lemma {:induction false} InsertSorted(x: Entry, s: seq<Entry>, o: Order)
    requires Sorted(s, o)
    ensures Sorted(Insert(x, s, o), o)
  {
    if s != [] && Rank(x, o) > Rank(s[0], o) {
      var rest := Insert(x, s[1..], o);
      InsertSorted(x, s[1..], o);
      InsertHead(x, s[1..], o);
      var r := [s[0]] + rest;
      forall i | 0 <= i < |r| - 1 ensures Rank(r[i], o) <= Rank(r[i + 1], o) {
        if i > 0 {
          assert r[i] == rest[i - 1] && r[i + 1] == rest[i];
        }
      }
    }
  }

  lemma {:induction false} InsertStable(x: Entry, s: seq<Entry>, o: Order, v: int)
    requires Sorted(s, o)
    ensures WithRank(Insert(x, s, o), o, v) == (if Rank(x, o) == v then [x] else []) + WithRank(s, o, v)
  {
    if s != [] && Rank(x, o) > Rank(s[0], o) {
      var rest := Insert(x, s[1..], o);
      assert Sorted(s[1..], o) by {
        forall i | 0 <= i < |s[1..]| - 1 ensures Rank(s[1..][i], o) <= Rank(s[1..][i + 1], o) {
          assert s[1..][i] == s[i + 1] && s[1..][i + 1] == s[i + 2];
        }
      }
      InsertStable(x, s[1..], o, v);
      assert ([s[0]] + rest)[1..] == rest;
    } else if s != [] {
      assert ([x] + s)[1..] == s;
    }
  }

  lemma {:induction false} InsertSpec(x: Entry, s: seq<Entry>, o: Order)
    requires Sorted(s, o)
    ensures multiset(Insert(x, s, o)) == multiset(s) + multiset{x}
    ensures Sorted(Insert(x, s, o), o)
    ensures forall v :: (WithRank(Insert(x, s, o), o, v) ==
      (if Rank(x, o) == v then [x] else []) + WithRank(s, o, v))
  {
    InsertPermutes(x, s, o);
    InsertSorted(x, s, o);
    forall v ensures WithRank(Insert(x, s, o), o, v) == (if Rank(x, o) == v then [x] else []) + WithRank(s, o, v) {
      InsertStable(x, s, o, v);
    }
  }

  /** `SortBy` is a permutation, sorted by rank, and stable: for every rank,
      the elements of that rank come out in the order they went in. */
  lemma {:induction false} SortSpec(s: seq<Entry>, o: Order)
    ensures multiset(SortBy(s, o)) == multiset(s)
    ensures Sorted(SortBy(s, o), o)
    ensures forall v :: WithRank(SortBy(s, o), o, v) == WithRank(s, o, v)
  {
    SortPermutes(s, o);
    SortSorted(s, o);
    forall v ensures WithRank(SortBy(s, o), o, v) == WithRank(s, o, v) {
      SortStable(s, o, v);
    }
  }

  lemma {:induction false} SortPermutes(s: seq<Entry>, o: Order)
    ensures multiset(SortBy(s, o)) == multiset(s)
  {
    if s != [] {
      SortPermutes(s[1..], o);
      InsertPermutes(s[0], SortBy(s[1..], o), o);
      assert s == [s[0]] + s[1..];
    }
  }

  lemma {:induction false} SortSorted(s: seq<Entry>, o: Order)
    ensures Sorted(SortBy(s, o), o)
  {
    if s != [] {
      SortSorted(s[1..], o);
      InsertSorted(s[0], SortBy(s[1..], o), o);
    }
  }

  lemma {:induction false} SortStable(s: seq<Entry>, o: Order, v: int)
    ensures WithRank(SortBy(s, o), o, v) == WithRank(s, o, v)
  {
    if s != [] {
      SortSorted(s[1..], o);
      SortStable(s[1..], o, v);
      InsertStable(s[0], SortBy(s[1..], o), o, v);
    }
  }

  lemma {:induction false} InsertDistinct(x: Entry, s: seq<Entry>, o: Order)
    requires Sorted(s, o) && DistinctKeys(s)
    requires forall e :: e in s ==> e.key != x.key
    ensures DistinctKeys(Insert(x, s, o))
  {
    if s == [] {
    } else if Rank(x, o) <= Rank(s[0], o) {
      DistinctCons(x, s);
    } else {
      DistinctTail(s);
      InsertDistinct(x, s[1..], o);
      InsertSpec(x, s[1..], o);
      var rest := Insert(x, s[1..], o);
      forall e | e in rest ensures e.key != s[0].key {
        assert e in multiset(rest);
      }
      DistinctCons(s[0], rest);
    }
  }

  lemma {:induction false} SortDistinct(s: seq<Entry>, o: Order)
    requires DistinctKeys(s)
    ensures DistinctKeys(SortBy(s, o))
  {
    if s != [] {
      DistinctTail(s);
      SortDistinct(s[1..], o);
      SortSpec(s[1..], o);
      forall e | e in SortBy(s[1..], o) ensures e.key != s[0].key {
        assert e in multiset(SortBy(s[1..], o));
      }
      InsertDistinct(s[0], SortBy(s[1..], o), o);
    }
  }

  /** The order `Object.entries` lists the counting object in: array-index keys
      by ascending value, then the other keys in insertion order. */
  function EnumerationOrder(t: seq<Entry>): (r: seq<Entry>)
    ensures |r| == |t|
    ensures NoArrayIndexKey(t) ==> r == t
  {
    KeysOfKindLength(t);
    KeysOfKindPlain(t);
    SortBy(KeysOfKind(t, true), IndexAscending) + KeysOfKind(t, false)
  }

  /** No key of `t` is an array index. */
  predicate NoArrayIndexKey(t: seq<Entry>) {
    forall i :: 0 <= i < |t| ==> !IsArrayIndex(t[i].key)
  }

  /** With no array-index key, all entries are of the second kind, in their order. */
  lemma {:induction false} KeysOfKindPlain(t: seq<Entry>)
    ensures NoArrayIndexKey(t) ==> KeysOfKind(t, true) == [] && KeysOfKind(t, false) == t
  {
    if t != [] && NoArrayIndexKey(t) {
      var tail := t[1..];
      assert NoArrayIndexKey(tail) by {
        forall i | 0 <= i < |tail| ensures !IsArrayIndex(tail[i].key) {
          assert tail[i] == t[i + 1];
        }
      }
      KeysOfKindPlain(tail);
      assert !IsArrayIndex(t[0].key);
      assert KeysOfKind(t, false) == [t[0]] + KeysOfKind(tail, false);
      assert [t[0]] + tail == t;
    }
  }

  /** Enumeration lists every own property once and nothing else. */
  lemma EnumerationOrderSpec(t: seq<Entry>)
    requires DistinctKeys(t)
    ensures multiset(EnumerationOrder(t)) == multiset(t)
    ensures DistinctKeys(EnumerationOrder(t))
  {
    var a := KeysOfKind(t, true);
    var sa := SortBy(a, IndexAscending);
    SortSpec(a, IndexAscending);
    KindsPartition(t);
    KeysOfKindDistinct(t, true);
    KeysOfKindDistinct(t, false);
    SortDistinct(a, IndexAscending);
    forall x | x in sa ensures IsArrayIndex(x.key) {
      assert x in multiset(sa);
    }
    DistinctAppend(sa, KeysOfKind(t, false));
  }

  /** Two lists with distinct keys whose keys differ in kind concatenate to one with distinct keys. */
  lemma DistinctAppend(a: seq<Entry>, b: seq<Entry>)
    requires DistinctKeys(a) && DistinctKeys(b)
    requires forall x :: x in a ==> IsArrayIndex(x.key)
    requires forall y :: y in b ==> !IsArrayIndex(y.key)
    ensures DistinctKeys(a + b)
  {
    var r := a + b;
    forall i, j | 0 <= i < |r| && 0 <= j < |r| && i != j ensures r[i].key != r[j].key {
      if i < |a| && j < |a| {
        assert r[i] == a[i] && r[j] == a[j];
      } else if i >= |a| && j >= |a| {
        assert r[i] == b[i - |a|] && r[j] == b[j - |a|];
      } else if i < |a| {
        assert r[i] in a && r[j] in b;
      } else {
        assert r[j] in a && r[i] in b;
      }
    }
  }

  /** Splitting by kind loses and invents nothing. */
  lemma {:induction false} KindsPartition(t: seq<Entry>)
    ensures multiset(KeysOfKind(t, true)) + multiset(KeysOfKind(t, false)) == multiset(t)
  {
    if t != [] {
      KindsPartition(t[1..]);
      assert t == [t[0]] + t[1..];
    }
  }

  /** The entries of a counting object, most frequent first, ties in
      enumeration order. */
  function Ranked(t: seq<Entry>): (r: seq<Entry>)
    ensures |r| == |t|
  {
    SortBy(EnumerationOrder(t), CountDescending)
  }

  /** The first element of `s` with rank `v`, when there is one. */
  lemma {:induction false} WithRankFirst(s: seq<Entry>, o: Order, v: int)
    requires WithRank(s, o, v) != []
    ensures exists j :: (0 <= j < |s| && s[j] == WithRank(s, o, v)[0]
      && Rank(s[j], o) == v && forall i :: 0 <= i < j ==> Rank(s[i], o) != v)
  {
    if Rank(s[0], o) != v {
      WithRankFirst(s[1..], o, v);
      var j :| 0 <= j < |s[1..]| && s[1..][j] == WithRank(s[1..], o, v)[0]
        && Rank(s[1..][j], o) == v && forall i :: 0 <= i < j ==> Rank(s[1..][i], o) != v;
      assert s[j + 1] == s[1..][j];
      forall i | 0 <= i < j + 1 ensures Rank(s[i], o) != v {
        if i > 0 { assert s[i] == s[1..][i - 1]; }
      }
    }
  }

  lemma WithRankHead(s: seq<Entry>, o: Order)
    requires s != []
    ensures WithRank(s, o, Rank(s[0], o)) != [] && WithRank(s, o, Rank(s[0], o))[0] == s[0]
  {
  }

  /** The ranked table lists exactly the entries of the tally. */
  lemma RankedPermutes(keys: seq<string>)
    ensures multiset(Ranked(Tally(keys))) == multiset(Tally(keys))
    ensures DistinctKeys(Ranked(Tally(keys)))
    ensures Sorted(Ranked(Tally(keys)), CountDescending)
  {
    var t := Tally(keys);
    TallySpec(keys);
    EnumerationOrderSpec(t);
    SortSpec(EnumerationOrder(t), CountDescending);
    SortDistinct(EnumerationOrder(t), CountDescending);
  }

  /** Every entry of the ranked table counts its key exactly. */
  lemma RankedCounts(keys: seq<string>)
    ensures forall i :: 0 <= i < |Ranked(Tally(keys))| ==>
      Ranked(Tally(keys))[i].count == Occurrences(keys, Ranked(Tally(keys))[i].key)
      && Ranked(Tally(keys))[i].key in keys
  {
    var t := Tally(keys);
    var r := Ranked(t);
    TallyEntries(keys);
    RankedPermutes(keys);
    forall i | 0 <= i < |r| ensures r[i].count == Occurrences(keys, r[i].key) && r[i].key in keys {
      assert r[i] in multiset(t);
      var j :| 0 <= j < |t| && t[j] == r[i];
    }
  }

  /** Every key that occurs has an entry in the ranked table. */
  lemma RankedComplete(keys: seq<string>)
    ensures forall k :: k in keys ==> HasKey(Ranked(Tally(keys)), k)
  {
    var t := Tally(keys);
    var r := Ranked(t);
    TallyEntries(keys);
    RankedPermutes(keys);
    forall k | k in keys ensures HasKey(r, k) {
      HasKeyPermuted(t, r, k);
    }
  }

  /** Reordering entries keeps every key. */
  lemma HasKeyPermuted(t: seq<Entry>, r: seq<Entry>, k: string)
    requires multiset(t) == multiset(r) && HasKey(t, k)
    ensures HasKey(r, k)
  {
    var j :| 0 <= j < |t| && t[j].key == k;
    assert t[j] in multiset(r);
    var i :| 0 <= i < |r| && r[i] == t[j];
  }

  /** The ranked table of a tally of `keys`: distinct keys, each with its exact
      number of occurrences, counts never increasing, and every occurring key present. */
  lemma RankedSpec(keys: seq<string>)
    ensures DistinctKeys(Ranked(Tally(keys)))
    ensures forall i, j :: 0 <= i < j < |Ranked(Tally(keys))| ==>
      Ranked(Tally(keys))[i].count >= Ranked(Tally(keys))[j].count
    ensures forall i :: 0 <= i < |Ranked(Tally(keys))| ==>
      Ranked(Tally(keys))[i].count == Occurrences(keys, Ranked(Tally(keys))[i].key)
      && Ranked(Tally(keys))[i].key in keys
    ensures forall k :: k in keys ==> HasKey(Ranked(Tally(keys)), k)
  {
    var r := Ranked(Tally(keys));
    RankedPermutes(keys);
    forall i, j | 0 <= i < j < |r| ensures r[i].count >= r[j].count {
      SortedPairs(r, CountDescending, i, j);
    }
    RankedCounts(keys);
    RankedComplete(keys);
  }

  /** The head of the ranked table is an entry of highest count, and no entry
      listed before it by `Object.entries` has that count: ties go to the key
      enumerated first. */
  lemma RankedHead(t: seq<Entry>)
    requires t != [] && DistinctKeys(t)
    ensures var r := Ranked(t); var eo := EnumerationOrder(t);
      && r != []
      && (forall e :: e in t ==> e.count <= r[0].count)
      && (exists j :: 0 <= j < |eo| && eo[j] == r[0] && (forall i :: 0 <= i < j ==> eo[i].count < r[0].count))
  {
    var eo := EnumerationOrder(t);
    var r := Ranked(t);
    EnumerationOrderSpec(t);
    SortSpec(eo, CountDescending);
    assert t[0] in multiset(eo);
    assert r != [];
    forall e | e in t ensures e.count <= r[0].count {
      assert e in multiset(r);
      var i :| 0 <= i < |r| && r[i] == e;
      SortedPairs(r, CountDescending, 0, i);
    }
    var v := Rank(r[0], CountDescending);
    WithRankHead(r, CountDescending);
    WithRankFirst(eo, CountDescending, v);
    var j :| 0 <= j < |eo| && eo[j] == WithRank(eo, CountDescending, v)[0]
      && Rank(eo[j], CountDescending) == v && forall i :: 0 <= i < j ==> Rank(eo[i], CountDescending) != v;
    forall i | 0 <= i < j ensures eo[i].count < r[0].count {
      assert eo[i] in multiset(t);
    }
  }

  // ---- ties ----

  /** Where `k` first occurs in `keys`. */
  function FirstIndex(keys: seq<string>, k: string): (n: nat)
    requires k in keys
    ensures n < |keys| && keys[n] == k
    ensures forall i :: 0 <= i < n ==> keys[i] != k
  {
    if keys[0] == k then 0
    else
      assert k in keys[1..];
      assert forall i :: 0 <= i < |keys[1..]| ==> keys[1..][i] == keys[i + 1];
      1 + FirstIndex(keys[1..], k)
  }

  /** A key already seen first occurs where it did before more keys came. */
  lemma FirstIndexPrefix(keys: seq<string>, x: string, k: string)
    requires k in keys
    ensures FirstIndex(keys + [x], k) == FirstIndex(keys, k)
  {
    var f := FirstIndex(keys, k);
    var g := FirstIndex(keys + [x], k);
    assert (keys + [x])[f] == k;
    assert g <= f;
    assert keys[g] == (keys + [x])[g];
  }

  /** The keys of `s` occur in `keys`, each first occurring before the next one's. */
  predicate FirstSeenOrder(s: seq<Entry>, keys: seq<string>) {
    && (forall i :: 0 <= i < |s| ==> s[i].key in keys)
    && (forall i, j :: 0 <= i < j < |s| ==> FirstIndex(keys, s[i].key) < FirstIndex(keys, s[j].key))
  }

  /** The counting object holds its keys in the order they were first counted:
      a new key is added last, and a key seen before keeps its place. */
  lemma {:induction false} TallyFirstOccurrence(keys: seq<string>)
    ensures FirstSeenOrder(Tally(keys), keys)
  {
    if keys != [] {
      var init := keys[..|keys| - 1];
      var x := keys[|keys| - 1];
      assert keys == init + [x];
      TallyFirstOccurrence(init);
      TallyEntries(init);
      BumpFirstSeen(Tally(init), init, x);
    }
  }

  /** One step of the count: bumping `x` keeps the first-seen order. */
  lemma BumpFirstSeen(t: seq<Entry>, init: seq<string>, x: string)
    requires FirstSeenOrder(t, init)
    requires forall k :: k in init ==> HasKey(t, k)
    ensures FirstSeenOrder(Bump(t, x), init + [x])
  {
    var keys := init + [x];
    var r := Bump(t, x);
    forall i | 0 <= i < |t| ensures r[i].key in keys && FirstIndex(keys, r[i].key) == FirstIndex(init, t[i].key) {
      FirstIndexPrefix(init, x, t[i].key);
    }
    if !HasKey(t, x) {
      assert x !in init;
      assert keys[|init|] == x;
      assert FirstIndex(keys, x) == |init|;
      assert r[|t|].key in keys;
      forall i, j | 0 <= i < j < |r| ensures FirstIndex(keys, r[i].key) < FirstIndex(keys, r[j].key) {
        if j == |t| {
          assert FirstIndex(init, t[i].key) < |init|;
        }
      }
    }
  }

  lemma FirstSeenTail(s: seq<Entry>, keys: seq<string>)
    requires s != [] && FirstSeenOrder(s, keys)
    ensures FirstSeenOrder(s[1..], keys)
    ensures forall x :: x in s[1..] ==> FirstIndex(keys, s[0].key) < FirstIndex(keys, x.key)
  {
    var tail := s[1..];
    assert forall i :: 0 <= i < |tail| ==> tail[i] == s[i + 1];
    forall x | x in tail ensures FirstIndex(keys, s[0].key) < FirstIndex(keys, x.key) {
      var j :| 0 <= j < |tail| && tail[j] == x;
    }
  }

  lemma FirstSeenCons(e: Entry, w: seq<Entry>, keys: seq<string>)
    requires FirstSeenOrder(w, keys) && e.key in keys
    requires forall x :: x in w ==> FirstIndex(keys, e.key) < FirstIndex(keys, x.key)
    ensures FirstSeenOrder([e] + w, keys)
  {
    var r := [e] + w;
    assert forall i :: 0 < i < |r| ==> r[i] == w[i - 1];
    forall i, j | 0 <= i < j < |r| ensures FirstIndex(keys, r[i].key) < FirstIndex(keys, r[j].key) {
      if i == 0 {
        assert r[j] in w;
      }
    }
  }

  /** Picking the elements of one rank keeps the first-seen order. */
  lemma {:induction false} WithRankFirstSeen(s: seq<Entry>, o: Order, v: int, keys: seq<string>)
    requires FirstSeenOrder(s, keys)
    ensures FirstSeenOrder(WithRank(s, o, v), keys)
  {
    if s != [] {
      FirstSeenTail(s, keys);
      WithRankFirstSeen(s[1..], o, v, keys);
      if Rank(s[0], o) == v {
        WithRankMembers(s[1..], o, v);
        FirstSeenCons(s[0], WithRank(s[1..], o, v), keys);
      }
    }
  }

  /** The elements of one rank are elements of `s` of that rank, and every such element is one. */
  lemma {:induction false} WithRankMembers(s: seq<Entry>, o: Order, v: int)
    ensures forall x :: x in WithRank(s, o, v) <==> x in s && Rank(x, o) == v
  {
    if s != [] {
      WithRankMembers(s[1..], o, v);
      assert s == [s[0]] + s[1..];
    }
  }

  /** Two elements of one rank appear in that order among the elements of their rank. */
  lemma {:induction false} WithRankPair(s: seq<Entry>, o: Order, i: nat, j: nat)
    requires i < j < |s| && Rank(s[i], o) == Rank(s[j], o)
    ensures exists a, b :: (0 <= a < b < |WithRank(s, o, Rank(s[i], o))|
      && WithRank(s, o, Rank(s[i], o))[a] == s[i] && WithRank(s, o, Rank(s[i], o))[b] == s[j])
  {
    var v := Rank(s[i], o);
    var tail := s[1..];
    var w := WithRank(tail, o, v);
    if i == 0 {
      WithRankMembers(tail, o, v);
      assert s[j] == tail[j - 1];
      var b :| 0 <= b < |w| && w[b] == s[j];
      assert WithRank(s, o, v) == [s[0]] + w;
      assert WithRank(s, o, v)[0] == s[i] && WithRank(s, o, v)[b + 1] == s[j];
    } else {
      assert s[i] == tail[i - 1] && s[j] == tail[j - 1];
      WithRankPair(tail, o, i - 1, j - 1);
      var a, b :| 0 <= a < b < |w| && w[a] == s[i] && w[b] == s[j];
      if Rank(s[0], o) == v {
        assert WithRank(s, o, v) == [s[0]] + w;
        assert WithRank(s, o, v)[a + 1] == s[i] && WithRank(s, o, v)[b + 1] == s[j];
      } else {
        assert WithRank(s, o, v) == w;
      }
    }
  }

  /** The keys of `s` occur in `keys`, and of two entries with the same count
      the one listed first has the key that occurs first in `keys`. */
  predicate TiesFirstSeen(s: seq<Entry>, keys: seq<string>) {
    && (forall i :: 0 <= i < |s| ==> s[i].key in keys)
    && (forall i, j :: 0 <= i < j < |s| && s[i].count == s[j].count ==>
          FirstIndex(keys, s[i].key) < FirstIndex(keys, s[j].key))
  }

  /** With no array-index key, the head of the ranked table is, among the keys
      counted most often, the one that occurs first in `keys`. */
  lemma RankedHeadFirstSeen(keys: seq<string>)
    requires keys != [] && forall k :: k in keys ==> !IsArrayIndex(k)
    ensures Ranked(Tally(keys)) != [] && Ranked(Tally(keys))[0].key in keys
    ensures forall k :: k in keys && Occurrences(keys, k) == Occurrences(keys, Ranked(Tally(keys))[0].key) ==>
      FirstIndex(keys, Ranked(Tally(keys))[0].key) <= FirstIndex(keys, k)
  {
    var r := Ranked(Tally(keys));
    RankedSpec(keys);
    RankedTiesFirstSeen(keys);
    assert keys[0] in keys && HasKey(r, keys[0]);
    forall k | k in keys && Occurrences(keys, k) == Occurrences(keys, r[0].key)
      ensures FirstIndex(keys, r[0].key) <= FirstIndex(keys, k)
    {
      var m :| 0 <= m < |r| && r[m].key == k;
      if m > 0 {
        assert r[0].count == r[m].count;
      }
    }
  }

  /** Among the ranked entries of `keys` with no array-index key, entries of
      equal count are listed in the order their keys were first seen. */
  lemma RankedTiesFirstSeen(keys: seq<string>)
    requires forall k :: k in keys ==> !IsArrayIndex(k)
    ensures TiesFirstSeen(Ranked(Tally(keys)), keys)
  {
    var t := Tally(keys);
    var r := Ranked(t);
    RankedCounts(keys);
    TallyFirstOccurrence(keys);
    assert NoArrayIndexKey(t);
    assert EnumerationOrder(t) == t;
    SortSpec(t, CountDescending);
    forall i, j | 0 <= i < j < |r| && r[i].count == r[j].count
      ensures FirstIndex(keys, r[i].key) < FirstIndex(keys, r[j].key)
    {
      var v := Rank(r[i], CountDescending);
      WithRankPair(r, CountDescending, i, j);
      WithRankFirstSeen(t, CountDescending, v, keys);
      var w := WithRank(t, CountDescending, v);
      var a, b :| 0 <= a < b < |w| && w[a] == r[i] && w[b] == r[j];
    }
  }

  // ---- the forEach loops ----

  /** Which field of a log the loop counts. */
  datatype LogField = AppNameField | ReasonField

  function KeyOf(log: UsageLog, field: LogField): string {
    match field
    case AppNameField => log.appName
    case ReasonField => log.reason
  }

  /** The counted field of every log, in order. */
  function KeysOf(logs: seq<UsageLog>, field: LogField): seq<string> {
    seq(|logs|, i requires 0 <= i < |logs| => KeyOf(logs[i], field))
  }

  /** The `forEach` that fills the counting object: the result lists each
      counted value once, with the number of logs that carry it. */
  method CountBy(logs: seq<UsageLog>, field: LogField) returns (counts: seq<Entry>)
    ensures counts == Tally(KeysOf(logs, field))
    ensures DistinctKeys(counts)
    ensures forall k :: Lookup(counts, k) == Occurrences(KeysOf(logs, field), k)
  {
    counts := [];
    var i := 0;
    while i < |logs|
      invariant 0 <= i <= |logs|
      invariant counts == Tally(KeysOf(logs[..i], field))
    {
      CountStep(logs, i, field);
      counts := Bump(counts, KeyOf(logs[i], field));
      i := i + 1;
    }
    assert logs[..|logs|] == logs;
    TallySpec(KeysOf(logs, field));
  }

  /** One more log bumps its counted field. */
  lemma CountStep(logs: seq<UsageLog>, i: nat, field: LogField)
    requires i < |logs|
    ensures Tally(KeysOf(logs[..i + 1], field)) == Bump(Tally(KeysOf(logs[..i], field)), KeyOf(logs[i], field))
  {
    assert logs[..i + 1][..i] == logs[..i];
    var keys := KeysOf(logs[..i + 1], field);
    assert keys[..|keys| - 1] == KeysOf(logs[..i], field);
  }
}
