/**
 * Enumerable.OrderBy and Enumerable.OrderByDescending over products, keyed by
 * one of the three sortable properties. Both LINQ operators are stable: records
 * whose keys are equal keep the order they had in the input.
 */
module Ordering {
  import opened Wrappers
  import opened Text
  import opened Linq
  import opened Products

  /** The property a sort is keyed by. */
  datatype SortKey = ByName | ByCategory | ByPrice

  /** The value of a sort key: a (possibly null) string or a price. */
  datatype KeyValue = TextKey(text: Option<string>) | PriceKey(amount: real)

  function KeyOf(k: SortKey, p: Product): KeyValue {
    match k
    case ByName => TextKey(p.name)
    case ByCategory => TextKey(p.category)
    case ByPrice => PriceKey(p.price)
  }

  /**
   * The default comparer on key values: null before every string, strings in
   * ordinal order, prices numerically. (A string and a price are never compared;
   * strings are put first only to make the order total.)
   */
  predicate KeyLe(a: KeyValue, b: KeyValue) {
    match (a, b)
    case (TextKey(None), TextKey(_)) => true
    case (TextKey(Some(_)), TextKey(None)) => false
    case (TextKey(Some(x)), TextKey(Some(y))) => OrdinalLe(x, y)
    case (PriceKey(x), PriceKey(y)) => x <= y
    case (TextKey(_), PriceKey(_)) => true
    case (PriceKey(_), TextKey(_)) => false
  }

  lemma KeyLeTotal(a: KeyValue, b: KeyValue)
    ensures KeyLe(a, b) || KeyLe(b, a)
  {
    if a.TextKey? && b.TextKey? && a.text.Some? && b.text.Some? {
      OrdinalLeTotal(a.text.value, b.text.value);
    }
  }

  lemma KeyLeTransitive(a: KeyValue, b: KeyValue, c: KeyValue)
    requires KeyLe(a, b) && KeyLe(b, c)
    ensures KeyLe(a, c)
  {
    if a.TextKey? && b.TextKey? && c.TextKey? && a.text.Some? && b.text.Some? && c.text.Some? {
      OrdinalLeTransitive(a.text.value, b.text.value, c.text.value);
    }
  }

  lemma KeyLeAntisymmetric(a: KeyValue, b: KeyValue)
    requires KeyLe(a, b) && KeyLe(b, a)
    ensures a == b
  {
    if a.TextKey? && b.TextKey? && a.text.Some? && b.text.Some? {
      OrdinalLeAntisymmetric(a.text.value, b.text.value);
    }
  }

  /** `a` may stand before `b` in a sort by `k`, ascending or descending. */
  predicate Precedes(k: SortKey, descending: bool, a: Product, b: Product) {
    if descending then KeyLe(KeyOf(k, b), KeyOf(k, a)) else KeyLe(KeyOf(k, a), KeyOf(k, b))
  }

  /** Records with equal keys may stand in either order. */
  lemma PrecedesEqualKeys(k: SortKey, descending: bool, a: Product, b: Product)
    requires KeyOf(k, a) == KeyOf(k, b)
    ensures Precedes(k, descending, a, b)
  {
    var v := KeyOf(k, a);
    if v.TextKey? && v.text.Some? {
      OrdinalLeReflexive(v.text.value);
    }
  }

  /** Non-decreasing by `k` (non-increasing when `descending`). */
  ghost predicate Sorted(r: seq<Product>, k: SortKey, descending: bool) {
    forall i, j :: 0 <= i < j < |r| ==> Precedes(k, descending, r[i], r[j])
  }

  /** The filter that keeps the records whose `k` is `v`. */
  function HasKey(k: SortKey, v: KeyValue): Product -> bool {
    p => KeyOf(k, p) == v
  }

  /** For every key value, the records carrying it appear in `r` in the order they have in `s`. */
  ghost predicate Stable(r: seq<Product>, s: seq<Product>, k: SortKey) {
    forall v :: Where(r, HasKey(k, v)) == Where(s, HasKey(k, v))
  }

  /**
   * Insert `x` into `s` in front of the first record it may precede; a record
   * inserted this way goes before the records whose key equals its own.
   */
  function Insert(k: SortKey, descending: bool, x: Product, s: seq<Product>): (r: seq<Product>)
    ensures multiset(r) == multiset(s) + multiset{x}
  {
    if s == [] then [x]
    else if Precedes(k, descending, x, s[0]) then [x] + s
    else
      assert s == [s[0]] + s[1..];
      [s[0]] + Insert(k, descending, x, s[1..])
  }

  lemma {:induction false} InsertSorted(k: SortKey, descending: bool, x: Product, s: seq<Product>)
    requires Sorted(s, k, descending)
    ensures Sorted(Insert(k, descending, x, s), k, descending)
  {
    if s != [] && !Precedes(k, descending, x, s[0]) {
      var tail := Insert(k, descending, x, s[1..]);
      InsertSorted(k, descending, x, s[1..]);
      KeyLeTotal(KeyOf(k, x), KeyOf(k, s[0]));
      forall j | 0 <= j < |tail| ensures Precedes(k, descending, s[0], tail[j]) {
        assert tail[j] in multiset(tail);
        if tail[j] != x {
          assert tail[j] in s[1..];
        }
      }
    } else if s != [] {
      var r := [x] + s;
      forall i, j | 0 <= i < j < |r| ensures Precedes(k, descending, r[i], r[j]) {
        if i == 0 && j > 1 {
          if descending {
            KeyLeTransitive(KeyOf(k, r[j]), KeyOf(k, s[0]), KeyOf(k, x));
          } else {
            KeyLeTransitive(KeyOf(k, x), KeyOf(k, s[0]), KeyOf(k, r[j]));
          }
        }
      }
    }
  }

  /** Inserting `x` adds it to the records with its key, in front of them, and leaves the others alone. */
  lemma {:induction false} InsertStable(k: SortKey, descending: bool, x: Product, s: seq<Product>, v: KeyValue)
    ensures Where(Insert(k, descending, x, s), HasKey(k, v))
         == (if KeyOf(k, x) == v then [x] else []) + Where(s, HasKey(k, v))
  {
    var keep := HasKey(k, v);
    if s == [] {
    } else if Precedes(k, descending, x, s[0]) {
      assert ([x] + s)[1..] == s;
    } else {
      var r := Insert(k, descending, x, s);
      assert r[1..] == Insert(k, descending, x, s[1..]);
      InsertStable(k, descending, x, s[1..], v);
      if KeyOf(k, x) == v && KeyOf(k, s[0]) == v {
        PrecedesEqualKeys(k, descending, x, s[0]);
      }
    }
  }

  /** Enumerable.OrderBy (ascending) or OrderByDescending by `k`: a stable sort. */
  function OrderBy(s: seq<Product>, k: SortKey, descending: bool): (r: seq<Product>)
    ensures multiset(r) == multiset(s)
    ensures Sorted(r, k, descending)
    ensures Stable(r, s, k)
  {
    if s == [] then []
    else
      var rest := OrderBy(s[1..], k, descending);
      InsertSorted(k, descending, s[0], rest);
      assert s == [s[0]] + s[1..];
      assert Stable(Insert(k, descending, s[0], rest), s, k) by {
        forall v {
          InsertStable(k, descending, s[0], rest, v);
        }
      }
      Insert(k, descending, s[0], rest)
  }
}
