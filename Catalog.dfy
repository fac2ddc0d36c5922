/**
 * ProductService: the catalog table and the twelve operations over it. The
 * queries are LINQ expressions over the table and are functions here; the four
 * mutators change the table and then save, and are methods of the class.
 */
module Catalog {
  import opened Wrappers
  import opened Text
  import opened Linq
  import opened Products
  import opened Ordering

  /** Why a service call throws. */
  datatype Fault =
    | StoreUnavailable  // the database cannot be reached or refuses the command
    | RecordMissing     // an update matched no row (a concurrency exception)
    | NullReference     // a null argument was dereferenced

  /** The value of a call that returns a value, or the exception it throws. */
  datatype Result<T> = Ok(value: T) | Err(fault: Fault)

  /** The completion of a call that returns nothing, or the exception it throws. */
  datatype Outcome = Done | Failed(fault: Fault)

  /** The keys present in the table. */
  function Ids(t: seq<Product>): set<int> {
    set p | p in t :: p.id
  }

  /** Id is the primary key: no two records share one. */
  ghost predicate KeysUnique(t: seq<Product>) {
    forall i, j :: 0 <= i < j < |t| ==> t[i].id != t[j].id
  }

  /** GetAllProducts: every stored record, in store order. */
  function GetAllProducts(t: seq<Product>): (r: seq<Product>)
    ensures |r| == |t|
    ensures forall i :: 0 <= i < |t| ==> r[i] == t[i]
  {
    t
  }

  /** GetTotalProductCount: the number of stored records. */
  function GetTotalProductCount(t: seq<Product>): (n: nat)
    ensures n == |GetAllProducts(t)|
  {
    |t|
  }

  /** GetProductById (FindAsync on the key): the record with key `id`, or null. */
  function GetProductById(t: seq<Product>, id: int): (r: Option<Product>)
    ensures r.Some? <==> id in Ids(t)
    ensures r.Some? ==> r.value in t && r.value.id == id
  {
    if t == [] then None
    else if t[0].id == id then Some(t[0])
    else
      assert t == [t[0]] + t[1..];
      GetProductById(t[1..], id)
  }

  /** With unique keys, the record found is THE record with that key. */
  lemma GetProductByIdFindsRecord(t: seq<Product>, p: Product)
    requires KeysUnique(t)
    requires p in t
    ensures GetProductById(t, p.id) == Some(p)
  {
  }

  /** The predicate of GetProductsByName: the name contains `name` (a null name matches nothing). */
  function NameContains(name: string): Product -> bool {
    (p: Product) => p.name.Some? && Contains(p.name.value, name)
  }

  /** GetProductsByName: the records whose Name contains `name`, in table order. */
  function GetProductsByName(t: seq<Product>, name: string): (r: seq<Product>)
    ensures forall p :: p in r <==> p in t && p.name.Some? && Contains(p.name.value, name)
    ensures IsSubsequence(r, t)
  {
    Where(t, NameContains(name))
  }

  /** The predicate of GetProductsByCategory: the category equals `category`, compared ordinally. */
  function CategoryIs(category: string): Product -> bool {
    (p: Product) => p.category == Some(category)
  }

  /** GetProductsByCategory: the records whose Category is exactly `category`, in table order. */
  function GetProductsByCategory(t: seq<Product>, category: string): (r: seq<Product>)
    ensures forall p :: p in r <==> p in t && p.category == Some(category)
    ensures IsSubsequence(r, t)
  {
    Where(t, CategoryIs(category))
  }

  /**
   * Under the model's exact string equality, a category that merely contains,
   * or is contained in, the requested one does not match. (The database
   * compares by its collation; see the README.)
   */
  lemma CategoryExcludesPartialMatch(t: seq<Product>, category: string, p: Product)
    requires p in t && p.category.Some? && p.category.value != category
    ensures p !in GetProductsByCategory(t, category)
  {
  }

  /** The direction test of the three sorts: sortOrder.ToLower() == "desc". */
  predicate IsDescending(sortOrder: string) {
    ToLower(sortOrder) == "desc"
  }

  /** "desc" is recognised in any mix of cases, and nothing else is. */
  lemma IsDescendingCases(sortOrder: string)
    ensures IsDescending(sortOrder) <==>
      && |sortOrder| == 4
      && sortOrder[0] in "dD" && sortOrder[1] in "eE" && sortOrder[2] in "sS" && sortOrder[3] in "cC"
  {
  }

  /** The shared shape of the three sorts: load the table, then sort it in memory. */
  function SortProducts(t: seq<Product>, k: SortKey, sortOrder: Option<string>): Result<seq<Product>> {
    if sortOrder.None? then Err(NullReference)
    else Ok(OrderBy(t, k, IsDescending(sortOrder.value)))
  }

  /** The promise each sort keeps: a permutation of the table, ordered by `k`, stable. */
  ghost predicate SortedView(r: Result<seq<Product>>, t: seq<Product>, k: SortKey, sortOrder: Option<string>) {
    && (r.Ok? <==> sortOrder.Some?)
    && (r.Err? ==> r.fault == NullReference)
    && (r.Ok? ==>
          && multiset(r.value) == multiset(t)
          && Sorted(r.value, k, IsDescending(sortOrder.value))
          && Stable(r.value, t, k))
  }

  /** SortProductsByName: the whole table by Name; a null sortOrder throws. */
  function SortProductsByName(t: seq<Product>, sortOrder: Option<string>): (r: Result<seq<Product>>)
    ensures SortedView(r, t, ByName, sortOrder)
  {
    SortProducts(t, ByName, sortOrder)
  }

  /** SortProductsByCategory: the whole table by Category; a null sortOrder throws. */
  function SortProductsByCategory(t: seq<Product>, sortOrder: Option<string>): (r: Result<seq<Product>>)
    ensures SortedView(r, t, ByCategory, sortOrder)
  {
    SortProducts(t, ByCategory, sortOrder)
  }

  /** SortProductsByPrice: the whole table by Price; a null sortOrder throws. */
  function SortProductsByPrice(t: seq<Product>, sortOrder: Option<string>): (r: Result<seq<Product>>)
    ensures SortedView(r, t, ByPrice, sortOrder)
  {
    SortProducts(t, ByPrice, sortOrder)
  }

  /** A sort returns every record, so it has as many as the count says. */
  lemma SortKeepsCount(t: seq<Product>, k: SortKey, sortOrder: string)
    ensures |OrderBy(t, k, IsDescending(sortOrder))| == GetTotalProductCount(t)
  {
    assert |multiset(OrderBy(t, k, IsDescending(sortOrder)))| == |multiset(t)|;
  }

  /** A key larger than every key in the table, hence absent from it. */
  function NextId(t: seq<Product>): (id: int)
    ensures forall p :: p in t ==> p.id < id
    ensures id !in Ids(t)
  {
    if t == [] then 1
    else
      var rest := NextId(t[1..]);
      assert t == [t[0]] + t[1..];
      if t[0].id < rest then rest else t[0].id + 1
  }

  /** The table after an update of `p`: the record with p's key replaced by `p`. */
  function ReplaceById(t: seq<Product>, p: Product): (r: seq<Product>)
    ensures |r| == |t|
  {
    seq(|t|, i requires 0 <= i < |t| => if t[i].id == p.id then p else t[i])
  }

  /** The filter that DeleteProduct leaves behind: every key but `id`. */
  function IdIsNot(id: int): Product -> bool {
    (p: Product) => p.id != id
  }

  /** The table after the record with key `id` is removed. */
  function RemoveById(t: seq<Product>, id: int): (r: seq<Product>)
    ensures IsSubsequence(r, t)
    ensures forall p :: p in r <==> p in t && p.id != id
  {
    Where(t, IdIsNot(id))
  }

  /** Adding a record with a fresh key keeps keys unique; it is found by its key and nothing else moves. */
  lemma AddedRecordFound(t: seq<Product>, p: Product)
    requires KeysUnique(t)
    requires p.id !in Ids(t)
    ensures KeysUnique(t + [p])
    ensures GetProductById(t + [p], p.id) == Some(p)
    ensures GetTotalProductCount(t + [p]) == GetTotalProductCount(t) + 1
    ensures forall id :: id != p.id ==> GetProductById(t + [p], id) == GetProductById(t, id)
  {
  }

  lemma {:induction false} AppendFind(t: seq<Product>, p: Product, id: int)
    requires id != p.id
    ensures GetProductById(t + [p], id) == GetProductById(t, id)
  {
    if t != [] {
      assert (t + [p])[1..] == t[1..] + [p];
      AppendFind(t[1..], p, id);
    }
  }

  /**
   * Updating an existing key keeps keys unique and the count; the key now finds
   * the new record and every other key finds what it found before.
   */
  lemma ReplacedRecordFound(t: seq<Product>, p: Product)
    requires KeysUnique(t)
    requires p.id in Ids(t)
    ensures KeysUnique(ReplaceById(t, p))
    ensures GetProductById(ReplaceById(t, p), p.id) == Some(p)
    ensures GetTotalProductCount(ReplaceById(t, p)) == GetTotalProductCount(t)
    ensures forall id :: id != p.id ==> GetProductById(ReplaceById(t, p), id) == GetProductById(t, id)
  {
    var u := ReplaceById(t, p);
    forall i, j | 0 <= i < j < |u| ensures u[i].id != u[j].id {
      assert u[i].id == t[i].id && u[j].id == t[j].id;
    }
    var q :| q in t && q.id == p.id;
    var i :| 0 <= i < |t| && t[i] == q;
    assert u[i] == p;
    GetProductByIdFindsRecord(u, p);
    forall id | id != p.id ensures GetProductById(u, id) == GetProductById(t, id) {
      ReplaceFind(t, p, id);
    }
  }

  lemma {:induction false} ReplaceFind(t: seq<Product>, p: Product, id: int)
    requires id != p.id
    ensures GetProductById(ReplaceById(t, p), id) == GetProductById(t, id)
  {
    if t != [] {
      assert ReplaceById(t, p)[1..] == ReplaceById(t[1..], p);
      ReplaceFind(t[1..], p, id);
    }
  }

  /**
   * Removing an existing key keeps keys unique and takes exactly one record
   * away; the key is then absent and every other key finds what it found before.
   */
  lemma RemovedRecordGone(t: seq<Product>, id: int)
    requires KeysUnique(t)
    requires id in Ids(t)
    ensures KeysUnique(RemoveById(t, id))
    ensures GetProductById(RemoveById(t, id), id).None?
    ensures GetTotalProductCount(RemoveById(t, id)) == GetTotalProductCount(t) - 1
    ensures forall other :: other != id ==> GetProductById(RemoveById(t, id), other) == GetProductById(t, other)
  {
    RemoveKeysUnique(t, id);
    RemoveCount(t, id);
    forall other | other != id ensures GetProductById(RemoveById(t, id), other) == GetProductById(t, other) {
      RemoveFind(t, id, other);
    }
  }

  lemma {:induction false} RemoveKeysUnique(t: seq<Product>, id: int)
    requires KeysUnique(t)
    ensures KeysUnique(RemoveById(t, id))
  {
    if t != [] {
      assert KeysUnique(t[1..]);
      RemoveKeysUnique(t[1..], id);
      if t[0].id != id {
        var r := RemoveById(t, id);
        assert r == [t[0]] + RemoveById(t[1..], id);
        forall j | 0 < j < |r| ensures r[0].id != r[j].id {
          assert r[j] in t[1..];
        }
      }
    }
  }

  lemma {:induction false} RemoveCount(t: seq<Product>, id: int)
    requires KeysUnique(t)
    requires id in Ids(t)
    ensures |RemoveById(t, id)| == |t| - 1
  {
    assert KeysUnique(t[1..]);
    if t[0].id == id {
      RemoveNothing(t[1..], id);
    } else {
      assert t == [t[0]] + t[1..];
      var q :| q in t && q.id == id;
      assert q in t[1..];
      RemoveCount(t[1..], id);
    }
  }

  lemma {:induction false} RemoveNothing(t: seq<Product>, id: int)
    requires id !in Ids(t)
    ensures RemoveById(t, id) == t
  {
    if t != [] {
      assert t[0] in t;
      assert t == [t[0]] + t[1..];
      RemoveNothing(t[1..], id);
    }
  }

  lemma {:induction false} RemoveFind(t: seq<Product>, id: int, other: int)
    requires other != id
    ensures GetProductById(RemoveById(t, id), other) == GetProductById(t, other)
  {
    if t != [] {
      RemoveFind(t[1..], id, other);
    }
  }

  /** Every stored record passes validation. */
  ghost predicate AllValid(t: seq<Product>) {
    forall p :: p in t ==> Valid(p)
  }

  /**
   * The service over one database context. `products` is the Products table;
   * `reachable` stands for the database connection: when it is false, every
   * call into the store throws.
   */
  class ProductService {
    var products: seq<Product>
    var reachable: bool

    ghost predicate Valid()
      reads this
    {
      KeysUnique(products)
    }

    constructor (products: seq<Product>, reachable: bool)
      requires KeysUnique(products)
      ensures Valid()
      ensures this.products == products && this.reachable == reachable
    {
      this.products := products;
      this.reachable := reachable;
    }

    /**
     * AddProduct: Add then SaveChanges. The store assigns the new record a key
     * not in use and returns it in `id`; the other fields are the caller's.
     */
    method AddProduct(product: Product) returns (outcome: Outcome, id: int)
      requires Valid()
      modifies this
      ensures Valid() && reachable == old(reachable)
      ensures !reachable ==> outcome == Failed(StoreUnavailable) && products == old(products)
      ensures reachable ==>
        && outcome == Done
        && id !in Ids(old(products))
        && products == old(products) + [product.(id := id)]
    {
      id := NextId(products);
      if !reachable {
        outcome := Failed(StoreUnavailable);
        return;
      }
      var added := product.(id := id);
      AddedRecordFound(products, added);
      products := products + [added];
      outcome := Done;
    }

    /**
     * UpdateProduct: Update then SaveChanges. The record with the product's key
     * is replaced field by field; when no record has that key the save affects
     * no row and throws.
     */
    method UpdateProduct(product: Product) returns (outcome: Outcome)
      requires Valid()
      modifies this
      ensures Valid() && reachable == old(reachable)
      ensures !reachable ==> outcome == Failed(StoreUnavailable) && products == old(products)
      ensures reachable && product.id !in Ids(old(products)) ==>
        outcome == Failed(RecordMissing) && products == old(products)
      ensures reachable && product.id in Ids(old(products)) ==>
        outcome == Done && products == ReplaceById(old(products), product)
    {
      if !reachable {
        outcome := Failed(StoreUnavailable);
      } else if product.id !in Ids(products) {
        outcome := Failed(RecordMissing);
      } else {
        ReplacedRecordFound(products, product);
        products := ReplaceById(products, product);
        outcome := Done;
      }
    }

    /** DeleteProduct: find by key; remove and save if found, otherwise do nothing. */
    method DeleteProduct(id: int) returns (outcome: Outcome)
      requires Valid()
      modifies this
      ensures Valid() && reachable == old(reachable)
      ensures !reachable ==> outcome == Failed(StoreUnavailable) && products == old(products)
      ensures reachable && id !in Ids(old(products)) ==> outcome == Done && products == old(products)
      ensures reachable && id in Ids(old(products)) ==>
        outcome == Done && products == RemoveById(old(products), id)
    {
      if !reachable {
        outcome := Failed(StoreUnavailable);
        return;
      }
      var found := GetProductById(products, id);
      if found.Some? {
        RemovedRecordGone(products, id);
        products := RemoveById(products, id);
      }
      outcome := Done;
    }

    /** DeleteAllProducts: RemoveRange over the whole table then SaveChanges. */
    method DeleteAllProducts() returns (outcome: Outcome)
      requires Valid()
      modifies this
      ensures Valid() && reachable == old(reachable)
      ensures !reachable ==> outcome == Failed(StoreUnavailable) && products == old(products)
      ensures reachable ==> outcome == Done && products == [] && GetTotalProductCount(products) == 0
    {
      if !reachable {
        outcome := Failed(StoreUnavailable);
        return;
      }
      products := [];
      outcome := Done;
    }
  }
}
