# Product catalog service — a Dafny model

This project models the core of a small ASP.NET Core web service that keeps a
catalog of products in one database table (`Products`) and exposes it under
`api/products`:

- the `Product` record and its data-annotation validation (`Products.dfy`);
- `ProductService`, the twelve operations over the table (`Catalog.dfy`):
  the queries (list, find by id, name search, category filter, count and the
  three sorts) are functions over the table; the mutators (add, update,
  delete by id, delete all) are methods of a `ProductService` class whose
  `products` field is the table;
- `ProductController`, the HTTP actions that check their input, call the
  service and map the outcome to a status code (`Controller.dfy`): read
  actions are functions of the service's state, write actions are methods
  that call the service's mutators;
- the library behaviour those operations rely on: LINQ `Where` (`Linq.dfy`),
  the stable LINQ `OrderBy`/`OrderByDescending` (`Ordering.dfy`), and the
  string operations `IsNullOrWhiteSpace`, `ToLower`, `Contains` and the string
  order (`Text.dfy`).

The database is reduced to its contents and one flag: `ProductService.reachable`
stands for the connection, and when it is false every call into the store
throws. An exception caught by an action becomes `StatusCode(500, "internal
error")` (`Controller.InternalError`); the actions without a `try`
(create, list, get by id, search) let it escape and the host answers 500
(`Controller.Unhandled`). A mutator that throws leaves the table as it was, as
a failed `SaveChanges` commits nothing.

Where the controller's doc comments and its code differ, the model follows
the code:

- For a missing key, the `GET api/products/{id}` action returns `Ok(null)`: a
  200 result whose value is null. Its doc comment promises 404, and there is no
  such branch (`Controller.ProductController.GetProductById` proves the status
  is never 404).
- The `PUT api/products/{id}` doc comment says the action checks that the
  product exists. It does not: an update of a key that no record has fails
  only when the save affects no row and throws, which the action turns into 500.

The service itself does no validation; validity is the data annotations on
`Product`, which the model states as `Products.Validate`/`Products.Valid`.

`Scenarios.SeedSortDeleteScenario` is a request sequence built from the
controller's branches: seed two products priced 20 and 21, count, sort by
price, a mismatched update, a delete of a missing key, delete all, count. It
is proved from the contracts alone.

## Model

| member | source | states |
|---|---|---|
| `Products.Validate` | netcore-product/ProductCatalog.WebAPI/Models/Product.cs:6-21 | each of the three messages is reported exactly when its rule fails: blank Name, negative Price, blank Category |
| `Products.ValidIff` | netcore-product/ProductCatalog.WebAPI/Models/Product.cs:10-20 | a product is valid exactly when Name and Category are non-null, non-empty and not all white space and Price >= 0 |
| `Products.UnconstrainedFields` | netcore-product/ProductCatalog.WebAPI/Models/Product.cs:8-13 | Id and Description carry no constraint: changing them never changes validity |
| `Products.BlankNameRejected` | netcore-product/ProductCatalog.WebAPI/Models/Product.cs:10-11 | [Required] rejects a name made only of spaces, not just null and "" |
| `Text.ToLower` | netcore-product/ProductCatalog.WebAPI/Services/ProductCatalogService.cs:70 | lower-casing keeps the length, maps each character, and leaves no upper-case ASCII letter |
| `Text.ToLowerIdempotent` | netcore-product/ProductCatalog.WebAPI/Services/ProductCatalogService.cs:70 | lower-casing twice is lower-casing once |
| `Text.ContainsIffOccurs` | netcore-product/ProductCatalog.WebAPI/Services/ProductCatalogService.cs:33 | `Contains(s, sub)` holds exactly when `sub` occurs in `s` at some index |
| `Text.OrdinalLeReflexive` | netcore-product/ProductCatalog.WebAPI/Services/ProductCatalogService.cs:70 | the string order is reflexive |
| `Text.OrdinalLeAntisymmetric` | netcore-product/ProductCatalog.WebAPI/Services/ProductCatalogService.cs:70 | the string order is antisymmetric |
| `Text.OrdinalLeTransitive` | netcore-product/ProductCatalog.WebAPI/Services/ProductCatalogService.cs:70 | the string order is transitive |
| `Text.OrdinalLeTotal` | netcore-product/ProductCatalog.WebAPI/Services/ProductCatalogService.cs:70 | any two strings are comparable |
| `Linq.Where` | netcore-product/ProductCatalog.WebAPI/Services/ProductCatalogService.cs:32-34 | the result holds exactly the accepted elements and is a subsequence of the input |
| `Linq.WhereCounts` | netcore-product/ProductCatalog.WebAPI/Services/ProductCatalogService.cs:32-34 | every occurrence of an accepted element is kept, and no occurrence of a rejected one |
| `Ordering.KeyLeTotal` | netcore-product/ProductCatalog.WebAPI/Services/ProductCatalogService.cs:67-84 | any two sort keys (null strings first) are comparable |
| `Ordering.KeyLeTransitive` | netcore-product/ProductCatalog.WebAPI/Services/ProductCatalogService.cs:67-84 | the key order is transitive |
| `Ordering.KeyLeAntisymmetric` | netcore-product/ProductCatalog.WebAPI/Services/ProductCatalogService.cs:67-84 | keys that are ordered both ways are equal |
| `Ordering.PrecedesEqualKeys` | netcore-product/ProductCatalog.WebAPI/Services/ProductCatalogService.cs:67-84 | records with equal keys may stand in either order, ascending or descending |
| `Ordering.Insert` | netcore-product/ProductCatalog.WebAPI/Services/ProductCatalogService.cs:67-84 | inserting adds exactly the one record |
| `Ordering.InsertSorted` | netcore-product/ProductCatalog.WebAPI/Services/ProductCatalogService.cs:67-84 | inserting into an ordered sequence keeps it ordered |
| `Ordering.InsertStable` | netcore-product/ProductCatalog.WebAPI/Services/ProductCatalogService.cs:67-84 | the inserted record goes before the records with its own key and leaves the others' order alone |
| `Ordering.OrderBy` | netcore-product/ProductCatalog.WebAPI/Services/ProductCatalogService.cs:67-84 | OrderBy/OrderByDescending return a permutation of the input, non-decreasing (non-increasing) by the key, with equal keys in input order |
| `Catalog.GetAllProducts` | netcore-product/ProductCatalog.WebAPI/Services/ProductCatalogService.cs:20-23 | every stored record, in store order |
| `Catalog.GetTotalProductCount` | netcore-product/ProductCatalog.WebAPI/Services/ProductCatalogService.cs:87-90 | the count is the length of the list-all result |
| `Catalog.GetProductById` | netcore-product/ProductCatalog.WebAPI/Services/ProductCatalogService.cs:25-28 | a record is returned exactly when the key is present, and it is a stored record with that key; otherwise null |
| `Catalog.GetProductByIdFindsRecord` | netcore-product/ProductCatalog.WebAPI/Services/ProductCatalogService.cs:25-28 | with unique keys, find returns the stored record with that key |
| `Catalog.GetProductsByName` | netcore-product/ProductCatalog.WebAPI/Services/ProductCatalogService.cs:30-35 | exactly the stored records whose Name contains the text (null names excluded), as a subsequence of the table |
| `Catalog.GetProductsByCategory` | netcore-product/ProductCatalog.WebAPI/Services/ProductCatalogService.cs:92-98 | exactly the stored records whose Category equals the text, as a subsequence of the table |
| `Catalog.CategoryExcludesPartialMatch` | netcore-product/ProductCatalog.WebAPI/Services/ProductCatalogService.cs:96 | a record with any other category, a partial match included, is not returned |
| `Catalog.IsDescendingCases` | netcore-product/ProductCatalog.WebAPI/Services/ProductCatalogService.cs:70 | the descending branch is taken exactly for "desc" in any mix of letter cases |
| `Catalog.SortProductsByName` | netcore-product/ProductCatalog.WebAPI/Services/ProductCatalogService.cs:67-71 | null sortOrder throws; otherwise a permutation of the table ordered by Name, descending only for "desc", stable |
| `Catalog.SortProductsByCategory` | netcore-product/ProductCatalog.WebAPI/Services/ProductCatalogService.cs:73-77 | null sortOrder throws; otherwise a permutation of the table ordered by Category, descending only for "desc", stable |
| `Catalog.SortProductsByPrice` | netcore-product/ProductCatalog.WebAPI/Services/ProductCatalogService.cs:80-84 | null sortOrder throws; otherwise a permutation of the table ordered by Price, descending only for "desc", stable |
| `Catalog.SortKeepsCount` | netcore-product/ProductCatalog.WebAPI/Services/ProductCatalogService.cs:67-90 | a sorted listing has as many records as the count |
| `Catalog.NextId` | netcore-product/ProductCatalog.WebAPI/Services/ProductCatalogService.cs:40-41 | the key given to a new record is larger than, hence different from, every key in use |
| `Catalog.ReplaceById` | netcore-product/ProductCatalog.WebAPI/Services/ProductCatalogService.cs:46 | an update keeps the number of records |
| `Catalog.RemoveById` | netcore-product/ProductCatalog.WebAPI/Services/ProductCatalogService.cs:55 | removal keeps exactly the records with another key, in table order |
| `Catalog.AddedRecordFound` | netcore-product/ProductCatalog.WebAPI/Services/ProductCatalogService.cs:38-42 | after an add, keys stay unique, the new key finds the new record with the caller's fields, the count grows by one, other keys are unaffected |
| `Catalog.AppendFind` | netcore-product/ProductCatalog.WebAPI/Services/ProductCatalogService.cs:38-42 | appending a record does not change what any other key finds |
| `Catalog.ReplacedRecordFound` | netcore-product/ProductCatalog.WebAPI/Services/ProductCatalogService.cs:44-48 | after an update, keys stay unique, the key finds the new record, the count is unchanged, other keys are unaffected |
| `Catalog.ReplaceFind` | netcore-product/ProductCatalog.WebAPI/Services/ProductCatalogService.cs:44-48 | an update does not change what any other key finds |
| `Catalog.RemovedRecordGone` | netcore-product/ProductCatalog.WebAPI/Services/ProductCatalogService.cs:50-58 | after removing a present key, keys stay unique, the key is gone, the count drops by one, other keys are unaffected |
| `Catalog.RemoveKeysUnique` | netcore-product/ProductCatalog.WebAPI/Services/ProductCatalogService.cs:50-58 | removal keeps keys unique |
| `Catalog.RemoveCount` | netcore-product/ProductCatalog.WebAPI/Services/ProductCatalogService.cs:50-58 | removing a present key from a table with unique keys removes exactly one record |
| `Catalog.RemoveNothing` | netcore-product/ProductCatalog.WebAPI/Services/ProductCatalogService.cs:52-53 | removing an absent key leaves the table as it is |
| `Catalog.RemoveFind` | netcore-product/ProductCatalog.WebAPI/Services/ProductCatalogService.cs:50-58 | removal does not change what any other key finds |
| `Catalog.ProductService.constructor` | netcore-product/ProductCatalog.WebAPI/Services/ProductCatalogService.cs:15-18 | the service starts over the given table, with unique keys |
| `Catalog.ProductService.AddProduct` | netcore-product/ProductCatalog.WebAPI/Services/ProductCatalogService.cs:38-42 | the table grows by exactly the given record under a key not in use; a failing store throws and changes nothing |
| `Catalog.ProductService.UpdateProduct` | netcore-product/ProductCatalog.WebAPI/Services/ProductCatalogService.cs:44-48 | the record with the product's key is replaced and nothing else; an absent key or a failing store throws and changes nothing |
| `Catalog.ProductService.DeleteProduct` | netcore-product/ProductCatalog.WebAPI/Services/ProductCatalogService.cs:50-58 | a present key's record is removed; an absent key is a no-op; a failing store throws and changes nothing |
| `Catalog.ProductService.DeleteAllProducts` | netcore-product/ProductCatalog.WebAPI/Services/ProductCatalogService.cs:60-64 | the table is left empty and the count is 0; a failing store throws and changes nothing |
| `Controller.ParseSortKey` | netcore-product/ProductCatalog.WebAPI/Controllers/ProductCatalog.cs:148-162 | name, category and price are selected exactly when sortBy lower-cases to that word |
| `Controller.ProductController.constructor` | netcore-product/ProductCatalog.WebAPI/Controllers/ProductCatalog.cs:16-19 | the controller works on the service it is given |
| `Controller.ProductController.CreateProduct` | netcore-product/ProductCatalog.WebAPI/Controllers/ProductCatalog.cs:27-38 | null body: 400 and the table untouched; otherwise 201 and one record with the body's fields under a fresh key, or the host's 500 with the table untouched; valid input keeps every record valid |
| `Controller.ProductController.GetProducts` | netcore-product/ProductCatalog.WebAPI/Controllers/ProductCatalog.cs:45-51 | 200 with every stored record, or the host's 500 |
| `Controller.ProductController.GetProductById` | netcore-product/ProductCatalog.WebAPI/Controllers/ProductCatalog.cs:58-63 | the action's result is Ok with the record, or Ok(null) exactly when the key is absent; never 404; a failing store gives the host's 500 |
| `Controller.ProductController.GetProductByName` | netcore-product/ProductCatalog.WebAPI/Controllers/ProductCatalog.cs:69-85 | 400 exactly for a blank name; the host's 500 exactly when the store fails; 204 exactly when no name contains it; 200 exactly when some name does, with exactly the matching records |
| `Controller.ProductController.GetTotalProductCount` | netcore-product/ProductCatalog.WebAPI/Controllers/ProductCatalog.cs:91-103 | 200 with the number of records, or the caught 500 |
| `Controller.ProductController.UpdateProduct` | netcore-product/ProductCatalog.WebAPI/Controllers/ProductCatalog.cs:111-135 | null body or id mismatch: 400 with the table untouched; missing key or failing store: 500 untouched; otherwise 204 with the record replaced and the count kept |
| `Controller.ProductController.GetSortedProducts` | netcore-product/ProductCatalog.WebAPI/Controllers/ProductCatalog.cs:142-171 | null sortBy: 500; unknown criterion: 400; known criterion with a failing store or a null sortOrder: 500; 200 exactly for a known criterion, a reachable store and a non-null sortOrder, with the table sorted stably as asked |
| `Controller.ProductController.GetProductsByCategory` | netcore-product/ProductCatalog.WebAPI/Controllers/ProductCatalog.cs:179-195 | 404 exactly when no record has the category; 200 exactly when some record has it, with exactly those records; failing store: 500 |
| `Controller.ProductController.DeleteProductById` | netcore-product/ProductCatalog.WebAPI/Controllers/ProductCatalog.cs:202-220 | absent key: 404 and the table untouched; present key: 204 with that record removed and the count one less; failing store: 500 untouched |
| `Controller.ProductController.DeleteAllProducts` | netcore-product/ProductCatalog.WebAPI/Controllers/ProductCatalog.cs:226-239 | 204 and an empty table whose count then answers 0; failing store: 500 untouched |

## Left out

- Asynchrony (`Task`, `await`), dependency injection, routing, JSON
  (de)serialisation: each action is one synchronous step over the service.
- The automatic 400 that `[ApiController]` returns for a body that fails
  validation: validation is modelled (`Products.Valid`) but not as a gate in
  front of the actions; create and update instead promise that a valid body
  keeps every stored record valid.
- Problem-details bodies that `BadRequest()` and `NotFound()` produce: the model
  records only that the action chose no body.
- The database and Entity Framework: the table is a sequence of records with
  unique keys, and every kind of store failure (connection loss, a rejected
  NOT NULL column, a transaction error) is the single `reachable` flag, which
  does not change between the calls of one action.
- Catalog.ProductService.AddProduct: states only that the assigned key is not in
  use, not which identity value SQL Server would pick; inserting a body that
  already carries a non-zero key (refused by the identity column) is not modelled.
- Catalog.ProductService.UpdateProduct: does not model Entity Framework's
  treatment of key 0 as "not yet generated", which turns such an update into an insert.
- Collation and culture: `Contains` is modelled as case-sensitive ordinal
  substring search, `ToLower` lowers ASCII letters only, and strings sort in
  ordinal order with null first, standing for the culture comparer.
- Catalog.GetProductsByCategory: compares categories by exact ordinal equality.
  The database compares by the column's collation, which by default ignores
  letter case and trailing blanks, so a request for "category1" or
  "Category1 " also finds the "Category1" records. The model answers 404 there.
- The rewrite of a 200 result with a null value into 204 No Content by
  ASP.NET Core's output formatter: the model records the action's result
  (`Ok(null)`), not the response the formatter then sends.
- Catalog.NextId: keys are unbounded integers; the 32-bit range of the C#
  `int` key, and the overflow of the identity column at 2147483647, are not
  modelled.
- `decimal` Price: a `real`, only compared.
- Concurrency: the check-then-delete of delete by id is one step here; the race
  between concurrent requests is not modelled.
- `Program.cs` (a console connectivity check) and `Data/ProductContext.cs`
  (Entity Framework wiring) are not part of this model; `IProductCatalogService.cs`
  only declares the signatures used here.
