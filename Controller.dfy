/**
 * ProductController: the HTTP actions under api/products. Each action checks
 * its input, calls the service and maps the outcome to a status code. The read
 * actions only compute a response from the service's state; the write actions
 * call the service's mutators.
 */
module Controller {
  import opened Wrappers
  import opened Text
  import opened Linq
  import opened Products
  import opened Ordering
  import opened Catalog

  /** What an action puts in the response body. */
  datatype Body =
    | Empty                           // no body chosen by the action
    | Message(text: string)           // a plain message
    | Items(items: seq<Product>)      // a JSON array of products
    | Single(item: Option<Product>)   // one product, or JSON null
    | Count(count: nat)               // an integer

  datatype Response = Response(status: int, body: Body)

  /** What a catch block returns: StatusCode(500, "internal error"). */
  const InternalError := Response(500, Message("internal error"))

  /** An exception no catch block handles: the host answers 500 on the action's behalf. */
  const Unhandled := Response(500, Empty)

  /** The sortBy dispatch: sortBy.ToLower() against "name", "category" and "price". */
  function ParseSortKey(sortBy: string): (k: Option<SortKey>)
    ensures k == Some(ByName) <==> ToLower(sortBy) == "name"
    ensures k == Some(ByCategory) <==> ToLower(sortBy) == "category"
    ensures k == Some(ByPrice) <==> ToLower(sortBy) == "price"
  {
    var key := ToLower(sortBy);
    if key == "name" then Some(ByName)
    else if key == "category" then Some(ByCategory)
    else if key == "price" then Some(ByPrice)
    else None
  }

  class ProductController {
    const productService: ProductService

    constructor (productService: ProductService)
      ensures this.productService == productService
    {
      this.productService := productService;
    }

    /** POST api/products: 400 for a null body, otherwise add the product and answer 201. */
    method CreateProduct(product: Option<Product>) returns (r: Response)
      requires productService.Valid()
      modifies productService
      ensures productService.Valid() && productService.reachable == old(productService.reachable)
      ensures product.None? ==> r == Response(400, Empty) && productService.products == old(productService.products)
      ensures product.Some? && !productService.reachable ==> r == Unhandled && productService.products == old(productService.products)
      ensures product.Some? && productService.reachable ==>
        var before := old(productService.products);
        && r == Response(201, Empty)
        && |productService.products| == |before| + 1
        && productService.products[..|before|] == before
        && var added := productService.products[|before|];
           added == product.value.(id := added.id) && added.id !in Ids(before)
      ensures product.Some? && Valid(product.value) && AllValid(old(productService.products)) ==>
        AllValid(productService.products)
    {
      if product.None? {
        return Response(400, Empty);
      }
      var outcome, id := productService.AddProduct(product.value);
      if outcome.Failed? {
        return Unhandled;
      }
      UnconstrainedFields(product.value, id, product.value.description);
      r := Response(201, Empty);
    }

    /** GET api/products: 200 with every stored record. */
    function GetProducts(): (r: Response)
      reads productService
      ensures r.status == 200 <==> productService.reachable
      ensures r.status == 200 ==> r.body == Items(productService.products)
      ensures r.status != 200 ==> r == Unhandled
    {
      if !productService.reachable then Unhandled
      else Response(200, Items(GetAllProducts(productService.products)))
    }

    /**
     * GET api/products/{id}: Ok with the service's answer, null included
     * (Ok(null) for a missing key). There is no not-found branch.
     */
    function GetProductById(id: int): (r: Response)
      reads productService
      ensures r.status == 200 <==> productService.reachable
      ensures !productService.reachable ==> r == Unhandled
      ensures r.status != 404
      ensures r.status == 200 ==> r.body.Single? && (r.body.item.None? <==> id !in Ids(productService.products))
      ensures r.status == 200 && r.body.item.Some? ==>
        r.body.item.value in productService.products && r.body.item.value.id == id
    {
      if !productService.reachable then Unhandled
      else Response(200, Single(Catalog.GetProductById(productService.products, id)))
    }

    /** GET api/products/search?name=: 400 for a blank name, 204 for no match, else 200 with the matches. */
    function GetProductByName(name: Option<string>): (r: Response)
      reads productService
      ensures r.status == 400 <==> IsNullOrWhiteSpace(name)
      ensures r.status == 400 ==> r == Response(400, Empty)
      ensures r.status == 500 <==> !IsNullOrWhiteSpace(name) && !productService.reachable
      ensures r.status == 500 ==> r == Unhandled
      ensures r.status == 204 <==>
        !IsNullOrWhiteSpace(name) && productService.reachable
        && forall p :: p in productService.products ==> !(p.name.Some? && Contains(p.name.value, name.value))
      ensures r.status == 204 ==> r == Response(204, Empty)
      ensures r.status == 200 <==>
        !IsNullOrWhiteSpace(name) && productService.reachable
        && exists p :: p in productService.products && p.name.Some? && Contains(p.name.value, name.value)
      ensures r.status == 200 ==>
        && r.body.Items? && r.body.items != []
        && IsSubsequence(r.body.items, productService.products)
        && forall p :: p in r.body.items <==>
             p in productService.products && p.name.Some? && Contains(p.name.value, name.value)
    {
      if IsNullOrWhiteSpace(name) then Response(400, Empty)
      else if !productService.reachable then Unhandled
      else
        var products := GetProductsByName(productService.products, name.value);
        if |products| == 0 then Response(204, Empty)
        else Response(200, Items(products))
    }

    /** GET api/products/total-count: 200 with the count; a failing store gives the caught 500. */
    function GetTotalProductCount(): (r: Response)
      reads productService
      ensures productService.reachable ==> r == Response(200, Count(|productService.products|))
      ensures !productService.reachable ==> r == InternalError
    {
      if !productService.reachable then InternalError
      else Response(200, Count(Catalog.GetTotalProductCount(productService.products)))
    }

    /**
     * PUT api/products/{id}: 400 for a null body or a path id other than the
     * body's Id (the service is not called); otherwise update and answer 204,
     * or 500 when the update throws.
     */
    method UpdateProduct(id: int, product: Option<Product>) returns (r: Response)
      requires productService.Valid()
      modifies productService
      ensures productService.Valid() && productService.reachable == old(productService.reachable)
      ensures product.None? ==>
        r == Response(400, Message("Product data is empty")) && productService.products == old(productService.products)
      ensures product.Some? && id != product.value.id ==>
        r == Response(400, Message("Product Id does not match")) && productService.products == old(productService.products)
      ensures product.Some? && id == product.value.id
              && (!productService.reachable || id !in Ids(old(productService.products))) ==>
        r == InternalError && productService.products == old(productService.products)
      ensures product.Some? && id == product.value.id
              && productService.reachable && id in Ids(old(productService.products)) ==>
        && r == Response(204, Empty)
        && productService.products == ReplaceById(old(productService.products), product.value)
        && Catalog.GetProductById(productService.products, id) == product
        && |productService.products| == |old(productService.products)|
      ensures product.Some? && Valid(product.value) && AllValid(old(productService.products)) ==>
        AllValid(productService.products)
    {
      if product.None? {
        return Response(400, Message("Product data is empty"));
      }
      if id != product.value.id {
        return Response(400, Message("Product Id does not match"));
      }
      ghost var before := productService.products;
      var outcome := productService.UpdateProduct(product.value);
      if outcome.Failed? {
        return InternalError;
      }
      ReplacedRecordFound(before, product.value);
      forall p | p in productService.products ensures p == product.value || p in before {
        var i :| 0 <= i < |productService.products| && productService.products[i] == p;
        assert p == product.value || p == before[i];
      }
      r := Response(204, Empty);
    }

    /**
     * GET api/products/sort?sortBy=&sortOrder=: dispatch on sortBy.ToLower();
     * 400 for any other criterion; a null sortBy or sortOrder throws, and every
     * exception is caught as 500.
     */
    function GetSortedProducts(sortBy: Option<string>, sortOrder: Option<string>): (r: Response)
      reads productService
      ensures sortBy.None? ==> r == InternalError
      ensures sortBy.Some? && ParseSortKey(sortBy.value).None? ==>
        r == Response(400, Message("Invalid sort criteria"))
      ensures r.status == 200 <==>
        sortBy.Some? && ParseSortKey(sortBy.value).Some? && productService.reachable && sortOrder.Some?
      ensures sortBy.Some? && ParseSortKey(sortBy.value).Some? && (!productService.reachable || sortOrder.None?) ==>
        r == InternalError
      ensures r.status != 200 && r.status != 400 ==> r == InternalError
      ensures r.status == 200 ==>
        && r.body.Items?
        && multiset(r.body.items) == multiset(productService.products)
        && Sorted(r.body.items, ParseSortKey(sortBy.value).value, IsDescending(sortOrder.value))
        && Stable(r.body.items, productService.products, ParseSortKey(sortBy.value).value)
    {
      if sortBy.None? then InternalError
      else
        match ParseSortKey(sortBy.value)
        case None => Response(400, Message("Invalid sort criteria"))
        case Some(k) =>
          if !productService.reachable then InternalError
          else
            var sorted := match k
              case ByName => SortProductsByName(productService.products, sortOrder)
              case ByCategory => SortProductsByCategory(productService.products, sortOrder)
              case ByPrice => SortProductsByPrice(productService.products, sortOrder);
            if sorted.Err? then InternalError else Response(200, Items(sorted.value))
    }

    /** GET api/products/category/{category}: 404 when nothing matches, else 200 with the matches. */
    function GetProductsByCategory(category: string): (r: Response)
      reads productService
      ensures r.status == 500 <==> !productService.reachable
      ensures r.status == 500 ==> r == InternalError
      ensures r.status == 404 <==>
        productService.reachable && forall p :: p in productService.products ==> p.category != Some(category)
      ensures r.status == 404 ==> r.body == Message("No products found")
      ensures r.status == 200 <==>
        productService.reachable && exists p :: p in productService.products && p.category == Some(category)
      ensures r.status == 200 ==>
        && r.body.Items? && r.body.items != []
        && IsSubsequence(r.body.items, productService.products)
        && forall p :: p in r.body.items <==> p in productService.products && p.category == Some(category)
    {
      if !productService.reachable then InternalError
      else
        var products := Catalog.GetProductsByCategory(productService.products, category);
        if |products| == 0 then Response(404, Message("No products found"))
        else Response(200, Items(products))
    }

    /**
     * DELETE api/products/{id}: look the key up first; 404 without deleting
     * when it is absent, otherwise delete and answer 204. Exceptions give 500.
     */
    method DeleteProductById(id: int) returns (r: Response)
      requires productService.Valid()
      modifies productService
      ensures productService.Valid() && productService.reachable == old(productService.reachable)
      ensures !productService.reachable ==> r == InternalError && productService.products == old(productService.products)
      ensures productService.reachable && id !in Ids(old(productService.products)) ==>
        r == Response(404, Empty) && productService.products == old(productService.products)
      ensures productService.reachable && id in Ids(old(productService.products)) ==>
        && r == Response(204, Empty)
        && productService.products == RemoveById(old(productService.products), id)
        && |productService.products| == |old(productService.products)| - 1
        && id !in Ids(productService.products)
    {
      if !productService.reachable {
        return InternalError;
      }
      var product := Catalog.GetProductById(productService.products, id);
      if product.None? {
        return Response(404, Empty);
      }
      RemovedRecordGone(productService.products, id);
      var outcome := productService.DeleteProduct(id);
      if outcome.Failed? {
        return InternalError;
      }
      r := Response(204, Empty);
    }

    /** DELETE api/products: empty the table and answer 204; exceptions give 500. */
    method DeleteAllProducts() returns (r: Response)
      requires productService.Valid()
      modifies productService
      ensures productService.Valid() && productService.reachable == old(productService.reachable)
      ensures !productService.reachable ==> r == InternalError && productService.products == old(productService.products)
      ensures productService.reachable ==>
        r == Response(204, Empty) && productService.products == [] && GetTotalProductCount() == Response(200, Count(0))
    {
      var outcome := productService.DeleteAllProducts();
      if outcome.Failed? {
        return InternalError;
      }
      r := Response(204, Empty);
    }
  }
}
