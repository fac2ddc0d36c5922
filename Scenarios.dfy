/**
 * A request sequence built from the controller's branches, proved from the
 * controller's and the service's contracts alone.
 */
module Scenarios {
  import opened Wrappers
  import opened Products
  import opened Ordering
  import opened Catalog
  import opened Controller

  /**
   * Seed two products priced 20 and 21, count them, sort them by price, reject
   * a mismatched update and a delete of a missing key, delete everything, count again.
   */
  method SeedSortDeleteScenario() {
    var service := new ProductService([], true);
    var controller := new ProductController(service);
    var r := controller.CreateProduct(Some(Product(0, Some("Product1"), Some("Description1"), 20.0, Some("Category1"))));
    assert r.status == 201;
    r := controller.CreateProduct(Some(Product(0, Some("Product2"), Some("Description2"), 21.0, Some("Category2"))));
    assert r.status == 201;
    assert controller.GetTotalProductCount() == Response(200, Count(2));

    var sorted := controller.GetSortedProducts(Some("Price"), Some("ASC"));
    assert ParseSortKey("Price") == Some(ByPrice);
    assert sorted.status == 200;
    assert |multiset(sorted.body.items)| == |multiset(service.products)| == 2;
    assert sorted.body.items[0].price <= sorted.body.items[1].price;

    var first := service.products[0];
    r := controller.UpdateProduct(first.id + 1, Some(first.(name := Some("Renamed"))));
    assert r.status == 400 && service.products[0] == first;

    var missing := NextId(service.products);
    r := controller.DeleteProductById(missing);
    assert r.status == 404;
    assert controller.GetTotalProductCount() == Response(200, Count(2));

    r := controller.DeleteAllProducts();
    assert r.status == 204;
    assert controller.GetTotalProductCount() == Response(200, Count(0));
  }
}
