/** The products list page (app/dashboard/products/page.tsx): the products on screen, the
    search and category that select them, the pagination block, and the replacement of a
    product edited elsewhere. */
module ProductsPage {
  import opened Wrappers
  import opened ListQuery
  import opened ProductModel
  import opened Lists
  import ProductsApi

  function ProductId(p: Product): string {
    p.id
  }

  class ProductsList {
    var products: seq<Product>
    var searchTerm: string
    var selectedCategory: string
    var pagination: Pagination

    /** Lines 30-39: no products yet, an empty search, every category, `{ 0, 1, 10, 0 }`. */
    constructor()
      ensures products == [] && searchTerm == "" && selectedCategory == "all"
      ensures pagination == Pagination(0, 1, 10, 0)
    {
      products := [];
      searchTerm := "";
      selectedCategory := "all";
      pagination := Pagination(0, 1, 10, 0);
    }

    /** Lines 43-51: the query `fetchProducts(page = 1)` sends. */
    function FetchQuery(page: Option<int>): (q: ProductsApi.Query)
      reads this
      ensures q.page == Some(page.GetOr(1)) && q.limit == Some(pagination.limit)
      ensures q.search == searchTerm && q.category == selectedCategory
    {
      ProductsApi.Query(Some(page.GetOr(1)), Some(pagination.limit), searchTerm, selectedCategory)
    }

    /** Lines 57-58: a successful response replaces the products and the pagination block. */
    method OnProductsLoaded(ps: seq<Product>, p: Pagination)
      modifies this
      ensures products == ps && pagination == p
      ensures searchTerm == old(searchTerm) && selectedCategory == old(selectedCategory)
    {
      products := ps;
      pagination := p;
    }

    /** Lines 74-82: when there is an updated product it replaces every product with its `_id`;
        when there is none the list is left alone. */
    method OnProductUpdated(updated: Option<Product>)
      modifies this
      ensures updated.None? ==> products == old(products)
      ensures updated.Some? ==> products == ReplaceById(old(products), updated.value, ProductId)
      ensures |products| == |old(products)|
      ensures forall i :: 0 <= i < |products| ==> products[i].id == old(products)[i].id
      ensures pagination == old(pagination) && searchTerm == old(searchTerm) && selectedCategory == old(selectedCategory)
    {
      if updated.Some? {
        products := ReplaceById(products, updated.value, ProductId);
      }
    }
  }

  /** The first fetch asks for page 1 of 10 with no search and every category, so it selects
      every product. */
  lemma InitialFetchSelectsAll(l: ProductsList, p: Product)
    requires l.searchTerm == "" && l.selectedCategory == "all" && l.pagination == Pagination(0, 1, 10, 0)
    ensures l.FetchQuery(None) == ProductsApi.Query(Some(1), Some(10), "", "all")
    ensures ProductsApi.Selects(l.FetchQuery(None), p)
  {
  }
}
