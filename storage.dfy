/** The browser's key-value store as the three pages share it: the catalog,
    the two ledgers and the saved cart. A missing key reads as the empty
    list; the saved cart is kept apart because the checkout removes its key
    altogether. */
module Storage {
  import opened Records

  class Store {
    var products: seq<Product>
    var salesHistory: seq<Sale>
    var stockHistory: seq<StockMovement>
    var currentCart: Option<seq<CartLine>>

    constructor (products: seq<Product>, salesHistory: seq<Sale>,
                 stockHistory: seq<StockMovement>, currentCart: Option<seq<CartLine>>)
      ensures this.products == products && this.salesHistory == salesHistory
      ensures this.stockHistory == stockHistory && this.currentCart == currentCart
    {
      this.products := products;
      this.salesHistory := salesHistory;
      this.stockHistory := stockHistory;
      this.currentCart := currentCart;
    }
  }
}
