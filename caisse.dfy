/** The till page (src/script.js, class `CaisseApp`): the cart it mutates in
    place and the checkout that writes the sale and the stock back to the
    store. Every method is proved against the functions of `Cart` and
    `Checkout`, whose properties are proved there. */
module Caisse {
  import opened Records
  import Catalog
  import Cart
  import Checkout
  import Storage

  class CaisseApp {
    var cart: seq<CartLine>
    const store: Storage.Store

    /** The constructor with `loadCartFromStorage`: the saved cart when there
        is one, else the empty cart. */
    constructor (store: Storage.Store)
      ensures this.store == store
      ensures store.currentCart.Some? ==> cart == store.currentCart.value
      ensures store.currentCart.None? ==> cart == []
    {
      this.store := store;
      cart := [];
      if store.currentCart.Some? {
        cart := store.currentCart.value;
      }
    }

    /** `addProductToCart`: what the cart becomes is what `Cart.AddProduct`
        says; the cart is saved on the paths that change it and on no other. */
    method AddProductToCart(barcode: string) returns (outcome: Cart.AddOutcome)
      modifies this, store
      ensures (outcome, cart) == Cart.AddProduct(old(cart), old(store.products), barcode)
      ensures outcome.IsRejection() ==> store.currentCart == old(store.currentCart)
      ensures !outcome.IsRejection() ==> store.currentCart == Some(cart)
      ensures store.products == old(store.products)
      ensures store.salesHistory == old(store.salesHistory)
      ensures store.stockHistory == old(store.stockHistory)
    {
      var product := Catalog.FindProductByBarcode(store.products, barcode);
      if product.None? {
        return Cart.ProductNotFound;
      }
      if product.value.stock <= 0 {
        return Cart.OutOfStock;
      }
      var i := Cart.LineIndex(cart, barcode);
      if 0 <= i {
        if cart[i].quantity < product.value.stock {
          cart := cart[i := cart[i].(quantity := cart[i].quantity + 1)];
          outcome := Cart.QuantityIncreased;
        } else {
          return Cart.StockExceeded;
        }
      } else {
        cart := cart + [Cart.NewLine(product.value)];
        outcome := Cart.LineAdded;
      }
      store.currentCart := Some(cart);
    }

    /** `updateItemQuantity`, delegating to `removeItemFromCart` when the
        quantity would reach 0. */
    method UpdateItemQuantity(barcode: string, change: int) returns (outcome: Cart.UpdateOutcome)
      modifies this, store
      ensures (outcome, cart) == Cart.UpdateQuantity(old(cart), barcode, change)
      ensures outcome == Cart.NoSuchLine || outcome == Cart.QuantityRefused ==>
                store.currentCart == old(store.currentCart)
      ensures outcome == Cart.LineRemoved || outcome == Cart.QuantityChanged ==>
                store.currentCart == Some(cart)
      ensures store.products == old(store.products)
      ensures store.salesHistory == old(store.salesHistory)
      ensures store.stockHistory == old(store.stockHistory)
    {
      var i := Cart.LineIndex(cart, barcode);
      if i < 0 {
        return Cart.NoSuchLine;
      }
      var q := cart[i].quantity + change;
      if q <= 0 {
        RemoveItemFromCart(barcode);
        return Cart.LineRemoved;
      }
      if q > cart[i].stock {
        return Cart.QuantityRefused;
      }
      cart := cart[i := cart[i].(quantity := q)];
      store.currentCart := Some(cart);
      outcome := Cart.QuantityChanged;
    }

    /** `removeItemFromCart`: keep the lines with another barcode. */
    method RemoveItemFromCart(barcode: string)
      modifies this, store
      ensures cart == Cart.RemoveLines(old(cart), barcode)
      ensures store.currentCart == Some(cart)
      ensures store.products == old(store.products)
      ensures store.salesHistory == old(store.salesHistory)
      ensures store.stockHistory == old(store.stockHistory)
    {
      cart := Cart.RemoveLines(cart, barcode);
      store.currentCart := Some(cart);
    }

    /** `clearCart` */
    method ClearCart()
      modifies this, store
      ensures cart == [] && store.currentCart == Some([])
      ensures store.products == old(store.products)
      ensures store.salesHistory == old(store.salesHistory)
      ensures store.stockHistory == old(store.stockHistory)
    {
      cart := [];
      store.currentCart := Some(cart);
    }

    /** `saveSale`: append the sale to the sales ledger. */
    method SaveSale(sale: Sale)
      modifies store
      ensures store.salesHistory == old(store.salesHistory) + [sale]
      ensures store.products == old(store.products)
      ensures store.stockHistory == old(store.stockHistory)
      ensures store.currentCart == old(store.currentCart)
    {
      store.salesHistory := store.salesHistory + [sale];
    }

    /** `updateStock`: walk the cart in order, lower the stock of the first
        product with the line's barcode, floored at 0, and log one 'Vente'
        movement per product found; `ids[i]` is the id drawn for line i. */
    method UpdateStock(ids: seq<string>, now: int)
      requires |ids| == |cart|
      modifies store
      ensures store.products == Checkout.SellLines(old(store.products), cart, ids, now).0
      ensures store.stockHistory
           == old(store.stockHistory) + Checkout.SellLines(old(store.products), cart, ids, now).1
      ensures store.salesHistory == old(store.salesHistory)
      ensures store.currentCart == old(store.currentCart)
    {
      var lines, p0, h0 := cart, store.products, store.stockHistory;
      var products, history := p0, h0;
      var i := 0;
      while i < |lines|
        invariant 0 <= i <= |lines|
        invariant |ids| == |lines|
        invariant products == Checkout.SellLines(p0, lines[..i], ids[..i], now).0
        invariant history == h0 + Checkout.SellLines(p0, lines[..i], ids[..i], now).1
        modifies {}
      {
        Checkout.SellLinesStep(p0, lines, ids, now, i);
        // one `forEach` callback: find the product, lower its stock, log the sale
        var (sold, moved) := Checkout.SellLine(products, lines[i], ids[i], now);
        assert history + moved == h0 + (Checkout.SellLines(p0, lines[..i], ids[..i], now).1 + moved);
        products, history := sold, history + moved;
        i := i + 1;
      }
      assert lines[..|lines|] == lines && ids[..|ids|] == ids;
      store.products := products;
      store.stockHistory := history;
    }

    /** `processPayment`: refuse a cash payment below the total and change
        nothing; otherwise save the sale, update the stock, empty the cart
        and remove the saved cart. `saleId`, `now` and `moveIds` stand for
        the ids and the clock the code draws. */
    method ProcessPayment(pay: Checkout.Payment, saleId: string, now: int, moveIds: seq<string>)
      returns (committed: bool)
      requires |moveIds| == |cart|
      modifies this, store
      ensures var r := Checkout.Checkout(old(cart), old(store.products), old(store.salesHistory),
                                         old(store.stockHistory), pay, saleId, now, moveIds);
        && committed == r.Committed?
        && (r.Committed? ==>
              && store.salesHistory == r.salesHistory
              && store.products == r.products
              && store.stockHistory == r.stockHistory
              && cart == [] && store.currentCart == None)
      ensures !committed ==>
        && cart == old(cart)
        && store.products == old(store.products)
        && store.salesHistory == old(store.salesHistory)
        && store.stockHistory == old(store.stockHistory)
        && store.currentCart == old(store.currentCart)
    {
      var total := Cart.Total(cart);
      if pay.mode == MethodCash && pay.received < total {
        return false;
      }
      var sale := Checkout.MakeSale(cart, pay, saleId, now);
      SaveSale(sale);
      UpdateStock(moveIds, now);
      ClearCart();
      store.currentCart := None;
      committed := true;
    }
  }
}
