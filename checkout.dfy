/** Turning the cart into a sale (src/script.js `processPayment`,
    `saveSale`, `updateStock`): the cash gate, the sale record, and the
    stock decrement with its ledger entries, one cart line at a time. */
module Checkout {
  import opened Records
  import opened Seqs
  import Catalog
  import Cart

  /** `Math.max(0, x)` */
  function ClampAtZero(x: int): (r: int)
    ensures r >= 0 && r >= x
    ensures r == x || r == 0
  {
    if x < 0 then 0 else x
  }

  /** Two catalogs that differ at most in their products' stock. */
  predicate OnlyStockChanged(before: seq<Product>, after: seq<Product>)
  {
    && |after| == |before|
    && forall k :: 0 <= k < |before| ==> after[k] == before[k].(stock := after[k].stock)
  }

  /** Changing stock never changes which product a barcode finds. */
  lemma SameBarcodesSameIndex(before: seq<Product>, after: seq<Product>, barcode: string)
    requires OnlyStockChanged(before, after)
    ensures Catalog.ProductIndex(after, barcode) == Catalog.ProductIndex(before, barcode)
  {
    assert forall k :: 0 <= k < |before| ==> after[k].barcode == before[k].barcode;
    var a, b := Catalog.ProductIndex(after, barcode), Catalog.ProductIndex(before, barcode);
    if a >= 0 && b >= 0 {
      assert !(a < b) && !(b < a);
    }
  }

  // ----- updateStock -----

  /** One iteration of `updateStock`: the first product with the line's
      barcode drops by the line's quantity, floored at 0, and a 'Vente'
      movement records `variation = -quantity`; a line whose barcode is no
      longer in the catalog is skipped. */
  function SellLine(products: seq<Product>, line: CartLine, id: string, now: int)
    : (r: (seq<Product>, seq<StockMovement>))
    ensures |r.0| == |products|
    ensures |r.1| == if Catalog.ProductIndex(products, line.barcode) >= 0 then 1 else 0
  {
    var k := Catalog.ProductIndex(products, line.barcode);
    if k < 0 then (products, [])
    else
      var p := products[k];
      var left := ClampAtZero(p.stock - line.quantity);
      (products[k := p.(stock := left)],
       [StockMovement(id, now, p.name, p.barcode, p.stock, left, -line.quantity, ReasonSale)])
  }

  /** One line changes at most the product its barcode finds, and that one
      only in its stock. */
  lemma SellLineEffect(products: seq<Product>, line: CartLine, id: string, now: int, k: int)
    requires 0 <= k < |products|
    ensures var r := SellLine(products, line, id, now).0;
      && |r| == |products|
      && (k != Catalog.ProductIndex(products, line.barcode) ==> r[k] == products[k])
      && (k == Catalog.ProductIndex(products, line.barcode) ==>
            r[k].stock == ClampAtZero(products[k].stock - line.quantity))
  {
  }

  /** `m` is the 'Vente' movement logged at `now` for the line `l`. */
  predicate SaleLogged(m: StockMovement, l: CartLine, now: int)
  {
    && m.reason == ReasonSale && m.timestamp == now
    && m.barcode == l.barcode && m.variation == -l.quantity
    && m.newStock == ClampAtZero(m.oldStock - l.quantity)
  }

  /** `m` names the product at position `k` and carries its stock before
      (`before[k]`) and after (`after[k]`) the change it records. */
  predicate MirrorsStock(m: StockMovement, before: seq<Product>, after: seq<Product>, k: int)
  {
    && 0 <= k < |before| && |after| == |before|
    && m.productName == before[k].name
    && m.oldStock == before[k].stock && m.newStock == after[k].stock
  }

  /** One line logs a 'Vente' movement exactly when its barcode finds a
      product; the movement takes the given id and mirrors that product's
      stock before and after the line. */
  lemma SellLineMovement(products: seq<Product>, line: CartLine, id: string, now: int)
    ensures var (ps, m) := SellLine(products, line, id, now);
      var k := Catalog.ProductIndex(products, line.barcode);
      && (k < 0 ==> m == [])
      && (k >= 0 ==> |m| == 1 && SaleLogged(m[0], line, now) && m[0].id == id
                     && MirrorsStock(m[0], products, ps, k))
  {
  }

  /** `this.cart.forEach(...)` in `updateStock`: the lines applied in cart
      order, each to the catalog the previous ones left; `ids[i]` is the id
      generated for line i's movement. */
  function SellLines(products: seq<Product>, lines: seq<CartLine>, ids: seq<string>, now: int)
    : (r: (seq<Product>, seq<StockMovement>))
    requires |ids| == |lines|
    ensures |r.0| == |products| && |r.1| <= |lines|
    decreases |lines|
  {
    if |lines| == 0 then (products, [])
    else
      var n := |lines| - 1;
      var (ps, ms) := SellLines(products, lines[..n], ids[..n], now);
      var (ps', m) := SellLine(ps, lines[n], ids[n], now);
      (ps', ms + m)
  }

  /** Applying one more line is one more step of the walk. */
  lemma SellLinesStep(products: seq<Product>, lines: seq<CartLine>, ids: seq<string>, now: int, i: int)
    requires |ids| == |lines| && 0 <= i < |lines|
    ensures var prev := SellLines(products, lines[..i], ids[..i], now);
      var step := SellLine(prev.0, lines[i], ids[i], now);
      SellLines(products, lines[..i + 1], ids[..i + 1], now) == (step.0, prev.1 + step.1)
  {
    assert lines[..i + 1][..i] == lines[..i] && ids[..i + 1][..i] == ids[..i];
  }

  /** The lines whose barcode the catalog holds: the ones that move stock. */
  function SoldLines(products: seq<Product>, lines: seq<CartLine>): seq<CartLine>
  {
    Filter(lines, InCatalog(products))
  }

  /** The test `SoldLines` filters by. */
  function InCatalog(products: seq<Product>): CartLine -> bool
  {
    (l: CartLine) => Catalog.ProductIndex(products, l.barcode) >= 0
  }

  /** The stock update touches nothing but stock, and every stock it writes
      is at least 0. */
  lemma {:induction false} SellLinesOnlyStock(products: seq<Product>, lines: seq<CartLine>,
                                              ids: seq<string>, now: int)
    requires |ids| == |lines|
    ensures var ps := SellLines(products, lines, ids, now).0;
      && OnlyStockChanged(products, ps)
      && forall k :: 0 <= k < |products| ==> ps[k] == products[k] || ps[k].stock >= 0
    decreases |lines|
  {
    if |lines| > 0 {
      var n := |lines| - 1;
      SellLinesOnlyStock(products, lines[..n], ids[..n], now);
      var ps := SellLines(products, lines[..n], ids[..n], now).0;
      var k := Catalog.ProductIndex(ps, lines[n].barcode);
      var ps' := SellLines(products, lines, ids, now).0;
      assert ps' == SellLine(ps, lines[n], ids[n], now).0;
      if k >= 0 {
        assert ps' == ps[k := ps[k].(stock := ClampAtZero(ps[k].stock - lines[n].quantity))];
      }
    }
  }

  /** A product that no cart line names keeps its stock. */
  lemma {:induction false} SellLinesUntouched(products: seq<Product>, lines: seq<CartLine>,
                                              ids: seq<string>, now: int, k: int)
    requires |ids| == |lines| && 0 <= k < |products|
    requires forall j :: 0 <= j < |lines| ==> lines[j].barcode != products[k].barcode
    ensures SellLines(products, lines, ids, now).0[k] == products[k]
    decreases |lines|
  {
    if |lines| > 0 {
      var n := |lines| - 1;
      assert forall j :: 0 <= j < n ==> lines[..n][j] == lines[j];
      SellLinesUntouched(products, lines[..n], ids[..n], now, k);
      var ps := SellLines(products, lines[..n], ids[..n], now).0;
      var i := Catalog.ProductIndex(ps, lines[n].barcode);
      if i >= 0 {
        assert ps[i].barcode == lines[n].barcode;
        assert i != k;
      }
    }
  }

  /** The stock update keeps the catalog's invariants: stock at or above 0,
      barcodes unique, ids unique. */
  lemma SellLinesKeepsCatalogValid(products: seq<Product>, lines: seq<CartLine>,
                                   ids: seq<string>, now: int)
    requires |ids| == |lines|
    ensures var ps := SellLines(products, lines, ids, now).0;
      && (Catalog.StocksNonNegative(products) ==> Catalog.StocksNonNegative(ps))
      && (Catalog.BarcodesUnique(products) ==> Catalog.BarcodesUnique(ps))
      && (Catalog.IdsUnique(products) ==> Catalog.IdsUnique(ps))
  {
    SellLinesOnlyStock(products, lines, ids, now);
    var ps := SellLines(products, lines, ids, now).0;
    assert forall k :: 0 <= k < |ps| ==> ps[k].barcode == products[k].barcode && ps[k].id == products[k].id;
  }

  /** The stock ledger receives one movement per cart line whose barcode is
      in the catalog, in cart order, each with reason 'Vente', the line's
      barcode, `variation = -quantity` and the new stock `max(0, old - quantity)`. */
  lemma {:induction false} SellLinesMovements(products: seq<Product>, lines: seq<CartLine>,
                                              ids: seq<string>, now: int)
    requires |ids| == |lines|
    ensures var ms := SellLines(products, lines, ids, now).1;
      var sold := SoldLines(products, lines);
      && |ms| == |sold|
      && forall j :: 0 <= j < |ms| ==> SaleLogged(ms[j], sold[j], now)
    decreases |lines|
  {
    if |lines| > 0 {
      var n := |lines| - 1;
      SellLinesMovements(products, lines[..n], ids[..n], now);
      SellLinesOnlyStock(products, lines[..n], ids[..n], now);
      var (ps, ms) := SellLines(products, lines[..n], ids[..n], now);
      SameBarcodesSameIndex(products, ps, lines[n].barcode);
      var sold := SoldLines(products, lines[..n]);
      var m := SellLine(ps, lines[n], ids[n], now).1;
      SellLineMovement(ps, lines[n], ids[n], now);
      assert SellLines(products, lines, ids, now).1 == ms + m;
      var sold' := SoldLines(products, lines);
      if InCatalog(products)(lines[n]) {
        assert sold' == sold + [lines[n]];
        forall j | 0 <= j < |ms + m| ensures SaleLogged((ms + m)[j], sold'[j], now) {
          if j < |ms| {
            assert (ms + m)[j] == ms[j] && sold'[j] == sold[j];
          } else {
            assert (ms + m)[j] == m[0] && sold'[j] == lines[n];
          }
        }
      } else {
        assert sold' == sold && m == [] && ms + m == ms;
      }
    }
  }

  /** A line with another barcode leaves a movement's mirrored stock as it was. */
  lemma MirrorKeptByOtherLine(products: seq<Product>, ps: seq<Product>, line: CartLine, id: string,
                              now: int, m: StockMovement, k: int)
    requires 0 <= k < |products| && products[k].barcode != line.barcode
    requires Catalog.ProductIndex(ps, line.barcode) == Catalog.ProductIndex(products, line.barcode)
    requires MirrorsStock(m, products, ps, k)
    ensures MirrorsStock(m, products, SellLine(ps, line, id, now).0, k)
  {
    SellLineEffect(ps, line, id, now, k);
  }

  /** A line whose barcode no earlier line names finds its product at the
      stock the catalog had before the walk, and its movement mirrors that. */
  lemma LastLineMirrors(products: seq<Product>, init: seq<CartLine>, ids: seq<string>, now: int,
                        line: CartLine, id: string)
    requires |ids| == |init|
    requires forall i :: 0 <= i < |init| ==> init[i].barcode != line.barcode
    requires Catalog.ProductIndex(products, line.barcode) >= 0
    ensures var step := SellLine(SellLines(products, init, ids, now).0, line, id, now);
      |step.1| == 1 && MirrorsStock(step.1[0], products, step.0, Catalog.ProductIndex(products, line.barcode))
  {
    var kn := Catalog.ProductIndex(products, line.barcode);
    SellLinesOnlyStock(products, init, ids, now);
    var ps := SellLines(products, init, ids, now).0;
    SameBarcodesSameIndex(products, ps, line.barcode);
    SellLinesUntouched(products, init, ids, now, kn);
    SellLineMovement(ps, line, id, now);
  }

  /** With one cart line per barcode, each 'Vente' movement mirrors the stock
      change its line caused: it names the product the line finds and carries
      that product's stock before the walk and after it. */
  lemma {:induction false} SellLinesMirrorStock(products: seq<Product>, lines: seq<CartLine>,
                                                ids: seq<string>, now: int)
    requires |ids| == |lines| && Cart.UniqueLines(lines)
    ensures var r := SellLines(products, lines, ids, now);
      var sold := SoldLines(products, lines);
      && |r.1| == |sold|
      && forall j :: 0 <= j < |r.1| ==>
           MirrorsStock(r.1[j], products, r.0, Catalog.ProductIndex(products, sold[j].barcode))
    decreases |lines|
  {
    if |lines| > 0 {
      var n := |lines| - 1;
      var init := lines[..n];
      assert Cart.UniqueLines(init) by {
        assert forall i :: 0 <= i < n ==> init[i] == lines[i];
      }
      SellLinesMirrorStock(products, init, ids[..n], now);
      SellLinesOnlyStock(products, init, ids[..n], now);
      var (ps, ms) := SellLines(products, init, ids[..n], now);
      SameBarcodesSameIndex(products, ps, lines[n].barcode);
      var step := SellLine(ps, lines[n], ids[n], now);
      SellLineMovement(ps, lines[n], ids[n], now);
      assert SellLines(products, lines, ids, now) == (step.0, ms + step.1);
      var sold, sold' := SoldLines(products, init), SoldLines(products, lines);
      var kept := InCatalog(products)(lines[n]);
      assert sold' == if kept then sold + [lines[n]] else sold;
      forall j | 0 <= j < |ms + step.1|
        ensures MirrorsStock((ms + step.1)[j], products, step.0,
                             Catalog.ProductIndex(products, sold'[j].barcode))
      {
        if j < |ms| {
          assert (ms + step.1)[j] == ms[j] && sold'[j] == sold[j] && sold[j] in sold;
          var i :| 0 <= i < n && init[i] == sold[j];
          assert lines[i].barcode != lines[n].barcode;
          MirrorKeptByOtherLine(products, ps, lines[n], ids[n], now, ms[j],
                                Catalog.ProductIndex(products, sold[j].barcode));
        } else {
          assert kept && sold'[j] == lines[n] && (ms + step.1)[j] == step.1[0];
          forall i | 0 <= i < n ensures init[i].barcode != lines[n].barcode {
            assert init[i] == lines[i];
          }
          LastLineMirrors(products, init, ids[..n], now, lines[n], ids[n]);
        }
      }
    }
  }

  /** With one cart line per barcode, the product a line finds ends at
      `max(0, old - quantity)`. */
  lemma {:induction false} SellLinesMatched(products: seq<Product>, lines: seq<CartLine>,
                                            ids: seq<string>, now: int, j: int)
    requires |ids| == |lines| && Cart.UniqueLines(lines)
    requires 0 <= j < |lines| && Catalog.ProductIndex(products, lines[j].barcode) >= 0
    ensures var k := Catalog.ProductIndex(products, lines[j].barcode);
      SellLines(products, lines, ids, now).0[k].stock == ClampAtZero(products[k].stock - lines[j].quantity)
    decreases |lines|
  {
    var n := |lines| - 1;
    var k := Catalog.ProductIndex(products, lines[j].barcode);
    SellLinesOnlyStock(products, lines[..n], ids[..n], now);
    var ps := SellLines(products, lines[..n], ids[..n], now).0;
    assert SellLines(products, lines, ids, now).0 == SellLine(ps, lines[n], ids[n], now).0;
    SameBarcodesSameIndex(products, ps, lines[n].barcode);
    SellLineEffect(ps, lines[n], ids[n], now, k);
    var k' := Catalog.ProductIndex(ps, lines[n].barcode);
    if j < n {
      assert lines[..n][j] == lines[j];
      SellLinesMatched(products, lines[..n], ids[..n], now, j);
      if k' >= 0 {
        assert ps[k'].barcode == lines[n].barcode != lines[j].barcode == ps[k].barcode;
      }
    } else {
      forall i | 0 <= i < n ensures lines[..n][i].barcode != products[k].barcode {
        assert lines[..n][i] == lines[i];
      }
      SellLinesUntouched(products, lines[..n], ids[..n], now, k);
    }
  }

  /** The code logs `variation = -quantity`, not `newStock - oldStock`: the two
      agree exactly when the stock covers the quantity, that is when the
      floor at 0 does not apply. */
  lemma SaleVariationVersusDelta(products: seq<Product>, line: CartLine, id: string, now: int)
    requires Catalog.ProductIndex(products, line.barcode) >= 0
    ensures var k := Catalog.ProductIndex(products, line.barcode);
      var m := SellLine(products, line, id, now).1[0];
      (m.variation == m.newStock - m.oldStock) <==> line.quantity <= products[k].stock
  {
  }

  // ----- The sale record and the checkout -----

  datatype Payment = Payment(mode: string, received: real)

  /** A sale's total and benefit are those of its items. */
  predicate SaleMatchesItems(s: Sale)
  {
    s.total == Cart.Total(s.items) && s.benefit == Cart.Benefit(s.items)
  }

  /** The record `processPayment` builds. */
  function MakeSale(cart: seq<CartLine>, pay: Payment, id: string, now: int): (s: Sale)
    ensures s.items == cart && SaleMatchesItems(s)
    ensures s.id == id && s.timestamp == now && s.paymentMethod == pay.mode
    ensures pay.mode == MethodCash ==> s.paymentDetails.CashDetails?
                                         && s.paymentDetails.received == pay.received
                                         && s.paymentDetails.change + s.total == pay.received
    ensures pay.mode != MethodCash ==> s.paymentDetails == NoDetails
  {
    var total := Cart.Total(cart);
    Sale(id, now, cart, total, Cart.Benefit(cart), pay.mode,
         if pay.mode == MethodCash then CashDetails(pay.received, pay.received - total)
         else NoDetails)
  }

  datatype CheckoutResult =
    | InsufficientPayment   // 'Montant insuffisant'
    | Committed(sale: Sale, products: seq<Product>, salesHistory: seq<Sale>,
                stockHistory: seq<StockMovement>)

  /** `processPayment`: a cash payment below the total is refused; otherwise
      the sale is appended to the sales ledger and the stock update runs. */
  function Checkout(cart: seq<CartLine>, products: seq<Product>, sales: seq<Sale>,
                    stock: seq<StockMovement>, pay: Payment, saleId: string, now: int,
                    moveIds: seq<string>): (r: CheckoutResult)
    requires |moveIds| == |cart|
    ensures r.InsufficientPayment? <==> pay.mode == MethodCash && pay.received < Cart.Total(cart)
    ensures r.Committed? ==>
      && r.salesHistory == sales + [r.sale]
      && r.sale.items == cart && SaleMatchesItems(r.sale)
      && r.sale.id == saleId && r.sale.timestamp == now && r.sale.paymentMethod == pay.mode
      && (pay.mode == MethodCash ==> r.sale.paymentDetails == CashDetails(pay.received, pay.received - r.sale.total)
                                       && r.sale.paymentDetails.change >= 0.0)
      && (pay.mode != MethodCash ==> r.sale.paymentDetails == NoDetails)
      && r.products == SellLines(products, cart, moveIds, now).0
      && r.stockHistory == stock + SellLines(products, cart, moveIds, now).1
  {
    if pay.mode == MethodCash && pay.received < Cart.Total(cart) then InsufficientPayment
    else
      var (ps, ms) := SellLines(products, cart, moveIds, now);
      var sale := MakeSale(cart, pay, saleId, now);
      Committed(sale, ps, sales + [sale], stock + ms)
  }

  /** A committed checkout keeps the catalog's invariants: stock stays at or
      above 0 and barcodes and ids stay unique; products the cart does not
      name are untouched. */
  lemma CheckoutKeepsCatalogValid(cart: seq<CartLine>, products: seq<Product>, sales: seq<Sale>,
                                  stock: seq<StockMovement>, pay: Payment, saleId: string, now: int,
                                  moveIds: seq<string>)
    requires |moveIds| == |cart|
    requires Catalog.StocksNonNegative(products) && Catalog.BarcodesUnique(products)
    requires Catalog.IdsUnique(products)
    ensures var r := Checkout(cart, products, sales, stock, pay, saleId, now, moveIds);
      r.Committed? ==>
        && Catalog.StocksNonNegative(r.products) && Catalog.BarcodesUnique(r.products)
        && Catalog.IdsUnique(r.products) && OnlyStockChanged(products, r.products)
        && forall k :: (0 <= k < |products| &&
             forall j :: 0 <= j < |cart| ==> cart[j].barcode != products[k].barcode) ==>
             r.products[k] == products[k]
  {
    SellLinesOnlyStock(products, cart, moveIds, now);
    SellLinesKeepsCatalogValid(products, cart, moveIds, now);
    forall k | 0 <= k < |products| &&
        forall j :: 0 <= j < |cart| ==> cart[j].barcode != products[k].barcode
      ensures SellLines(products, cart, moveIds, now).0[k] == products[k]
    {
      SellLinesUntouched(products, cart, moveIds, now, k);
    }
  }
}
