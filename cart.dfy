/** The cash register's cart (src/script.js): an ordered list of lines, one
    per barcode, built by scanning, adjusted with the +/- buttons, and
    summed into a total and a benefit. */
module Cart {
  import opened Records
  import opened Seqs
  import Catalog

  // ----- Lines and their invariants -----

  /** `this.cart.find(item => item.barcode === barcode)`, as a position. */
  function LineIndex(cart: seq<CartLine>, barcode: string): (r: int)
    ensures -1 <= r < |cart|
    ensures r == -1 <==> forall j :: 0 <= j < |cart| ==> cart[j].barcode != barcode
    ensures 0 <= r ==> cart[r].barcode == barcode
    ensures 0 <= r ==> forall j :: 0 <= j < r ==> cart[j].barcode != barcode
  {
    FirstIndex(cart, (l: CartLine) => l.barcode == barcode)
  }

  /** At most one line per barcode. */
  predicate UniqueLines(cart: seq<CartLine>)
  {
    forall i, j :: 0 <= i < j < |cart| ==> cart[i].barcode != cart[j].barcode
  }

  predicate PositiveQuantities(cart: seq<CartLine>)
  {
    forall i :: 0 <= i < |cart| ==> cart[i].quantity > 0
  }

  // ----- Total and benefit -----

  function LineTotal(l: CartLine): real { l.price * l.quantity as real }

  function LineBenefit(l: CartLine): real { (l.price - l.cost) * l.quantity as real }

  function LineCost(l: CartLine): real { l.cost * l.quantity as real }

  /** `cart.reduce((sum, item) => sum + f(item), 0)`, folding from the left. */
  function SumOf(cart: seq<CartLine>, f: CartLine -> real): real
  {
    if |cart| == 0 then 0.0 else SumOf(cart[..|cart| - 1], f) + f(cart[|cart| - 1])
  }

  /** `calculateTotal` */
  function Total(cart: seq<CartLine>): real { SumOf(cart, LineTotal) }

  /** `calculateBenefit` */
  function Benefit(cart: seq<CartLine>): real { SumOf(cart, LineBenefit) }

  /** What the goods in the cart cost the shop. */
  function CostTotal(cart: seq<CartLine>): real { SumOf(cart, LineCost) }

  lemma {:induction false} SumConcat(a: seq<CartLine>, b: seq<CartLine>, f: CartLine -> real)
    ensures SumOf(a + b, f) == SumOf(a, f) + SumOf(b, f)
    decreases |b|
  {
    if |b| == 0 {
      assert a + b == a;
    } else {
      assert (a + b)[..|a + b| - 1] == a + b[..|b| - 1];
      SumConcat(a, b[..|b| - 1], f);
    }
  }

  /** Replacing one line changes the sum by the difference of the two lines. */
  lemma SumUpdate(cart: seq<CartLine>, i: int, l: CartLine, f: CartLine -> real)
    requires 0 <= i < |cart|
    ensures SumOf(cart[i := l], f) == SumOf(cart, f) - f(cart[i]) + f(l)
  {
    assert cart == cart[..i] + [cart[i]] + cart[i + 1..];
    assert cart[i := l] == cart[..i] + [l] + cart[i + 1..];
    SumConcat(cart[..i] + [cart[i]], cart[i + 1..], f);
    SumConcat(cart[..i] + [l], cart[i + 1..], f);
    SumConcat(cart[..i], [cart[i]], f);
    SumConcat(cart[..i], [l], f);
  }

  /** The benefit of a cart is what it sells for minus what it cost:
      Σ (price − cost) × quantity = Σ price × quantity − Σ cost × quantity. */
  lemma {:induction false} BenefitIsTotalMinusCost(cart: seq<CartLine>)
    ensures Benefit(cart) == Total(cart) - CostTotal(cart)
  {
    if |cart| > 0 {
      BenefitIsTotalMinusCost(cart[..|cart| - 1]);
      var l := cart[|cart| - 1];
      assert LineBenefit(l) == LineTotal(l) - LineCost(l);
    }
  }

  /** Non-negative prices and quantities give a non-negative total. */
  lemma {:induction false} TotalNonNegative(cart: seq<CartLine>)
    requires forall i :: 0 <= i < |cart| ==> cart[i].price >= 0.0 && cart[i].quantity >= 0
    ensures Total(cart) >= 0.0
  {
    if |cart| > 0 {
      TotalNonNegative(cart[..|cart| - 1]);
      var l := cart[|cart| - 1];
      assert LineTotal(l) >= 0.0;
    }
  }

  /** The worked example: lines (price 10, cost 6, qty 2) and (price 5,
      cost 2, qty 3) total 35 with a benefit of 17. */
  lemma TotalExample()
    ensures var cart := [CartLine("1", "a", 10.0, 6.0, 2, 9), CartLine("2", "b", 5.0, 2.0, 3, 9)];
      Total(cart) == 35.0 && Benefit(cart) == 17.0
  {
    var cart := [CartLine("1", "a", 10.0, 6.0, 2, 9), CartLine("2", "b", 5.0, 2.0, 3, 9)];
    var a := cart[0];
    assert cart[..1] == [a] && [a][..0] == [];
    assert SumOf([a], LineTotal) == SumOf([], LineTotal) + LineTotal(a) == 20.0;
    assert SumOf([a], LineBenefit) == SumOf([], LineBenefit) + LineBenefit(a) == 8.0;
  }

  // ----- Removing lines -----

  /** `this.cart.filter(item => item.barcode !== barcode)` */
  function RemoveLines(cart: seq<CartLine>, barcode: string): (r: seq<CartLine>)
    ensures forall l :: l in r <==> l in cart && l.barcode != barcode
    ensures LineIndex(r, barcode) == -1
  {
    var r := Filter(cart, (l: CartLine) => l.barcode != barcode);
    assert forall j :: 0 <= j < |r| ==> r[j] in r;
    r
  }

  /** On a cart with one line per barcode, removing a barcode splices out its
      line and keeps the other lines in order; removing an absent barcode
      changes nothing. */
  lemma RemoveSplices(cart: seq<CartLine>, barcode: string)
    requires UniqueLines(cart)
    ensures var i := LineIndex(cart, barcode);
      && (i == -1 ==> RemoveLines(cart, barcode) == cart)
      && (0 <= i ==> RemoveLines(cart, barcode) == cart[..i] + cart[i + 1..])
  {
    var keep := (l: CartLine) => l.barcode != barcode;
    var i := LineIndex(cart, barcode);
    if i == -1 {
      FilterAllKept(cart, keep);
    } else {
      var before, hit, after := cart[..i], [cart[i]], cart[i + 1..];
      assert forall j :: 0 <= j < |before| ==> keep(before[j]);
      forall j | 0 <= j < |after| ensures keep(after[j]) {
        assert after[j] == cart[i + 1 + j];
      }
      assert Filter(hit, keep) == [] by {
        assert hit[..0] == [];
      }
      assert cart == before + hit + after;
      FilterConcat(before + hit, after, keep);
      FilterConcat(before, hit, keep);
      FilterAllKept(before, keep);
      FilterAllKept(after, keep);
    }
  }

  lemma RemoveKeepsQuantitiesPositive(cart: seq<CartLine>, barcode: string)
    ensures PositiveQuantities(cart) ==> PositiveQuantities(RemoveLines(cart, barcode))
  {
    var r := RemoveLines(cart, barcode);
    assert forall j :: 0 <= j < |r| ==> r[j] in r;
  }

  /** Cutting one line out keeps at most one line per barcode. */
  lemma SpliceKeepsUnique(cart: seq<CartLine>, i: int)
    requires UniqueLines(cart) && 0 <= i < |cart|
    ensures UniqueLines(cart[..i] + cart[i + 1..])
  {
    var r := cart[..i] + cart[i + 1..];
    forall a, b | 0 <= a < b < |r| ensures r[a].barcode != r[b].barcode {
      var a', b' := if a < i then a else a + 1, if b < i then b else b + 1;
      assert r[a] == cart[a'] && r[b] == cart[b'] && a' < b';
    }
  }

  /** Removing a barcode keeps at most one line per barcode. */
  lemma RemoveKeepsLinesUnique(cart: seq<CartLine>, barcode: string)
    ensures UniqueLines(cart) ==> UniqueLines(RemoveLines(cart, barcode))
  {
    if UniqueLines(cart) {
      RemoveSplices(cart, barcode);
      var i := LineIndex(cart, barcode);
      if 0 <= i {
        SpliceKeepsUnique(cart, i);
      }
    }
  }

  // ----- Adding a scanned barcode -----

  datatype AddOutcome =
    | ProductNotFound   // 'Produit introuvable'
    | OutOfStock        // 'Produit en rupture de stock'
    | StockExceeded     // 'Stock insuffisant'
    | QuantityIncreased
    | LineAdded
  {
    predicate IsRejection() { ProductNotFound? || OutOfStock? || StockExceeded? }
  }

  /** The line a product gets when first scanned: quantity 1 and snapshots of
      its name, price, cost and stock. */
  function NewLine(p: Product): CartLine
  {
    CartLine(p.barcode, p.name, p.price, p.cost, 1, p.stock)
  }

  /** `addProductToCart`: look the barcode up in the live catalog; refuse an
      unknown barcode or a product with no stock; raise the quantity of the
      existing line only while it is below the live stock; otherwise append a
      new line. */
  function AddProduct(cart: seq<CartLine>, products: seq<Product>, barcode: string)
    : (r: (AddOutcome, seq<CartLine>))
    ensures r.0.IsRejection() <==> r.1 == cart
    ensures r.0 == ProductNotFound <==> forall p :: p in products ==> p.barcode != barcode
    ensures var found := Catalog.FindProductByBarcode(products, barcode);
      && (r.0 == OutOfStock <==> found.Some? && found.value.stock <= 0)
      && (r.0 == StockExceeded <==> found.Some? && found.value.stock > 0 && LineIndex(cart, barcode) >= 0
                                     && cart[LineIndex(cart, barcode)].quantity >= found.value.stock)
      && (r.0 == QuantityIncreased ==>
            var i := LineIndex(cart, barcode);
            0 <= i && r.1 == cart[i := cart[i].(quantity := cart[i].quantity + 1)])
      && (r.0 == LineAdded ==> LineIndex(cart, barcode) == -1 && r.1 == cart + [NewLine(found.value)])
    ensures forall j :: 0 <= j < |cart| && cart[j].barcode != barcode ==> r.1[j] == cart[j]
  {
    var found := Catalog.FindProductByBarcode(products, barcode);
    if found.None? then (ProductNotFound, cart)
    else
      var p := found.value;
      if p.stock <= 0 then (OutOfStock, cart)
      else
        var i := LineIndex(cart, barcode);
        if 0 <= i then
          if cart[i].quantity < p.stock then
            var r := cart[i := cart[i].(quantity := cart[i].quantity + 1)];
            assert r[i] != cart[i];
            (QuantityIncreased, r)
          else (StockExceeded, cart)
        else
          (LineAdded, cart + [NewLine(p)])
  }

  /** After a successful scan the cart has a line for the barcode, that
      line's quantity is within the live stock, and the cart still has one
      line per barcode and positive quantities. */
  lemma AddKeepsCartValid(cart: seq<CartLine>, products: seq<Product>, barcode: string)
    ensures var r := AddProduct(cart, products, barcode);
      var found := Catalog.FindProductByBarcode(products, barcode);
      && (!r.0.IsRejection() ==> 0 <= LineIndex(r.1, barcode))
      && (!r.0.IsRejection() ==> r.1[LineIndex(r.1, barcode)].quantity <= found.value.stock)
      && (UniqueLines(cart) ==> UniqueLines(r.1))
      && (PositiveQuantities(cart) ==> PositiveQuantities(r.1))
  {
    var r := AddProduct(cart, products, barcode);
    var i := LineIndex(cart, barcode);
    if r.0 == QuantityIncreased {
      assert LineIndex(r.1, barcode) == i;
    } else if r.0 == LineAdded {
      assert r.1[|cart|].barcode == barcode;
      assert forall j :: 0 <= j < |cart| ==> r.1[j] == cart[j];
      assert LineIndex(r.1, barcode) == |cart|;
    }
  }

  /** A successful scan raises the total by one unit's price: the snapshot
      price of the existing line (not the live one), or the catalog price
      of a new line. */
  lemma AddProductTotal(cart: seq<CartLine>, products: seq<Product>, barcode: string)
    ensures var r := AddProduct(cart, products, barcode);
      && (r.0 == QuantityIncreased ==>
            Total(r.1) == Total(cart) + cart[LineIndex(cart, barcode)].price)
      && (r.0 == LineAdded ==>
            Total(r.1) == Total(cart) + Catalog.FindProductByBarcode(products, barcode).value.price)
  {
    var r := AddProduct(cart, products, barcode);
    if r.0 == QuantityIncreased {
      QuantityChangeTotals(cart, LineIndex(cart, barcode), 1);
    } else if r.0 == LineAdded {
      assert r.1[..|cart|] == cart;
    }
  }

  // ----- Changing a quantity with the +/- buttons -----

  datatype UpdateOutcome =
    | NoSuchLine
    | LineRemoved
    | QuantityRefused   // 'Stock insuffisant'
    | QuantityChanged

  /** `updateItemQuantity`: a missing line is ignored; a quantity that would
      drop to 0 or below removes the line; one above the line's snapshot
      stock is refused; anything else becomes the new quantity. */
  function UpdateQuantity(cart: seq<CartLine>, barcode: string, change: int)
    : (r: (UpdateOutcome, seq<CartLine>))
    ensures var i := LineIndex(cart, barcode);
      && (r.0 == NoSuchLine <==> i == -1)
      && (r.0 == LineRemoved <==> 0 <= i && cart[i].quantity + change <= 0)
      && (r.0 == QuantityRefused <==> 0 <= i && 0 < cart[i].quantity + change
                                       && cart[i].quantity + change > cart[i].stock)
      && (r.0 == LineRemoved ==> r.1 == RemoveLines(cart, barcode))
      && (r.0 == QuantityChanged ==> r.1 == cart[i := cart[i].(quantity := cart[i].quantity + change)])
    ensures r.0 == NoSuchLine || r.0 == QuantityRefused ==> r.1 == cart
    ensures r.0 != LineRemoved ==> |r.1| == |cart|
    ensures forall j :: 0 <= j < |cart| && cart[j].barcode != barcode && r.0 != LineRemoved ==>
              r.1[j] == cart[j]
    ensures UniqueLines(cart) ==> UniqueLines(r.1)
    ensures PositiveQuantities(cart) ==> PositiveQuantities(r.1)
  {
    var i := LineIndex(cart, barcode);
    if i < 0 then (NoSuchLine, cart)
    else
      var q := cart[i].quantity + change;
      if q <= 0 then
        RemoveKeepsQuantitiesPositive(cart, barcode);
        RemoveKeepsLinesUnique(cart, barcode);
        (LineRemoved, RemoveLines(cart, barcode))
      else if q > cart[i].stock then (QuantityRefused, cart)
      else (QuantityChanged, cart[i := cart[i].(quantity := q)])
  }

  /** Replacing a line by one worth `d` more moves the sum by `d`. */
  lemma SumShift(cart: seq<CartLine>, i: int, l: CartLine, f: CartLine -> real, d: real)
    requires 0 <= i < |cart| && f(l) == f(cart[i]) + d
    ensures SumOf(cart[i := l], f) == SumOf(cart, f) + d
  {
    SumUpdate(cart, i, l, f);
  }

  /** Changing one line's quantity by `change` moves its total by
      price × change and its benefit by (price − cost) × change. */
  lemma LineChange(l: CartLine, change: int)
    ensures var l' := l.(quantity := l.quantity + change);
      && LineTotal(l') == LineTotal(l) + l.price * change as real
      && LineBenefit(l') == LineBenefit(l) + (l.price - l.cost) * change as real
  {
    var q, c := l.quantity as real, change as real;
    assert (l.quantity + change) as real == q + c;
    var price, margin := l.price, l.price - l.cost;
    assert price * (q + c) == price * q + price * c;
    assert margin * (q + c) == margin * q + margin * c;
  }

  /** Setting line i's quantity to quantity + change moves the total by
      price × change and the benefit by (price − cost) × change, at the
      line's snapshot price and cost. */
  lemma QuantityChangeTotals(cart: seq<CartLine>, i: int, change: int)
    requires 0 <= i < |cart|
    ensures var after := cart[i := cart[i].(quantity := cart[i].quantity + change)];
      && Total(after) == Total(cart) + cart[i].price * change as real
      && Benefit(after) == Benefit(cart) + (cart[i].price - cart[i].cost) * change as real
  {
    var l := cart[i].(quantity := cart[i].quantity + change);
    LineChange(cart[i], change);
    SumShift(cart, i, l, LineTotal, cart[i].price * change as real);
    SumShift(cart, i, l, LineBenefit, (cart[i].price - cart[i].cost) * change as real);
  }

  /** A successful quantity change moves the total by price × change and the
      benefit by (price − cost) × change. */
  lemma UpdateQuantityTotals(cart: seq<CartLine>, barcode: string, change: int)
    ensures var r := UpdateQuantity(cart, barcode, change);
      var i := LineIndex(cart, barcode);
      r.0 == QuantityChanged ==>
        && Total(r.1) == Total(cart) + cart[i].price * change as real
        && Benefit(r.1) == Benefit(cart) + (cart[i].price - cart[i].cost) * change as real
  {
    var r := UpdateQuantity(cart, barcode, change);
    var i := LineIndex(cart, barcode);
    if 0 <= i && 0 < cart[i].quantity + change <= cart[i].stock {
      assert r.1 == cart[i := cart[i].(quantity := cart[i].quantity + change)];
      QuantityChangeTotals(cart, i, change);
    }
  }
}
