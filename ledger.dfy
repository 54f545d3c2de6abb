/** Reporting over the two ledgers (src/historique.js): the statistics fold,
    the newest-first views, the date window, the lookup of a sale by id and
    the payment labels. */
module Ledger {
  import opened Records
  import opened Seqs
  import Cart
  import Checkout

  // ----- Statistics -----

  /** The four figures of the statistics panel: revenue, profit, number of
      sales and units sold. */
  datatype Stats = Stats(revenue: real, profit: real, orders: int, unitsSold: int)

  /** `items.reduce((sum, item) => sum + item.quantity, 0)` */
  function ItemsQuantity(items: seq<CartLine>): (n: int)
    ensures (forall i :: 0 <= i < |items| ==> items[i].quantity > 0) ==> n >= |items|
  {
    if |items| == 0 then 0
    else ItemsQuantity(items[..|items| - 1]) + items[|items| - 1].quantity
  }

  /** The figures the panel shows for a list of sales, accumulated in list
      order. */
  function Summarize(sales: seq<Sale>): (st: Stats)
    ensures st.orders == |sales|
  {
    if |sales| == 0 then Stats(0.0, 0.0, 0, 0)
    else
      var st := Summarize(sales[..|sales| - 1]);
      var s := sales[|sales| - 1];
      Stats(st.revenue + s.total, st.profit + s.benefit, st.orders + 1,
            st.unitsSold + ItemsQuantity(s.items))
  }

  /** Figures of two lists side by side. */
  function Combine(a: Stats, b: Stats): Stats
  {
    Stats(a.revenue + b.revenue, a.profit + b.profit, a.orders + b.orders,
          a.unitsSold + b.unitsSold)
  }

  /** `loadStatistics` / `updateFilteredStatistics`: the accumulating loop. */
  method Statistics(sales: seq<Sale>) returns (st: Stats)
    ensures st == Summarize(sales)
  {
    var revenue, profit, units := 0.0, 0.0, 0;
    var i := 0;
    while i < |sales|
      invariant 0 <= i <= |sales|
      invariant Summarize(sales[..i]) == Stats(revenue, profit, i, units)
    {
      assert sales[..i + 1][..i] == sales[..i];
      revenue := revenue + sales[i].total;
      profit := profit + sales[i].benefit;
      units := units + ItemsQuantity(sales[i].items);
      i := i + 1;
    }
    assert sales[..|sales|] == sales;
    st := Stats(revenue, profit, |sales|, units);
  }

  /** The figures of a concatenation are the sums of the figures of its
      parts. */
  lemma {:induction false} SummarizeConcat(a: seq<Sale>, b: seq<Sale>)
    ensures Summarize(a + b) == Combine(Summarize(a), Summarize(b))
    decreases |b|
  {
    if |b| == 0 {
      assert a + b == a;
    } else {
      var b' := b[..|b| - 1];
      assert (a + b)[..|a + b| - 1] == a + b';
      var last := b[|b| - 1];
      assert (a + b)[|a + b| - 1] == last;
      assert b[..|b| - 1] == b';
      SummarizeConcat(a, b');
      var sa, sab', sb' := Summarize(a), Summarize(a + b'), Summarize(b');
      assert Summarize(a + b) == Stats(sab'.revenue + last.total, sab'.profit + last.benefit,
                                       sab'.orders + 1, sab'.unitsSold + ItemsQuantity(last.items));
      assert Summarize(b) == Stats(sb'.revenue + last.total, sb'.profit + last.benefit,
                                   sb'.orders + 1, sb'.unitsSold + ItemsQuantity(last.items));
    }
  }

  /** The figures do not depend on the order of the sales: the newest-first
      view reports what the ledger order reports. */
  lemma {:induction false} SummarizeReverse(sales: seq<Sale>)
    ensures Summarize(Reverse(sales)) == Summarize(sales)
  {
    if |sales| > 0 {
      var init, last := sales[..|sales| - 1], sales[|sales| - 1];
      assert Reverse(sales) == [last] + Reverse(init);
      SummarizeConcat([last], Reverse(init));
      SummarizeReverse(init);
      assert [last][..0] == [];
    }
  }

  /** A committed checkout adds one order, the cart's total to the revenue,
      its benefit to the profit and its quantities to the units sold. */
  lemma SummaryAfterCheckout(cart: seq<CartLine>, products: seq<Product>, sales: seq<Sale>,
                             stock: seq<StockMovement>, pay: Checkout.Payment, saleId: string,
                             now: int, moveIds: seq<string>)
    requires |moveIds| == |cart|
    ensures var r := Checkout.Checkout(cart, products, sales, stock, pay, saleId, now, moveIds);
      var before := Summarize(sales);
      r.Committed? ==>
        Summarize(r.salesHistory) == Stats(before.revenue + Cart.Total(cart),
                                           before.profit + Cart.Benefit(cart),
                                           before.orders + 1,
                                           before.unitsSold + ItemsQuantity(cart))
  {
    var r := Checkout.Checkout(cart, products, sales, stock, pay, saleId, now, moveIds);
    if r.Committed? {
      assert r.salesHistory[..|r.salesHistory| - 1] == sales;
    }
  }

  /** When every sale's totals are those of its items, the profit is the
      revenue less the cost of the goods sold. */
  lemma {:induction false} ProfitIsRevenueLessCost(sales: seq<Sale>)
    requires forall i :: 0 <= i < |sales| ==> Checkout.SaleMatchesItems(sales[i])
    ensures Summarize(sales).profit == Summarize(sales).revenue - CostOfSales(sales)
  {
    if |sales| > 0 {
      var n := |sales| - 1;
      ProfitIsRevenueLessCost(sales[..n]);
      Cart.BenefitIsTotalMinusCost(sales[n].items);
    }
  }

  /** Purchase cost of the goods in a list of sales. */
  function CostOfSales(sales: seq<Sale>): real
  {
    if |sales| == 0 then 0.0
    else CostOfSales(sales[..|sales| - 1]) + Cart.CostTotal(sales[|sales| - 1].items)
  }

  // ----- Views and the date window -----

  /** An inclusive window of timestamps. */
  predicate InWindow(t: int, lo: int, hi: int) { lo <= t <= hi }

  /** `all.filter(e => from <= e.timestamp <= to).reverse()` */
  function FilterByWindow<T(!new)>(entries: seq<T>, stamp: T -> int, lo: int, hi: int): (r: seq<T>)
    ensures |r| <= |entries|
    ensures forall x :: x in r <==> x in entries && InWindow(stamp(x), lo, hi)
  {
    var kept := Filter(entries, (x: T) => InWindow(stamp(x), lo, hi));
    var r := Reverse(kept);
    assert forall x :: x in r <==> x in kept by {
      forall x | x in kept ensures x in r {
        var i :| 0 <= i < |kept| && kept[i] == x;
        assert r[|kept| - 1 - i] == x;
      }
    }
    r
  }

  /** The filtered list is the newest-first view with the entries outside
      the window taken out: filtering keeps the newest-first order. */
  lemma WindowOfNewestFirst<T(!new)>(entries: seq<T>, stamp: T -> int, lo: int, hi: int)
    ensures FilterByWindow(entries, stamp, lo, hi)
         == Filter(Reverse(entries), (x: T) => InWindow(stamp(x), lo, hi))
  {
    FilterReverse(entries, (x: T) => InWindow(stamp(x), lo, hi));
  }

  /** A window that holds every timestamp gives back the unfiltered
      newest-first view. */
  lemma WholeWindowIsUnfiltered<T(!new)>(entries: seq<T>, stamp: T -> int, lo: int, hi: int)
    requires forall i :: 0 <= i < |entries| ==> InWindow(stamp(entries[i]), lo, hi)
    ensures FilterByWindow(entries, stamp, lo, hi) == Reverse(entries)
  {
    FilterAllKept(entries, (x: T) => InWindow(stamp(x), lo, hi));
  }

  function SaleStamp(s: Sale): int { s.timestamp }
  function MovementStamp(m: StockMovement): int { m.timestamp }

  /** Milliseconds in a day. */
  const DayMs: int := 86400000

  /** The local calendar day (days since 1970-01-01) of instant `t`, for a
      local clock `off` milliseconds ahead of UTC. */
  function LocalDay(t: int, off: int): int { (t + off) / DayMs }

  /** The window `filterByDate` builds as written, for the days `from` and
      `to` picked in the date fields: `new Date('YYYY-MM-DD')` is UTC
      midnight, while `setHours(23, 59, 59, 999)` moves to the end of the
      LOCAL day that instant falls on. */
  function WindowAsWritten(from: int, to: int, off: int): (w: (int, int))
    requires -DayMs < off < DayMs
    ensures w.0 == from * DayMs
    ensures LocalDay(w.1, off) == LocalDay(to * DayMs, off)
    ensures LocalDay(w.1 + 1, off) == LocalDay(to * DayMs, off) + 1
  {
    var toLocal := LocalDay(to * DayMs, off);
    (from * DayMs, (toLocal + 1) * DayMs - 1 - off)
  }

  /** The window of every instant whose local day lies from `from` to `to`,
      both included: the window the date fields describe. */
  function LocalWindow(from: int, to: int, off: int): (w: (int, int))
    requires -DayMs < off < DayMs
    ensures forall t :: InWindow(t, w.0, w.1) <==> from <= LocalDay(t, off) <= to
  {
    var w := (from * DayMs - off, (to + 1) * DayMs - 1 - off);
    forall t ensures InWindow(t, w.0, w.1) <==> from <= LocalDay(t, off) <= to {
      LocalDayBounds(t, off);
    }
    w
  }

  /** `LocalDay` is the floor of the local time over the length of a day. */
  lemma LocalDayBounds(t: int, off: int)
    ensures LocalDay(t, off) * DayMs <= t + off < (LocalDay(t, off) + 1) * DayMs
  {
  }

  /** On a clock set to UTC the window as written is the intended one. */
  lemma AsWrittenAgreesInUtc(from: int, to: int)
    ensures WindowAsWritten(from, to, 0) == LocalWindow(from, to, 0)
  {
    assert LocalDay(to * DayMs, 0) == to;
  }

  /** One hour ahead of UTC, a sale made at 00:30 local time on the first
      selected day is left out by the window as written. */
  lemma AsWrittenMissesEarlySale()
    ensures var off, day := 3600000, 20000;
      var t := day * DayMs - 1800000;
      var w := WindowAsWritten(day, day, off);
      LocalDay(t, off) == day && !InWindow(t, w.0, w.1)
  {
  }

  /** Five hours behind UTC, picking one day shows the evening before it and
      nothing of the day itself: a sale at 21:00 local time the previous
      day is kept, and one at 12:00 local time on the day is not. */
  lemma AsWrittenShowsPreviousEvening()
    ensures var off, day := -18000000, 20000;
      var evening, noon := day * DayMs + 7200000, day * DayMs + 61200000;
      var w := WindowAsWritten(day, day, off);
      && LocalDay(evening, off) == day - 1 && InWindow(evening, w.0, w.1)
      && LocalDay(noon, off) == day && !InWindow(noon, w.0, w.1)
  {
  }

  // ----- Lookups and labels -----

  /** `salesHistory.find(s => s.id === saleId)` */
  function FindSale(sales: seq<Sale>, id: string): (r: Option<Sale>)
    ensures r.None? <==> forall i :: 0 <= i < |sales| ==> sales[i].id != id
    ensures r.Some? ==> exists i :: 0 <= i < |sales| && sales[i] == r.value
                          && r.value.id == id
                          && forall j :: 0 <= j < i ==> sales[j].id != id
  {
    var k := FirstIndex(sales, (s: Sale) => s.id == id);
    if k < 0 then None else Some(sales[k])
  }

  /** A sale found in the ledger is still found, unchanged, once more sales
      are appended. */
  lemma FindSaleStable(sales: seq<Sale>, more: seq<Sale>, id: string)
    requires FindSale(sales, id).Some?
    ensures FindSale(sales + more, id) == FindSale(sales, id)
  {
    var i :| 0 <= i < |sales| && sales[i] == FindSale(sales, id).value
             && sales[i].id == id && forall j :: 0 <= j < i ==> sales[j].id != id;
    assert (sales + more)[i] == sales[i];
    var r := FindSale(sales + more, id);
    assert r.Some?;
    var i' :| 0 <= i' < |sales + more| && (sales + more)[i'] == r.value
              && r.value.id == id && forall j :: 0 <= j < i' ==> (sales + more)[j].id != id;
  }

  /** `getPaymentMethodText`: the label shown for a payment method. */
  function PaymentMethodText(mode: string): (text: string)
    ensures mode == MethodCash ==> text == "Espèces"
    ensures mode == MethodCard ==> text == "Carte bancaire"
    ensures mode == MethodMobile ==> text == "Paiement mobile"
    ensures mode !in {MethodCash, MethodCard, MethodMobile} ==> text == mode
  {
    if mode == MethodCash then "Espèces"
    else if mode == MethodCard then "Carte bancaire"
    else if mode == MethodMobile then "Paiement mobile"
    else mode
  }

  /** Two methods never share a label unless one of them is spelt as the
      other's label. */
  lemma PaymentLabelsDistinct(a: string, b: string)
    requires a != b
    requires PaymentMethodText(a) == PaymentMethodText(b)
    ensures a in {"Espèces", "Carte bancaire", "Paiement mobile"}
         || b in {"Espèces", "Carte bancaire", "Paiement mobile"}
  {
  }
}
