/** The history page (src/historique.js, class `HistoriqueApp`): the
    newest-first views it keeps of the two ledgers, the figures of its
    statistics panel, the date filter and the sale detail. Every method is
    proved against the functions of `Ledger`. */
module Historique {
  import opened Records
  import opened Seqs
  import opened Ledger
  import Storage

  class HistoriqueApp {
    var filteredSales: seq<Sale>
    var filteredStock: seq<StockMovement>
    /** The figures the statistics panel shows. */
    var shown: Stats
    /** `currentSaleId`: the sale whose detail is open, None when closed. */
    var currentSaleId: Option<string>
    const store: Storage.Store

    /** The constructor with `loadStatistics`, `loadSalesHistory` and
        `loadStockHistory`. */
    constructor (store: Storage.Store)
      ensures this.store == store
      ensures filteredSales == Reverse(store.salesHistory)
      ensures filteredStock == Reverse(store.stockHistory)
      ensures shown == Summarize(store.salesHistory)
      ensures currentSaleId == None
    {
      this.store := store;
      var st := Statistics(store.salesHistory);
      shown := st;
      filteredSales := Reverse(store.salesHistory);
      filteredStock := Reverse(store.stockHistory);
      currentSaleId := None;
    }

    /** `loadStatistics`: the figures of the whole sales ledger. */
    method LoadStatistics()
      modifies this
      ensures shown == Summarize(store.salesHistory)
      ensures filteredSales == old(filteredSales) && filteredStock == old(filteredStock)
      ensures currentSaleId == old(currentSaleId)
    {
      shown := Statistics(store.salesHistory);
    }

    /** `updateFilteredStatistics`: the figures of the sales on view. */
    method UpdateFilteredStatistics()
      modifies this
      ensures shown == Summarize(filteredSales)
      ensures filteredSales == old(filteredSales) && filteredStock == old(filteredStock)
      ensures currentSaleId == old(currentSaleId)
    {
      shown := Statistics(filteredSales);
    }

    /** `loadSalesHistory`: the sales ledger, most recent first. */
    method LoadSalesHistory()
      modifies this
      ensures filteredSales == Reverse(store.salesHistory)
      ensures filteredStock == old(filteredStock) && shown == old(shown)
      ensures currentSaleId == old(currentSaleId)
    {
      filteredSales := Reverse(store.salesHistory);
    }

    /** `loadStockHistory`: the stock ledger, most recent first. */
    method LoadStockHistory()
      modifies this
      ensures filteredStock == Reverse(store.stockHistory)
      ensures filteredSales == old(filteredSales) && shown == old(shown)
      ensures currentSaleId == old(currentSaleId)
    {
      filteredStock := Reverse(store.stockHistory);
    }

    /** `filterByDate` for the days picked in the two date fields (None is an
        empty field) on a clock `off` milliseconds ahead of UTC: with a
        field empty nothing changes; otherwise both views keep exactly the
        entries whose local day lies between the two days, newest first,
        and the panel shows their figures. The window is the local-day one
        the fields describe, not the one the code builds (see
        `Ledger.WindowAsWritten`). */
    method FilterByDate(from: Option<int>, to: Option<int>, off: int) returns (applied: bool)
      requires -DayMs < off < DayMs
      modifies this
      ensures applied <==> from.Some? && to.Some?
      ensures !applied ==> filteredSales == old(filteredSales) && filteredStock == old(filteredStock)
                           && shown == old(shown)
      ensures applied ==>
        var w := LocalWindow(from.value, to.value, off);
        && filteredSales == FilterByWindow(store.salesHistory, SaleStamp, w.0, w.1)
        && filteredStock == FilterByWindow(store.stockHistory, MovementStamp, w.0, w.1)
        && (forall s :: s in filteredSales <==>
              s in store.salesHistory && from.value <= LocalDay(s.timestamp, off) <= to.value)
        && (forall m :: m in filteredStock <==>
              m in store.stockHistory && from.value <= LocalDay(m.timestamp, off) <= to.value)
        && shown == Summarize(filteredSales)
      ensures currentSaleId == old(currentSaleId)
    {
      if from.None? || to.None? {
        return false;
      }
      var w := LocalWindow(from.value, to.value, off);
      filteredSales := FilterByWindow(store.salesHistory, SaleStamp, w.0, w.1);
      filteredStock := FilterByWindow(store.stockHistory, MovementStamp, w.0, w.1);
      UpdateFilteredStatistics();
      applied := true;
    }

    /** `clearDateFilter`: back to the whole ledgers, newest first; the panel
        shows the whole sales ledger's figures, which are also those of the
        view. */
    method ClearDateFilter()
      modifies this
      ensures filteredSales == Reverse(store.salesHistory)
      ensures filteredStock == Reverse(store.stockHistory)
      ensures shown == Summarize(store.salesHistory) && shown == Summarize(filteredSales)
      ensures currentSaleId == old(currentSaleId)
    {
      LoadSalesHistory();
      LoadStockHistory();
      LoadStatistics();
      SummarizeReverse(store.salesHistory);
    }

    /** `clearAllHistory`, `confirmed` standing for the answer to the
        confirmation dialog: once confirmed both ledgers and both views are
        empty and the figures are zero; otherwise nothing changes. */
    method ClearAllHistory(confirmed: bool)
      modifies this, store
      ensures confirmed ==>
        && store.salesHistory == [] && store.stockHistory == []
        && filteredSales == [] && filteredStock == []
        && shown == Stats(0.0, 0.0, 0, 0)
      ensures !confirmed ==>
        && store.salesHistory == old(store.salesHistory)
        && store.stockHistory == old(store.stockHistory)
        && filteredSales == old(filteredSales) && filteredStock == old(filteredStock)
        && shown == old(shown)
      ensures store.products == old(store.products) && store.currentCart == old(store.currentCart)
      ensures currentSaleId == old(currentSaleId)
    {
      if confirmed {
        store.salesHistory := [];
        store.stockHistory := [];
        LoadSalesHistory();
        LoadStockHistory();
        UpdateFilteredStatistics();
      }
    }

    /** `showSaleDetail(saleId)`: the first sale with that id opens the
        detail; an unknown id does nothing. */
    method ShowSaleDetail(saleId: string) returns (sale: Option<Sale>)
      modifies this
      ensures sale == FindSale(store.salesHistory, saleId)
      ensures sale.Some? ==> currentSaleId == Some(saleId)
      ensures sale.None? ==> currentSaleId == old(currentSaleId)
      ensures filteredSales == old(filteredSales) && filteredStock == old(filteredStock)
      ensures shown == old(shown)
    {
      sale := FindSale(store.salesHistory, saleId);
      if sale.Some? {
        currentSaleId := Some(saleId);
      }
    }

    /** `closeSaleDetailModal` */
    method CloseSaleDetailModal()
      modifies this
      ensures currentSaleId == None
      ensures filteredSales == old(filteredSales) && filteredStock == old(filteredStock)
      ensures shown == old(shown)
    {
      currentSaleId := None;
    }
  }
}
