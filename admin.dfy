/** The catalog page (src/admin.js, class `AdminApp`): the ids of the product
    being edited and of the product awaiting deletion, and the saves and
    deletions that write the catalog and the stock ledger back to the store.
    Every method is proved against the functions of `Catalog`. */
module Admin {
  import opened Records
  import opened Catalog
  import Storage

  class AdminApp {
    /** `currentEditId`: None is `null`. */
    var currentEditId: Option<string>
    /** `currentDeleteId`: None is `null` or not yet set. */
    var currentDeleteId: Option<string>
    const store: Storage.Store

    constructor (store: Storage.Store)
      ensures this.store == store
      ensures currentEditId == None && currentDeleteId == None
    {
      this.store := store;
      currentEditId := None;
      currentDeleteId := None;
    }

    /** `openProductModal(productId)`: remember which product the form edits
        (None opens an empty form for a new product). */
    method OpenProductModal(productId: Option<string>)
      modifies this
      ensures currentEditId == productId && currentDeleteId == old(currentDeleteId)
    {
      currentEditId := productId;
    }

    /** `closeProductModal` */
    method CloseProductModal()
      modifies this
      ensures currentEditId == None && currentDeleteId == old(currentDeleteId)
    {
      currentEditId := None;
    }

    /** `deleteProduct(productId, productName)`: remember the product the
        confirmation dialog is about. */
    method DeleteProduct(productId: string)
      modifies this
      ensures currentDeleteId == Some(productId) && currentEditId == old(currentEditId)
    {
      currentDeleteId := Some(productId);
    }

    /** `closeDeleteModal` */
    method CloseDeleteModal()
      modifies this
      ensures currentDeleteId == None && currentEditId == old(currentEditId)
    {
      currentDeleteId := None;
    }

    /** `addStockHistory`: append one movement whose variation is
        `newStock - oldStock`; nothing else in the store changes. */
    method AddStockHistory(product: Product, oldStock: int, newStock: int, reason: string,
                           id: string, now: int)
      modifies store
      ensures store.stockHistory
           == old(store.stockHistory) + [StockEntry(product, oldStock, newStock, reason, id, now)]
      ensures store.products == old(store.products)
      ensures store.salesHistory == old(store.salesHistory)
      ensures store.currentCart == old(store.currentCart)
    {
      store.stockHistory := store.stockHistory
        + [StockMovement(id, now, product.name, product.barcode, oldStock, newStock,
                         newStock - oldStock, reason)];
    }

    /** `saveProduct` on the values read from the form: a refusal returns the
        reason and changes nothing; a save writes what `Catalog.SaveProduct`
        gives and closes the form. `newId`, `now` and `moveId` stand for the
        ids and the clock the code draws. */
    method SaveProduct(f: ProductForm, newId: string, now: int, moveId: string)
      returns (error: Option<SaveError>)
      modifies this, store
      ensures var r := Catalog.SaveProduct(old(store.products), old(store.stockHistory), f,
                                           old(currentEditId), newId, now, moveId);
        && (r.Rejected? ==>
              && error == Some(r.error)
              && store.products == old(store.products)
              && store.stockHistory == old(store.stockHistory)
              && currentEditId == old(currentEditId))
        && (r.Saved? ==>
              && error == None
              && store.products == r.products
              && store.stockHistory == r.history
              && currentEditId == None)
      ensures currentDeleteId == old(currentDeleteId)
      ensures store.salesHistory == old(store.salesHistory)
      ensures store.currentCart == old(store.currentCart)
    {
      var v := Validate(f);
      if v.Some? {
        return v;
      }
      assert !Violates(f, InvalidCost) && !Violates(f, InvalidPrice);
      var products := store.products;
      if ConflictIndex(products, f.barcode, currentEditId) >= 0 {
        return Some(DuplicateBarcode);
      }
      if EditMode(currentEditId) {
        var k := IdIndex(products, currentEditId.value);
        if k < 0 {
          return Some(EditTargetMissing);
        }
        var oldStock := products[k].stock;
        products := products[k := products[k].(name := f.name, barcode := f.barcode,
                                               cost := f.cost.value, price := f.price.value,
                                               stock := f.stock)];
        if oldStock != f.stock {
          AddStockHistory(products[k], oldStock, f.stock, ReasonManual, moveId, now);
        }
      } else {
        var added := Product(newId, f.name, f.barcode, f.cost.value, f.price.value, f.stock, now);
        products := products + [added];
        if f.stock > 0 {
          AddStockHistory(added, 0, f.stock, ReasonInitial, moveId, now);
        }
      }
      store.products := products;
      CloseProductModal();
      error := None;
    }

    /** `confirmDelete`: remove the product awaiting deletion, if the catalog
        still holds it, log its stock going to 0, and close the dialog in
        every case. */
    method ConfirmDelete(moveId: string, now: int) returns (deleted: bool)
      modifies this, store
      ensures (store.products, store.stockHistory)
           == Catalog.DeleteProduct(old(store.products), old(store.stockHistory),
                                    old(currentDeleteId), moveId, now)
      ensures deleted <==> |store.products| < |old(store.products)|
      ensures currentDeleteId == None && currentEditId == old(currentEditId)
      ensures store.salesHistory == old(store.salesHistory)
      ensures store.currentCart == old(store.currentCart)
    {
      var products := store.products;
      var k := if currentDeleteId.None? then -1 else IdIndex(products, currentDeleteId.value);
      deleted := false;
      if k != -1 {
        var gone := products[k];
        products := products[..k] + products[k + 1..];
        store.products := products;
        AddStockHistory(gone, gone.stock, 0, ReasonDeletion, moveId, now);
        deleted := true;
      }
      CloseDeleteModal();
    }
  }
}
