/** The product catalog and its stock ledger as the admin page maintains
    them (src/admin.js): lookup by barcode or id, the validation chain of
    the product form, saving (add or edit), deleting, the ledger entry every
    stock change writes, and the search filter. */
module Catalog {
  import opened Records
  import opened Seqs

  // ----- Lookup -----

  /** Position of the first product with this barcode, or -1. */
  function ProductIndex(products: seq<Product>, barcode: string): (r: int)
    ensures -1 <= r < |products|
    ensures r == -1 <==> forall p :: p in products ==> p.barcode != barcode
    ensures 0 <= r ==> products[r].barcode == barcode
    ensures 0 <= r ==> forall j :: 0 <= j < r ==> products[j].barcode != barcode
  {
    var r := FirstIndex(products, (p: Product) => p.barcode == barcode);
    assert forall p :: p in products ==> exists j :: 0 <= j < |products| && products[j] == p;
    r
  }

  /** Position of the first product with this id, or -1. */
  function IdIndex(products: seq<Product>, id: string): (r: int)
    ensures -1 <= r < |products|
    ensures r == -1 <==> forall p :: p in products ==> p.id != id
    ensures 0 <= r ==> products[r].id == id
    ensures 0 <= r ==> forall j :: 0 <= j < r ==> products[j].id != id
  {
    var r := FirstIndex(products, (p: Product) => p.id == id);
    assert forall p :: p in products ==> exists j :: 0 <= j < |products| && products[j] == p;
    r
  }

  /** `products.find(p => p.barcode === barcode)`. */
  function FindProductByBarcode(products: seq<Product>, barcode: string): (r: Option<Product>)
    ensures r.None? <==> forall p :: p in products ==> p.barcode != barcode
    ensures r.Some? ==> r.value in products && r.value.barcode == barcode
    ensures r.Some? ==> exists k :: 0 <= k < |products| && products[k] == r.value
                          && forall j :: 0 <= j < k ==> products[j].barcode != barcode
  {
    var k := ProductIndex(products, barcode);
    if k < 0 then None else Some(products[k])
  }

  /** Catalog invariants kept by every successful save or delete. */
  predicate BarcodesUnique(products: seq<Product>)
  {
    forall i, j :: 0 <= i < j < |products| ==> products[i].barcode != products[j].barcode
  }

  predicate IdsUnique(products: seq<Product>)
  {
    forall i, j :: 0 <= i < j < |products| ==> products[i].id != products[j].id
  }

  predicate StocksNonNegative(products: seq<Product>)
  {
    forall i :: 0 <= i < |products| ==> products[i].stock >= 0
  }

  // ----- The stock ledger entry -----

  /** The entry `addStockHistory` appends: a snapshot of the product's name
      and barcode, the two stock levels and their difference. */
  function StockEntry(product: Product, oldStock: int, newStock: int, reason: string,
                      id: string, now: int): (m: StockMovement)
    ensures m.oldStock + m.variation == m.newStock
    ensures m.newStock == newStock && m.oldStock == oldStock
    ensures m.productName == product.name && m.barcode == product.barcode
    ensures m.reason == reason && m.id == id && m.timestamp == now
  {
    StockMovement(id, now, product.name, product.barcode, oldStock, newStock,
                  newStock - oldStock, reason)
  }

  // ----- Barcode format -----

  predicate IsDigit(c: char) { '0' <= c <= '9' }

  /** `/^\d*$/`: every character is an ASCII digit. */
  predicate AllDigits(s: string) { forall i :: 0 <= i < |s| ==> IsDigit(s[i]) }

  /** `/^\d+$/`, the rule the save applies. */
  predicate IsBarcode(s: string) { |s| > 0 && AllDigits(s) }

  /** The check made while the barcode field is typed into: the field is
      flagged when it is non-empty and fails `/^\d*$/`. */
  function BarcodeFieldFlagged(value: string): (flagged: bool)
    ensures flagged <==> value != "" && !IsBarcode(value)
  {
    !AllDigits(value) && value != ""
  }

  // ----- The product form and its validation chain -----

  /** The values read from the product form: name and barcode already
      trimmed; cost and price as `parseFloat` gives them (None is NaN);
      stock as `parseInt(...) || 0` gives it. */
  datatype ProductForm = ProductForm(
    name: string,
    barcode: string,
    cost: Option<real>,
    price: Option<real>,
    stock: int)

  /** Why a save was refused, one per message the page shows. */
  datatype SaveError =
    | NameRequired
    | BarcodeRequired
    | BarcodeNotDigits
    | InvalidCost
    | InvalidPrice
    | NegativeStock
    | DuplicateBarcode
    | EditTargetMissing   // edit of an id no longer in the list: the page throws before writing

  /** The field rule each validation error stands for. */
  predicate Violates(f: ProductForm, e: SaveError)
  {
    match e
    case NameRequired => f.name == ""
    case BarcodeRequired => f.barcode == ""
    case BarcodeNotDigits => !IsBarcode(f.barcode)
    case InvalidCost => f.cost.None? || f.cost.value < 0.0
    case InvalidPrice => f.price.None? || f.price.value < 0.0
    case NegativeStock => f.stock < 0
    case DuplicateBarcode => false
    case EditTargetMissing => false
  }

  /** The order in which the rules are checked. */
  function Rank(e: SaveError): nat
  {
    match e
    case NameRequired => 0
    case BarcodeRequired => 1
    case BarcodeNotDigits => 2
    case InvalidCost => 3
    case InvalidPrice => 4
    case NegativeStock => 5
    case DuplicateBarcode => 6
    case EditTargetMissing => 7
  }

  /** The validation chain: the first violated rule, in the fixed order. */
  function Validate(f: ProductForm): (r: Option<SaveError>)
    ensures r.Some? ==> Violates(f, r.value)
    ensures r.None? ==> forall e :: !Violates(f, e)
    ensures r.Some? ==> forall e :: Rank(e) < Rank(r.value) ==> !Violates(f, e)
  {
    if f.name == "" then Some(NameRequired)
    else if f.barcode == "" then Some(BarcodeRequired)
    else if !IsBarcode(f.barcode) then Some(BarcodeNotDigits)
    else if f.cost.None? || f.cost.value < 0.0 then Some(InvalidCost)
    else if f.price.None? || f.price.value < 0.0 then Some(InvalidPrice)
    else if f.stock < 0 then Some(NegativeStock)
    else None
  }

  // ----- Saving a product (add or edit) -----

  /** `if (this.currentEditId)`: a non-empty id selects the edit branch. */
  predicate EditMode(editId: Option<string>)
  {
    editId.Some? && editId.value != ""
  }

  /** `p.barcode === barcode && p.id !== this.currentEditId` */
  predicate ConflictsWith(p: Product, barcode: string, editId: Option<string>)
  {
    p.barcode == barcode && (editId.None? || p.id != editId.value)
  }

  /** Index of the first product the duplicate check stops at, or -1. */
  function ConflictIndex(products: seq<Product>, barcode: string, editId: Option<string>): (r: int)
    ensures -1 <= r < |products|
    ensures r == -1 <==> forall p :: p in products ==> !ConflictsWith(p, barcode, editId)
    ensures 0 <= r ==> ConflictsWith(products[r], barcode, editId)
  {
    var keep := (p: Product) => ConflictsWith(p, barcode, editId);
    var r := FirstIndex(products, keep);
    if r == -1 then
      assert forall p :: p in products ==> !ConflictsWith(p, barcode, editId) by {
        forall p | p in products ensures !ConflictsWith(p, barcode, editId) {
          var j :| 0 <= j < |products| && products[j] == p;
          assert !keep(products[j]);
        }
      }
      r
    else r
  }

  datatype SaveResult =
    | Rejected(error: SaveError)
    | Saved(products: seq<Product>, history: seq<StockMovement>)

  /** `saveProduct`: validate, refuse a barcode another product holds, then
      either replace the edited product's fields in place or append a new
      product, writing the matching stock movement. */
  function SaveProduct(products: seq<Product>, history: seq<StockMovement>, f: ProductForm,
                       editId: Option<string>, newId: string, now: int, moveId: string): (r: SaveResult)
    ensures r.Saved? ==> Validate(f) == None
    ensures r.Saved? ==> |r.products| == |products| || |r.products| == |products| + 1
    ensures r.Saved? ==> |history| <= |r.history| <= |history| + 1 && r.history[..|history|] == history
  {
    var v := Validate(f);
    if v.Some? then Rejected(v.value)
    else
      assert !Violates(f, InvalidCost) && !Violates(f, InvalidPrice);
      var dup := ConflictIndex(products, f.barcode, editId);
      if dup >= 0 then Rejected(DuplicateBarcode)
      else if EditMode(editId) then
        var k := IdIndex(products, editId.value);
        if k < 0 then Rejected(EditTargetMissing)
        else
          var before := products[k];
          var after := before.(name := f.name, barcode := f.barcode, cost := f.cost.value,
                               price := f.price.value, stock := f.stock);
          Saved(products[k := after],
                if before.stock != f.stock
                then history + [StockEntry(after, before.stock, f.stock, ReasonManual, moveId, now)]
                else history)
      else
        var added := Product(newId, f.name, f.barcode, f.cost.value, f.price.value, f.stock, now);
        Saved(products + [added],
              if f.stock > 0
              then history + [StockEntry(added, 0, f.stock, ReasonInitial, moveId, now)]
              else history)
  }

  /** A refusal comes from the validation chain exactly when a field rule is
      violated, and otherwise from the duplicate check exactly when another
      product holds the barcode; an edited product never conflicts with
      itself. */
  lemma SaveRejections(products: seq<Product>, history: seq<StockMovement>, f: ProductForm,
                       editId: Option<string>, newId: string, now: int, moveId: string)
    ensures var r := SaveProduct(products, history, f, editId, newId, now, moveId);
      && (r.Rejected? && Rank(r.error) <= 5 <==> exists e :: Violates(f, e))
      && (r.Rejected? && r.error == DuplicateBarcode <==>
            Validate(f).None? && exists p :: p in products && ConflictsWith(p, f.barcode, editId))
      && (r.Rejected? && r.error == EditTargetMissing <==>
            Validate(f).None? && (forall p :: p in products ==> !ConflictsWith(p, f.barcode, editId))
            && EditMode(editId) && forall p :: p in products ==> p.id != editId.value)
      && (EditMode(editId) ==> forall p :: p in products && p.id == editId.value ==>
                                  !ConflictsWith(p, f.barcode, editId))
  {
  }

  /** Editing: the product with that id is replaced in place by one carrying
      the form's name, barcode, cost, price and stock and its old id and
      creation time; every other product is untouched; one 'Modification
      manuelle' movement is appended exactly when the stock changed. */
  lemma SaveEdit(products: seq<Product>, history: seq<StockMovement>, f: ProductForm,
                 editId: Option<string>, newId: string, now: int, moveId: string)
    requires EditMode(editId)
    requires SaveProduct(products, history, f, editId, newId, now, moveId).Saved?
    ensures var r := SaveProduct(products, history, f, editId, newId, now, moveId);
      var k := IdIndex(products, editId.value);
      && 0 <= k
      && |r.products| == |products|
      && (forall j :: 0 <= j < |products| && j != k ==> r.products[j] == products[j])
      && r.products[k].id == products[k].id && r.products[k].createdAt == products[k].createdAt
      && r.products[k].name == f.name && r.products[k].barcode == f.barcode
      && Some(r.products[k].cost) == f.cost && Some(r.products[k].price) == f.price
      && r.products[k].stock == f.stock
      && (products[k].stock == f.stock ==> r.history == history)
      && (products[k].stock != f.stock ==>
            r.history == history + [StockEntry(r.products[k], products[k].stock, f.stock,
                                               ReasonManual, moveId, now)])
  {
  }

  /** Adding: exactly one product is appended at the end, with the fresh id
      and creation time; a 0 -> stock 'Stock initial' movement is appended
      exactly when the stock is positive. */
  lemma SaveAdd(products: seq<Product>, history: seq<StockMovement>, f: ProductForm,
                editId: Option<string>, newId: string, now: int, moveId: string)
    requires !EditMode(editId)
    requires SaveProduct(products, history, f, editId, newId, now, moveId).Saved?
    ensures var r := SaveProduct(products, history, f, editId, newId, now, moveId);
      && r.products[..|products|] == products
      && r.products == products + [Product(newId, f.name, f.barcode, r.products[|products|].cost,
                                           r.products[|products|].price, f.stock, now)]
      && Some(r.products[|products|].cost) == f.cost && Some(r.products[|products|].price) == f.price
      && (f.stock > 0 ==> r.history == history + [StockEntry(r.products[|products|], 0, f.stock,
                                                              ReasonInitial, moveId, now)])
      && (f.stock <= 0 ==> r.history == history)
  {
  }

  /** A successful save keeps barcodes unique, stocks non-negative, and the
      stock ledger append-only, when the ids are unique, non-empty (as
      generated ids are) and the new id is fresh. */
  lemma {:induction false} SaveKeepsCatalogValid(products: seq<Product>, history: seq<StockMovement>,
                                                 f: ProductForm, editId: Option<string>,
                                                 newId: string, now: int, moveId: string)
    requires BarcodesUnique(products) && IdsUnique(products) && StocksNonNegative(products)
    requires forall p :: p in products ==> p.id != newId && p.id != ""
    requires SaveProduct(products, history, f, editId, newId, now, moveId).Saved?
    ensures var r := SaveProduct(products, history, f, editId, newId, now, moveId);
      && BarcodesUnique(r.products) && StocksNonNegative(r.products)
      && IdsUnique(r.products)
      && |r.history| <= |history| + 1 && r.history[..|history|] == history
  {
    var r := SaveProduct(products, history, f, editId, newId, now, moveId);
    SaveRejections(products, history, f, editId, newId, now, moveId);
    assert Validate(f).None?;
    assert !Violates(f, NegativeStock);
    assert forall p :: p in products ==> !ConflictsWith(p, f.barcode, editId);
    if EditMode(editId) {
      var k := IdIndex(products, editId.value);
      assert r.products == products[k := r.products[k]];
      assert r.products[k].barcode == f.barcode;
      forall i, j | 0 <= i < j < |r.products|
        ensures r.products[i].barcode != r.products[j].barcode
      {
        if i == k {
          assert products[j] in products && products[j].id != editId.value;
        } else if j == k {
          assert products[i] in products && products[i].id != editId.value;
        }
      }
    } else {
      var added := r.products[|products|];
      assert r.products == products + [added];
      assert added.barcode == f.barcode && added.id == newId;
      forall i, j | 0 <= i < j < |r.products|
        ensures r.products[i].barcode != r.products[j].barcode
      {
        if j == |products| {
          assert products[i] in products;
        }
      }
      forall i, j | 0 <= i < j < |r.products| ensures r.products[i].id != r.products[j].id {
        if j == |products| {
          assert products[i] in products;
        }
      }
    }
  }

  // ----- Deleting a product -----

  /** `confirmDelete`: remove the first product with the selected id and
      append a stock -> 0 'Suppression du produit' movement; no selected id,
      or an id not in the list, changes nothing. */
  function DeleteProduct(products: seq<Product>, history: seq<StockMovement>,
                         deleteId: Option<string>, moveId: string, now: int)
    : (r: (seq<Product>, seq<StockMovement>))
    ensures || r == (products, history)
            || (|r.0| == |products| - 1 && |r.1| == |history| + 1 && r.1[..|history|] == history)
  {
    var k := if deleteId.None? then -1 else IdIndex(products, deleteId.value);
    if k < 0 then (products, history)
    else
      (products[..k] + products[k + 1..],
       history + [StockEntry(products[k], products[k].stock, 0, ReasonDeletion, moveId, now)])
  }

  /** Deleting an id no product has changes nothing. */
  lemma DeleteUnknownId(products: seq<Product>, history: seq<StockMovement>,
                        id: string, moveId: string, now: int)
    requires forall p :: p in products ==> p.id != id
    ensures DeleteProduct(products, history, Some(id), moveId, now) == (products, history)
  {
  }

  /** With unique ids, deleting the product at position k splices it out,
      keeps the others in their order, leaves no product with that id, and
      logs its last stock going to 0. */
  lemma DeleteRemovesExactly(products: seq<Product>, history: seq<StockMovement>,
                             k: int, moveId: string, now: int)
    requires IdsUnique(products)
    requires 0 <= k < |products|
    ensures var (ps, hs) := DeleteProduct(products, history, Some(products[k].id), moveId, now);
      && ps == products[..k] + products[k + 1..]
      && (forall p :: p in ps <==> p in products && p.id != products[k].id)
      && hs == history + [StockMovement(moveId, now, products[k].name, products[k].barcode,
                                        products[k].stock, 0, -products[k].stock, ReasonDeletion)]
  {
    assert IdIndex(products, products[k].id) == k;
    SpliceMembers(products, k);
  }

  /** Cutting out the product at k leaves exactly the products with another id. */
  lemma SpliceMembers(products: seq<Product>, k: int)
    requires IdsUnique(products) && 0 <= k < |products|
    ensures forall p :: p in products[..k] + products[k + 1..] <==> p in products && p.id != products[k].id
  {
    var before, after := products[..k], products[k + 1..];
    var ps := before + after;
    forall p | p in products && p.id != products[k].id ensures p in ps {
      var j :| 0 <= j < |products| && products[j] == p;
      if j < k {
        assert before[j] == p;
      } else {
        assert j != k && after[j - k - 1] == p;
      }
    }
    forall p | p in ps ensures p in products && p.id != products[k].id {
      if p in before {
        var j :| 0 <= j < |before| && before[j] == p;
        assert products[j] == p;
      } else {
        var j :| 0 <= j < |after| && after[j] == p;
        assert products[k + 1 + j] == p;
      }
    }
  }

  /** Deleting keeps the catalog invariants and only appends to the ledger. */
  lemma DeleteKeepsCatalogValid(products: seq<Product>, history: seq<StockMovement>,
                                deleteId: Option<string>, moveId: string, now: int)
    requires BarcodesUnique(products) && IdsUnique(products) && StocksNonNegative(products)
    ensures var (ps, hs) := DeleteProduct(products, history, deleteId, moveId, now);
      && BarcodesUnique(ps) && IdsUnique(ps) && StocksNonNegative(ps)
      && |hs| <= |history| + 1 && hs[..|history|] == history
  {
    var (ps, hs) := DeleteProduct(products, history, deleteId, moveId, now);
    var k := if deleteId.None? then -1 else IdIndex(products, deleteId.value);
    if k >= 0 {
      assert forall i :: 0 <= i < |ps| ==> ps[i] == if i < k then products[i] else products[i + 1];
    }
  }

  // ----- Searching the catalog -----

  /** `toLowerCase` on the letters a French catalog uses: ASCII capitals and
      the Latin-1 capitals from U+00C0 to U+00DE (except the sign U+00D7). */
  function LowerChar(c: char): (l: char)
    ensures 'A' <= c <= 'Z' ==> l as int == c as int + 32
    ensures 'À' <= c <= 'Þ' && c != '×' ==> l as int == c as int + 32
    ensures c == '×' ==> l == c
    ensures !('A' <= c <= 'Z') && !('À' <= c <= 'Þ') ==> l == c
  {
    if 'A' <= c <= 'Z' || ('À' <= c <= 'Þ' && c != '×') then (c as int + 32) as char
    else c
  }

  function Lower(s: string): (r: string)
    ensures |r| == |s|
    ensures forall i :: 0 <= i < |s| ==> r[i] == LowerChar(s[i])
  {
    seq(|s|, i requires 0 <= i < |s| => LowerChar(s[i]))
  }

  /** `s.includes(q)`: `q` occurs in `s` as a contiguous block. */
  predicate Contains(s: string, q: string)
    decreases |s|
  {
    q <= s || (|s| > 0 && Contains(s[1..], q))
  }

  /** Every occurrence of `q` at a position of `s` is found. */
  lemma {:induction false} ContainsAt(s: string, q: string, i: int)
    requires 0 <= i && i + |q| <= |s| && s[i..i + |q|] == q
    ensures Contains(s, q)
    decreases i
  {
    if i > 0 {
      assert s[1..][i - 1..i - 1 + |q|] == s[i..i + |q|];
      ContainsAt(s[1..], q, i - 1);
    }
  }

  /** Whatever `Contains` accepts occurs in `s` at some position. */
  lemma {:induction false} ContainsWitness(s: string, q: string) returns (i: int)
    requires Contains(s, q)
    ensures 0 <= i && i + |q| <= |s| && s[i..i + |q|] == q
    decreases |s|
  {
    if q <= s {
      i := 0;
    } else {
      var j := ContainsWitness(s[1..], q);
      assert s[1..][j..j + |q|] == s[j + 1..j + 1 + |q|];
      i := j + 1;
    }
  }

  /** The search predicate of the product list. */
  predicate MatchesQuery(p: Product, query: string)
  {
    Contains(Lower(p.name), Lower(query)) || Contains(p.barcode, query)
  }

  /** `filterProducts`: the products whose name contains the query, ignoring
      case, or whose barcode contains it, in catalog order. */
  function FilterProducts(products: seq<Product>, query: string): (r: seq<Product>)
    ensures forall p :: p in r <==> p in products && MatchesQuery(p, query)
    ensures |r| <= |products|
  {
    Filter(products, (p: Product) => MatchesQuery(p, query))
  }

  /** An empty search shows the whole catalog, in order. */
  lemma EmptyQueryShowsAll(products: seq<Product>)
    ensures FilterProducts(products, "") == products
  {
    FilterAllKept(products, (p: Product) => MatchesQuery(p, ""));
  }

  /** Searching the result of a search again by the same query changes
      nothing. */
  lemma SearchIdempotent(products: seq<Product>, query: string)
    ensures FilterProducts(FilterProducts(products, query), query) == FilterProducts(products, query)
  {
    FilterIdempotent(products, (p: Product) => MatchesQuery(p, query));
  }
}
