/** The records the shop keeps in its key-value store: products, stock
    movements, cart lines and sales. Money is exact (`real`), stock and
    quantities are whole units, timestamps are milliseconds since the epoch. */
module Records {

  datatype Option<+T> = None | Some(value: T)

  /** A catalog entry (an element of the `products` list). */
  datatype Product = Product(
    id: string,
    name: string,
    barcode: string,
    cost: real,
    price: real,
    stock: int,
    createdAt: int)

  /** One entry of the stock ledger (`stockHistory`). Name and barcode are
      copies taken when the entry is written, not references. */
  datatype StockMovement = StockMovement(
    id: string,
    timestamp: int,
    productName: string,
    barcode: string,
    oldStock: int,
    newStock: int,
    variation: int,
    reason: string)

  /** A line of the cart: price, cost and stock are snapshots of the product
      taken when the line was created. */
  datatype CartLine = CartLine(
    barcode: string,
    name: string,
    price: real,
    cost: real,
    quantity: int,
    stock: int)

  /** `{received, change}` for a cash sale, `{}` otherwise. */
  datatype PaymentDetails = CashDetails(received: real, change: real) | NoDetails

  /** One entry of the sales ledger (`salesHistory`). */
  datatype Sale = Sale(
    id: string,
    timestamp: int,
    items: seq<CartLine>,
    total: real,
    benefit: real,
    paymentMethod: string,
    paymentDetails: PaymentDetails)

  // Reasons written into the stock ledger.
  const ReasonSale: string := "Vente"
  const ReasonManual: string := "Modification manuelle"
  const ReasonInitial: string := "Stock initial"
  const ReasonDeletion: string := "Suppression du produit"

  // The payment method whose amount is checked at checkout.
  const MethodCash: string := "cash"
  const MethodCard: string := "card"
  const MethodMobile: string := "mobile"
}
