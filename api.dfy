/** The request body built by `createTransaction` in services/api.ts. */
module Api {
  import opened Catalog

  datatype TransactionPayload = TransactionPayload(
    items: seq<CartItem>,
    subtotal: int,
    total: int,
    paymentMethod: string,
    cashReceived: int,
    change: int,
    cashier: User)

  /**
   * The payload sent to POST /transactions: the cart as it is, its sum as both subtotal and
   * total (no discount, no tax), and the change with no sign check.
   */
  function CreateTransaction(cart: seq<CartItem>, cashier: User, cashReceived: int): (p: TransactionPayload)
    ensures p.items == cart && p.cashier == cashier && p.cashReceived == cashReceived
    ensures p.paymentMethod == "Cash"
    ensures p.subtotal == CartTotal(cart) && p.total == p.subtotal
    ensures p.total + p.change == cashReceived
  {
    var subtotal := CartTotal(cart);
    var total := subtotal;
    TransactionPayload(cart, subtotal, total, "Cash", cashReceived, cashReceived - total, cashier)
  }

  /** Nothing here checks the cash: paying less than the cart's sum yields a negative change. */
  lemma UnderpaidChangeIsNegative(cart: seq<CartItem>, cashier: User, cashReceived: int)
    ensures cashReceived < CartTotal(cart) <==> CreateTransaction(cart, cashier, cashReceived).change < 0
  {
  }
}
