/** The entities the front end exchanges with the server (types.ts) and the cart sums. */
module Catalog {
  import opened Seqs

  /** Database identifiers; only equality and freshness matter to the model. */
  type Id = nat

  datatype Role = Admin | Cashier

  datatype User = User(id: Id, username: string, role: Role)

  datatype Category = Category(id: Id, name: string)

  /** Prices and stock are whole rupiah and whole units. */
  datatype Product = Product(id: Id, name: string, price: int, stock: int, category: Category, imageUrl: string)

  /** A cart line: the product as it was when it was added, and how many of it are bought. */
  datatype CartItem = CartItem(product: Product, quantity: int)

  function LineId(item: CartItem): Id {
    item.product.id
  }

  function LineQuantity(item: CartItem): int {
    item.quantity
  }

  /** `item.price * item.quantity`. */
  function LineAmount(item: CartItem): int {
    item.product.price * item.quantity
  }

  /** `items.reduce((sum, item) => sum + item.price * item.quantity, 0)`. */
  function CartTotal(items: seq<CartItem>): int {
    SumOf(items, LineAmount)
  }

  /** `items.reduce((total, item) => total + item.quantity, 0)`. */
  function TotalQuantity(items: seq<CartItem>): int {
    SumOf(items, LineQuantity)
  }

  function Ids(items: seq<CartItem>): seq<Id> {
    MapSeq(items, LineId)
  }

  /** No two lines are for the same product. */
  ghost predicate DistinctIds(items: seq<CartItem>) {
    forall i, j :: 0 <= i < j < |items| ==> items[i].product.id != items[j].product.id
  }
}
