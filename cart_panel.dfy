/** The cart panel (components/pos/Cart.tsx): sums, per-line amounts and the requests its buttons make. */
module CartPanel {
  import opened Wrappers
  import opened Seqs
  import opened Catalog
  import opened Pos

  /** `subtotal`. */
  function Subtotal(items: seq<CartItem>): int {
    CartTotal(items)
  }

  /** `total`: the subtotal as it is, with no discount or tax. */
  function Total(items: seq<CartItem>): int {
    Subtotal(items)
  }

  /** The amount shown on each line: `item.price * item.quantity`. */
  function LineAmounts(items: seq<CartItem>): seq<int> {
    MapSeq(items, LineAmount)
  }

  function Self(n: int): int {
    n
  }

  /** The amounts shown on the lines add up to the subtotal, and the total shown equals it. */
  lemma {:induction false} LineAmountsSumToSubtotal(items: seq<CartItem>)
    ensures SumOf(LineAmounts(items), Self) == Subtotal(items) == Total(items)
    decreases |items|
  {
    if items != [] {
      var front := items[..|items| - 1];
      assert LineAmounts(items)[..|items| - 1] == LineAmounts(front);
      LineAmountsSumToSubtotal(front);
    }
  }

  /** The minus button: `onUpdate(item.id, item.quantity - 1)`. */
  function MinusRequest(item: CartItem): CartAction {
    UpdateQuantity(LineId(item), item.quantity - 1)
  }

  /** The plus button: `onUpdate(item.id, item.quantity + 1)`. */
  function PlusRequest(item: CartItem): CartAction {
    UpdateQuantity(LineId(item), item.quantity + 1)
  }

  /** The trash button: `onRemove(item.id)`. */
  function RemoveRequest(item: CartItem): CartAction {
    RemoveItem(LineId(item))
  }

  /** The clear and pay buttons are disabled on an empty cart. */
  predicate ButtonsDisabled(items: seq<CartItem>) {
    |items| == 0
  }

  /** On a cart of positive quantities, plus on a line does what adding its product again does. */
  lemma {:induction false} PlusIsAddAgain(cart: seq<CartItem>, k: nat)
    requires DistinctIds(cart) && k < |cart| && cart[k].quantity > 0
    ensures CartReducer(cart, PlusRequest(cart[k])) == CartReducer(cart, AddItem(cart[k].product))
    ensures TotalItemsInCart(CartReducer(cart, PlusRequest(cart[k]))) == TotalItemsInCart(cart) + 1
    ensures CartTotal(CartReducer(cart, PlusRequest(cart[k]))) == CartTotal(cart) + cart[k].product.price
  {
    var id := LineId(cart[k]);
    assert HasLine(cart, id);
    var plus := CartReducer(cart, PlusRequest(cart[k]));
    var add := CartReducer(cart, AddItem(cart[k].product));
    AddedLineAt(cart, cart[k].product, k);
    forall i | 0 <= i < |cart| ensures plus[i] == add[i] {
      if i != k {
        assert LineId(cart[i]) != id by {
          if i < k { assert cart[i].product.id != cart[k].product.id; }
          else { assert cart[k].product.id != cart[i].product.id; }
        }
      }
    }
    assert plus == add;
    AddItemTotals(cart, cart[k].product);
  }

  /** Minus on a line holding one unit removes the line, as the trash button does. */
  lemma MinusOnLastUnitRemoves(cart: seq<CartItem>, k: nat)
    requires k < |cart| && cart[k].quantity == 1
    ensures CartReducer(cart, MinusRequest(cart[k])) == CartReducer(cart, RemoveRequest(cart[k]))
  {
  }

  /** Minus on a line holding more than one unit lowers that line, and the item counter, by one. */
  lemma {:induction false} MinusDecrements(cart: seq<CartItem>, k: nat)
    requires DistinctIds(cart) && k < |cart| && cart[k].quantity > 1
    ensures var r := CartReducer(cart, MinusRequest(cart[k]));
      && |r| == |cart|
      && r[k] == cart[k].(quantity := cart[k].quantity - 1)
      && TotalItemsInCart(r) == TotalItemsInCart(cart) - 1
      && CartTotal(r) == CartTotal(cart) - cart[k].product.price
  {
    var r := CartReducer(cart, MinusRequest(cart[k]));
    forall i | 0 <= i < |cart| && i != k ensures r[i] == cart[i] {
      if i < k { assert cart[i].product.id != cart[k].product.id; }
      else { assert cart[k].product.id != cart[i].product.id; }
    }
    SumOfPointUpdate(cart, r, k, LineQuantity);
    SumOfPointUpdate(cart, r, k, LineAmount);
  }

  /** Pay is enabled exactly when the cashier screen would send the order for a signed-in user. */
  lemma PayEnabledIffCheckoutSends(items: seq<CartItem>, user: User, cash: int, saved: bool)
    ensures !ButtonsDisabled(items) <==> HandleCheckout(Some(user), items, cash, saved).request.Some?
  {
  }
}
