/**
 * The cashier screen (components/pos/POS.tsx): the cart reducer, the item counter,
 * the product search and the checkout hand-off.
 */
module Pos {
  import opened Wrappers
  import opened Seqs
  import opened Text
  import opened Catalog
  import Api

  datatype CartAction =
    | AddItem(product: Product)
    | RemoveItem(id: Id)
    | UpdateQuantity(id: Id, quantity: int)
    | Clear

  /** `state.find(item => item.id === id)` finds a line. */
  predicate HasLine(state: seq<CartItem>, id: Id) {
    exists i :: 0 <= i < |state| && LineId(state[i]) == id
  }

  /** `state.map(item => item.id === id ? change(item) : item)`. */
  function UpdateLines(state: seq<CartItem>, id: Id, change: CartItem -> CartItem): (r: seq<CartItem>)
    ensures |r| == |state|
    ensures forall i :: 0 <= i < |state| ==> r[i] == if LineId(state[i]) == id then change(state[i]) else state[i]
  {
    seq(|state|, i requires 0 <= i < |state| => if LineId(state[i]) == id then change(state[i]) else state[i])
  }

  /** `state.filter(item => item.id !== id)`. */
  function WithoutLine(state: seq<CartItem>, id: Id): seq<CartItem> {
    Filter(state, (item: CartItem) => LineId(item) != id)
  }

  /** `cartReducer`: the next cart for each of the four actions. */
  function CartReducer(state: seq<CartItem>, action: CartAction): seq<CartItem> {
    match action
    case AddItem(p) =>
      if HasLine(state, p.id) then UpdateLines(state, p.id, (item: CartItem) => item.(quantity := item.quantity + 1))
      else state + [CartItem(p, 1)]
    case RemoveItem(id) => WithoutLine(state, id)
    case UpdateQuantity(id, q) =>
      if q <= 0 then WithoutLine(state, id)
      else UpdateLines(state, id, (item: CartItem) => item.(quantity := q))
    case Clear => []
  }

  /** Adding a product already in the cart adds exactly one to that line; the lines and their order stay. */
  lemma AddExistingIncrements(state: seq<CartItem>, p: Product)
    requires HasLine(state, p.id)
    ensures var r := CartReducer(state, AddItem(p));
      && |r| == |state|
      && forall i :: 0 <= i < |state| ==>
           && r[i].product == state[i].product
           && r[i].quantity == if LineId(state[i]) == p.id then state[i].quantity + 1 else state[i].quantity
  {
  }

  /** Adding a product not yet in the cart appends one line with quantity 1. */
  lemma AddNewAppends(state: seq<CartItem>, p: Product)
    requires !HasLine(state, p.id)
    ensures CartReducer(state, AddItem(p)) == state + [CartItem(p, 1)]
  {
  }

  /** Every action keeps the line ids pairwise distinct. */
  lemma {:induction false} ReducerKeepsIdsDistinct(state: seq<CartItem>, action: CartAction)
    requires DistinctIds(state)
    ensures DistinctIds(CartReducer(state, action))
  {
    var r := CartReducer(state, action);
    match action
    case AddItem(p) =>
      if !HasLine(state, p.id) {
        forall i, j | 0 <= i < j < |r| ensures LineId(r[i]) != LineId(r[j]) {
          if j == |state| {
            assert LineId(r[i]) == LineId(state[i]);
          } else {
            assert r[i] == state[i] && r[j] == state[j];
          }
        }
      } else {
        forall i, j | 0 <= i < j < |r| ensures LineId(r[i]) != LineId(r[j]) {
          assert LineId(r[i]) == LineId(state[i]) && LineId(r[j]) == LineId(state[j]);
        }
      }
    case RemoveItem(id) =>
      WithoutLineKeepsDistinct(state, id);
    case UpdateQuantity(id, q) =>
      if q <= 0 {
        WithoutLineKeepsDistinct(state, id);
      } else {
        forall i, j | 0 <= i < j < |r| ensures LineId(r[i]) != LineId(r[j]) {
          assert LineId(r[i]) == LineId(state[i]) && LineId(r[j]) == LineId(state[j]);
        }
      }
    case Clear =>
  }

  lemma WithoutLineKeepsDistinct(state: seq<CartItem>, id: Id)
    requires DistinctIds(state)
    ensures DistinctIds(WithoutLine(state, id))
  {
    assert DistinctBy(state, LineId);
    FilterKeepsDistinct(state, (item: CartItem) => LineId(item) != id, LineId);
    var r := WithoutLine(state, id);
    assert DistinctBy(r, LineId);
    forall i, j | 0 <= i < j < |r| ensures r[i].product.id != r[j].product.id {
      assert LineId(r[i]) != LineId(r[j]);
    }
  }

  /** A quantity of zero or less removes the line, exactly as REMOVE_ITEM does. */
  lemma UpdateNonPositiveIsRemove(state: seq<CartItem>, id: Id, q: int)
    requires q <= 0
    ensures CartReducer(state, UpdateQuantity(id, q)) == CartReducer(state, RemoveItem(id))
  {
  }

  /** A positive quantity replaces the quantity of the matching line only. */
  lemma UpdatePositiveSetsQuantity(state: seq<CartItem>, id: Id, q: int)
    requires q > 0
    ensures var r := CartReducer(state, UpdateQuantity(id, q));
      && |r| == |state|
      && forall i :: 0 <= i < |state| ==>
           && r[i].product == state[i].product
           && r[i].quantity == if LineId(state[i]) == id then q else state[i].quantity
  {
  }

  /** Removing or updating an id that has no line leaves the cart as it was. */
  lemma {:induction false} UnknownIdLeavesCart(state: seq<CartItem>, id: Id, q: int)
    requires !HasLine(state, id)
    ensures CartReducer(state, RemoveItem(id)) == state
    ensures CartReducer(state, UpdateQuantity(id, q)) == state
  {
    FilterAllKept(state, (item: CartItem) => LineId(item) != id);
    if q > 0 {
      var r := CartReducer(state, UpdateQuantity(id, q));
      assert forall i :: 0 <= i < |state| ==> r[i] == state[i];
    }
  }

  ghost predicate AllQuantitiesPositive(state: seq<CartItem>) {
    forall i :: 0 <= i < |state| ==> state[i].quantity >= 1
  }

  /** If every quantity is at least 1 before an action, every quantity is at least 1 after it. */
  lemma {:induction false} ReducerKeepsQuantitiesPositive(state: seq<CartItem>, action: CartAction)
    requires AllQuantitiesPositive(state)
    ensures AllQuantitiesPositive(CartReducer(state, action))
  {
    var r := CartReducer(state, action);
    if action.RemoveItem? || (action.UpdateQuantity? && action.quantity <= 0) {
      forall i | 0 <= i < |r| ensures r[i].quantity >= 1 {
        assert r[i] in state;
        var j :| 0 <= j < |state| && state[j] == r[i];
      }
    }
  }

  /**
   * Lines keep their order: adding a new product appends its id, ADD_ITEM on a present id and a
   * positive UPDATE_QUANTITY keep the ids as they were, and the other actions only drop lines.
   */
  lemma {:induction false} ReducerKeepsOrder(state: seq<CartItem>, action: CartAction)
    ensures var r := CartReducer(state, action);
      if action.AddItem? && !HasLine(state, action.product.id) then Ids(r) == Ids(state) + [action.product.id]
      else if action.AddItem? || (action.UpdateQuantity? && action.quantity > 0) then Ids(r) == Ids(state)
      else IsSubsequence(Ids(r), Ids(state))
  {
    var r := CartReducer(state, action);
    match action
    case AddItem(p) =>
      if !HasLine(state, p.id) {
        assert Ids(r) == Ids(state) + [p.id];
      } else {
        assert Ids(r) == Ids(state);
      }
    case RemoveItem(id) =>
      SubsequenceMap(r, state, LineId);
    case UpdateQuantity(id, q) =>
      if q <= 0 {
        SubsequenceMap(r, state, LineId);
      } else {
        assert Ids(r) == Ids(state);
      }
    case Clear =>
  }

  /** CLEAR empties the cart. */
  lemma ClearEmpties(state: seq<CartItem>)
    ensures CartReducer(state, Clear) == []
    ensures TotalQuantity(CartReducer(state, Clear)) == 0
  {
  }

  /** `totalItemsInCart`. */
  function TotalItemsInCart(cart: seq<CartItem>): int {
    TotalQuantity(cart)
  }

  lemma {:induction false} AddedLineAt(state: seq<CartItem>, p: Product, k: nat)
    requires DistinctIds(state) && k < |state| && LineId(state[k]) == p.id
    ensures var r := CartReducer(state, AddItem(p));
      && |r| == |state|
      && r[k] == state[k].(quantity := state[k].quantity + 1)
      && forall i :: 0 <= i < |state| && i != k ==> r[i] == state[i]
  {
    var r := CartReducer(state, AddItem(p));
    forall i | 0 <= i < |state| && i != k ensures r[i] == state[i] {
      if i < k { assert LineId(state[i]) != LineId(state[k]); }
      else { assert LineId(state[k]) != LineId(state[i]); }
    }
  }

  /**
   * ADD_ITEM raises the item counter by exactly one, and the cart total by the price of the
   * product as the cart holds it (the price captured when the line was first added).
   */
  lemma {:induction false} AddItemTotals(state: seq<CartItem>, p: Product)
    requires DistinctIds(state)
    ensures TotalItemsInCart(CartReducer(state, AddItem(p))) == TotalItemsInCart(state) + 1
    ensures !HasLine(state, p.id) ==> CartTotal(CartReducer(state, AddItem(p))) == CartTotal(state) + p.price
    ensures forall k :: 0 <= k < |state| && LineId(state[k]) == p.id ==>
              CartTotal(CartReducer(state, AddItem(p))) == CartTotal(state) + state[k].product.price
  {
    var r := CartReducer(state, AddItem(p));
    if HasLine(state, p.id) {
      var k :| 0 <= k < |state| && LineId(state[k]) == p.id;
      AddedLineAt(state, p, k);
      SumOfPointUpdate(state, r, k, LineQuantity);
      SumOfPointUpdate(state, r, k, LineAmount);
    } else {
      assert r[..|r| - 1] == state;
    }
  }

  lemma {:induction false} WithoutLineAt(state: seq<CartItem>, k: nat)
    requires DistinctIds(state) && k < |state|
    ensures WithoutLine(state, LineId(state[k])) == state[..k] + state[k + 1..]
  {
    var id := LineId(state[k]);
    forall i | 0 <= i < |state| && i != k ensures LineId(state[i]) != id {
      if i < k { assert LineId(state[i]) != LineId(state[k]); }
      else { assert LineId(state[k]) != LineId(state[i]); }
    }
    FilterDropsOne(state, k, (item: CartItem) => LineId(item) != id);
  }

  /** REMOVE_ITEM lowers the item counter and the total by exactly what the removed line held. */
  lemma {:induction false} RemoveItemTotals(state: seq<CartItem>, k: nat)
    requires DistinctIds(state) && k < |state|
    ensures var r := CartReducer(state, RemoveItem(LineId(state[k])));
      && TotalItemsInCart(r) == TotalItemsInCart(state) - state[k].quantity
      && CartTotal(r) == CartTotal(state) - LineAmount(state[k])
  {
    WithoutLineAt(state, k);
    assert state == state[..k] + [state[k]] + state[k + 1..];
    SumOfAppend(state[..k] + [state[k]], state[k + 1..], LineQuantity);
    SumOfAppend(state[..k], [state[k]], LineQuantity);
    SumOfAppend(state[..k], state[k + 1..], LineQuantity);
    SumOfAppend(state[..k] + [state[k]], state[k + 1..], LineAmount);
    SumOfAppend(state[..k], [state[k]], LineAmount);
    SumOfAppend(state[..k], state[k + 1..], LineAmount);
  }

  /** A product passes the search when its category is the chosen one (or 'all') and its name contains the query, ignoring case. */
  predicate MatchesSearch(p: Product, query: string, category: string) {
    (category == "all" || p.category.name == category) && Includes(ToLower(p.name), ToLower(query))
  }

  /** `handleSearch`: the category filter, then the name filter when the query is not empty. */
  function SearchProducts(products: seq<Product>, query: string, category: string): (r: seq<Product>)
    ensures IsSubsequence(r, products)
    ensures forall i :: 0 <= i < |r| ==> MatchesSearch(r[i], query, category)
    ensures forall i :: 0 <= i < |products| && MatchesSearch(products[i], query, category) ==> products[i] in r
    ensures r == Filter(products, (p: Product) => MatchesSearch(p, query, category))
  {
    var byCategory := if category != "all" then Filter(products, (p: Product) => p.category.name == category) else products;
    var result := if query != "" then Filter(byCategory, (p: Product) => Includes(ToLower(p.name), ToLower(query))) else byCategory;
    SubsequenceRefl(products);
    SubsequenceRefl(byCategory);
    SubsequenceMembers(byCategory, products);
    SubsequenceTrans(result, byCategory, products);
    assert query == "" ==> ToLower(query) == "";
    var byName := (p: Product) => Includes(ToLower(p.name), ToLower(query));
    var both := (p: Product) => MatchesSearch(p, query, category);
    if category != "all" && query != "" then
      FilterTwice(products, (p: Product) => p.category.name == category, byName, both);
      result
    else if category != "all" then
      FilterSameTest(products, (p: Product) => p.category.name == category, both);
      result
    else if query != "" then
      FilterSameTest(products, byName, both);
      result
    else
      FilterAllKept(products, both);
      result
  }

  /**
   * `handleCheckout`: nothing is sent without a signed-in user or with an empty cart; otherwise the
   * payload of services/api.ts is sent and, once the server has answered, the cart is cleared.
   */
  datatype CheckoutStep = CheckoutStep(request: Option<Api.TransactionPayload>, cartAfter: seq<CartItem>)

  function HandleCheckout(user: Option<User>, cart: seq<CartItem>, cashReceived: int, saved: bool): (step: CheckoutStep)
    ensures step.request.None? <==> user.None? || cart == []
    ensures step.request.Some? ==> step.request.value == Api.CreateTransaction(cart, user.value, cashReceived)
    ensures step.cartAfter == [] || step.cartAfter == cart
    ensures step.cartAfter == [] <==> cart == [] || (step.request.Some? && saved)
  {
    if user.None? || |cart| == 0 then CheckoutStep(None, cart)
    else
      var request := Api.CreateTransaction(cart, user.value, cashReceived);
      CheckoutStep(Some(request), if saved then CartReducer(cart, Clear) else cart)
  }
}
