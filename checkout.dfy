/**
 * The payment dialog (components/pos/CheckoutModal.tsx): the cash typed as text, the change it
 * shows, when it lets the cashier confirm, and the buttons that fill in the cash.
 */
module Checkout {
  import opened Wrappers
  import opened Text
  import opened Catalog
  import Api

  /** `total`: the same sum of price times quantity as the cart panel. */
  function ModalTotal(cart: seq<CartItem>): int {
    CartTotal(cart)
  }

  /** `!isNaN(cash) && cash >= total`, with `cash = parseFloat(cashText)`. */
  predicate CashCovers(cashText: string, total: int) {
    var cash := ParseCash(cashText);
    cash.Some? && cash.value >= total
  }

  /** `change`: what is left of the cash after the total, and 0 while the cash does not cover it. */
  function Change(cashText: string, total: int): (c: int)
    ensures c >= 0
    ensures CashCovers(cashText, total) ==> c + total == ParseCash(cashText).value
    ensures !CashCovers(cashText, total) ==> c == 0
  {
    var cash := ParseCash(cashText);
    if cash.Some? && cash.value >= total then cash.value - total else 0
  }

  /** `handleConfirm`: the amount handed to `onConfirm`, or None when nothing is called. */
  function HandleConfirm(cashText: string, total: int): (r: Option<int>)
    ensures r.Some? <==> CashCovers(cashText, total)
    ensures r.Some? ==> r.value >= total && Some(r.value) == ParseCash(cashText)
  {
    var cash := ParseCash(cashText);
    if cash.Some? && cash.value >= total then Some(cash.value) else None
  }

  /** The confirm button's `disabled`: `parseFloat(cash) < total || isNaN(parseFloat(cash))`. */
  predicate ConfirmDisabled(cashText: string, total: int) {
    var cash := ParseCash(cashText);
    (cash.Some? && cash.value < total) || cash.None?
  }

  /** The change panel is rendered when `parseFloat(cash) >= total` (false for NaN). */
  predicate ShowsChange(cashText: string, total: int) {
    var cash := ParseCash(cashText);
    cash.Some? && cash.value >= total
  }

  /**
   * The three guards of the dialog agree: the button is enabled exactly when a click confirms,
   * and that is exactly when the change panel is shown, with the change it shows.
   */
  lemma GuardsAgree(cashText: string, total: int)
    ensures !ConfirmDisabled(cashText, total) <==> HandleConfirm(cashText, total).Some?
    ensures ShowsChange(cashText, total) <==> HandleConfirm(cashText, total).Some?
    ensures HandleConfirm(cashText, total).Some? ==>
      Change(cashText, total) == HandleConfirm(cashText, total).value - total
  {
  }

  datatype Key = Escape | Enter | Other

  datatype Outcome = Closed | Confirmed(cash: int) | Unchanged

  /** The window's keydown handler: Escape closes, Enter runs `handleConfirm`. */
  function OnKey(key: Key, cashText: string, total: int): (o: Outcome)
    ensures key == Escape ==> o == Closed
    ensures key == Other ==> o == Unchanged
  {
    match key
    case Escape => Closed
    case Enter =>
      (match HandleConfirm(cashText, total)
       case Some(cash) => Confirmed(cash)
       case None => Unchanged)
    case Other => Unchanged
  }

  /** Enter confirms exactly when the confirm button is enabled, with the same amount. */
  lemma EnterMatchesButton(cashText: string, total: int)
    ensures OnKey(Enter, cashText, total).Confirmed? <==> !ConfirmDisabled(cashText, total)
    ensures OnKey(Enter, cashText, total).Confirmed? ==>
      Some(OnKey(Enter, cashText, total).cash) == ParseCash(cashText)
  {
  }

  /** "Uang Pas": the total written out as text, `String(total)`. */
  function ExactCashText(total: int): string {
    IntToString(total)
  }

  /** After "Uang Pas" the dialog confirms with exactly the total and shows no change. */
  lemma {:induction false} ExactCashConfirms(total: int)
    ensures HandleConfirm(ExactCashText(total), total) == Some(total)
    ensures Change(ExactCashText(total), total) == 0
    ensures !ConfirmDisabled(ExactCashText(total), total)
  {
    ParseCashIntToString(total);
  }

  /** `quickDenominations`. */
  const QuickDenominations: seq<int> := [20000, 50000, 100000]

  /** A quick-amount button confirms exactly when its amount covers the total, leaving the difference as change. */
  lemma {:induction false} QuickAmountConfirmsIffCovers(i: nat, total: int)
    requires i < |QuickDenominations|
    ensures var text := IntToString(QuickDenominations[i]);
      && (HandleConfirm(text, total).Some? <==> QuickDenominations[i] >= total)
      && Change(text, total) == (if QuickDenominations[i] >= total then QuickDenominations[i] - total else 0)
  {
    ParseCashIntToString(QuickDenominations[i]);
  }

  /**
   * The order that leaves the dialog: the amount it confirms becomes `cashReceived` of the
   * payload, whose change is then the change the dialog showed, never negative.
   */
  lemma ConfirmedPayloadChange(cart: seq<CartItem>, cashier: User, cashText: string)
    requires HandleConfirm(cashText, ModalTotal(cart)).Some?
    ensures var p := Api.CreateTransaction(cart, cashier, HandleConfirm(cashText, ModalTotal(cart)).value);
      && p.change == Change(cashText, ModalTotal(cart))
      && p.change >= 0
      && p.total == ModalTotal(cart)
  {
  }
}
