/**
 * The stock-movement rule: a withdrawal larger than the stock on hand is
 * refused; otherwise the item's quantity changes by a signed amount and one
 * log entry records it. The handler itself is `Store.Db.MoveStock`.
 */
module Inventory {
  import opened Wrappers
  import opened Records

  /** The JSON body; an empty string or a zero change is a missing field. */
  datatype MovementRequest = MovementRequest(
    itemId: ItemId,
    change: real,
    kind: string,
    employeeId: string,
    orderId: Option<string>)

  /** 400, 400, 404 and 409 (with the quantity on hand) respectively. */
  datatype StockError = MissingFields | MalformedId | ItemNotFound | InsufficientStock(onHand: real)

  /** Quantities on hand (a missing `quantity` is 0) and the movement log. */
  datatype Ledger = Ledger(stock: map<ItemId, real>, log: seq<Movement>)

  const Withdrawal := "withdrawal"

  predicate HasRequiredFields(req: MovementRequest) {
    req.itemId != "" && req.change != 0.0 && req.kind != "" && req.employeeId != ""
  }

  predicate IsHexDigit(c: char) {
    '0' <= c <= '9' || 'a' <= c <= 'f' || 'A' <= c <= 'F'
  }

  /** A string the store accepts as an object id: exactly 24 hexadecimal digits. */
  predicate IsObjectId(s: string) {
    |s| == 24 && forall i :: 0 <= i < |s| ==> IsHexDigit(s[i])
  }

  /** The order reference recorded: an absent or empty order id records none. */
  function OrderRef(orderId: Option<string>): Option<string> {
    if orderId.Some? && orderId.value != "" then orderId else None
  }

  /** The item, the employee and a given order reference are all well-formed object ids. */
  predicate IdsWellFormed(req: MovementRequest) {
    IsObjectId(req.itemId) && IsObjectId(req.employeeId) &&
    (OrderRef(req.orderId).Some? ==> IsObjectId(req.orderId.value))
  }

  /** The signed change: negative for a withdrawal, positive for any other type. */
  function Delta(kind: string, change: real): real {
    if kind == Withdrawal then -change else change
  }

  /** The net change the log records for one item. */
  function Net(log: seq<Movement>, item: ItemId): real {
    if log == [] then 0.0
    else Net(log[..|log| - 1], item) + (if log[|log| - 1].itemId == item then log[|log| - 1].change else 0.0)
  }

  /** The ledger after one movement request, or the error the handler returns. */
  function Move(l: Ledger, req: MovementRequest): Result<Ledger, StockError> {
    if !HasRequiredFields(req) then Failure(MissingFields)
    else if !IdsWellFormed(req) then Failure(MalformedId)
    else if req.itemId !in l.stock then Failure(ItemNotFound)
    else if req.kind == Withdrawal && l.stock[req.itemId] < req.change then
      Failure(InsufficientStock(l.stock[req.itemId]))
    else
      var delta := Delta(req.kind, req.change);
      Success(Ledger(
        l.stock[req.itemId := l.stock[req.itemId] + delta],
        l.log + [Movement(req.itemId, req.employeeId, OrderRef(req.orderId), delta, req.kind)]))
  }

  /** Each refusal happens exactly in its case, in the handler's order. */
  lemma MoveRefusals(l: Ledger, req: MovementRequest)
    ensures var r := Move(l, req);
      && (r == Failure(MissingFields) <==> !HasRequiredFields(req))
      && (HasRequiredFields(req) ==> (r == Failure(MalformedId) <==> !IdsWellFormed(req)))
      && (HasRequiredFields(req) && IdsWellFormed(req) ==> (r == Failure(ItemNotFound) <==> req.itemId !in l.stock))
      && (HasRequiredFields(req) && IdsWellFormed(req) && req.itemId in l.stock ==>
            (r.Failure? <==> req.kind == Withdrawal && l.stock[req.itemId] < req.change))
  {
  }

  /**
   * An accepted movement changes the item's quantity by exactly -change
   * for a withdrawal and +change otherwise, leaves every other item alone,
   * and appends exactly one log entry recording that signed change.
   */
  lemma MoveEffect(l: Ledger, req: MovementRequest)
    requires Move(l, req).Success?
    ensures var n := Move(l, req).value;
            var item := req.itemId;
      && n.stock.Keys == l.stock.Keys
      && n.stock[item] == l.stock[item] + (if req.kind == Withdrawal then -req.change else req.change)
      && (forall k :: k in l.stock && k != item ==> n.stock[k] == l.stock[k])
      && |n.log| == |l.log| + 1 && n.log[..|l.log|] == l.log
      && n.log[|l.log|].itemId == item && n.log[|l.log|].change == n.stock[item] - l.stock[item]
      && n.log[|l.log|].orderId == OrderRef(req.orderId)
  {
  }

  /**
   * The ledger balances: for every item, quantity on hand minus the net
   * change logged for it is the same before and after any movement.
   */
  lemma MoveKeepsBalance(l: Ledger, req: MovementRequest)
    requires Move(l, req).Success?
    ensures var n := Move(l, req).value;
            forall k :: k in l.stock ==> n.stock[k] - Net(n.log, k) == l.stock[k] - Net(l.log, k)
  {
  }

  /**
   * An item id that is not an object id is refused as malformed before any
   * lookup, even when a stock entry is filed under that very string.
   */
  lemma MalformedItemIdRejected()
    ensures var l := Ledger(map["i1" := 10.0], []);
            Move(l, MovementRequest("i1", 5.0, "receipt", "bob", None)) == Failure(MalformedId)
  {
  }

  /** An accepted withdrawal never leaves a negative quantity. */
  lemma WithdrawalNeverOverdraws(l: Ledger, req: MovementRequest)
    requires Move(l, req).Success? && req.kind == Withdrawal
    ensures Move(l, req).value.stock[req.itemId] >= 0.0
  {
  }
}
