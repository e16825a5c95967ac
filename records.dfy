/**
 * The documents of the detailing business's store, as values.
 * Times are whole minutes since the epoch, in UTC; the day with index `d`
 * starts at minute `d * 1440`.
 */
module Records {
  import opened Wrappers

  type Minute = int
  type ServiceId = string
  type ItemId = string
  type CategoryId = string

  /**
   * Order status. The scheduling core writes only `Scheduled`
   * ("Запланирован") and `PendingConfirmation` ("Ожидает подтверждения");
   * the others are set by free-form updates outside the core.
   */
  datatype Status = Scheduled | PendingConfirmation | InProgress | Completed | Cancelled

  /** A service; `price` and `duration` (minutes) may be missing from the document. */
  datatype Service = Service(price: Option<real>, duration: Option<int>, categoryId: CategoryId)

  /** An order (appointment) occupying the half-open interval [start, end). */
  datatype Order = Order(
    clientId: nat,
    carId: nat,
    serviceIds: seq<ServiceId>,
    start: Minute,
    end: Minute,
    totalPrice: real,
    status: Status,
    employeeId: Option<string>)

  datatype Client = Client(fullName: string, phone: string)

  datatype Car = Car(clientId: nat, make: string, model: string, licensePlate: string)

  /** One entry of the stock-movement log; `change` is the signed amount applied. */
  datatype Movement = Movement(
    itemId: ItemId,
    employeeId: string,
    orderId: Option<string>,
    change: real,
    kind: string)

  datatype Category = Category(name: string, slug: string, parentId: Option<CategoryId>)
}
