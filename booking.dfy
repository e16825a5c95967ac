/**
 * The public booking flow's decisions: which client a phone number
 * resolves to, and the order (or error) for one service at one start time.
 * The handler itself is `Store.Db.CreatePublicBooking`.
 */
module Booking {
  import opened Wrappers
  import opened Records
  import opened Intervals

  /** The JSON body; an empty string or `None` is a missing or empty field. */
  datatype PublicRequest = PublicRequest(
    name: string,
    phone: string,
    make: string,
    model: string,
    plate: Option<string>,
    serviceId: ServiceId,
    startTime: Option<Minute>)

  /** 400, 404 and 409 respectively. */
  datatype BookingError = MissingFields | ServiceNotFound | TimeConflict

  /** The licence plate stored when the request gives none. */
  const DefaultPlate := "Не указан"

  predicate HasRequiredFields(req: PublicRequest) {
    req.name != "" && req.phone != "" && req.make != "" && req.model != "" &&
    req.serviceId != "" && req.startTime.Some?
  }

  /** The number of stored clients with this phone number. */
  function PhoneCount(clients: seq<Client>, phone: string): nat {
    if clients == [] then 0
    else PhoneCount(clients[..|clients| - 1], phone) + (if clients[|clients| - 1].phone == phone then 1 else 0)
  }

  /** The first stored client, in store order, with this phone number. */
  function FirstWithPhone(clients: seq<Client>, phone: string): (r: Option<nat>)
    ensures r.None? <==> forall i :: 0 <= i < |clients| ==> clients[i].phone != phone
    ensures r.Some? ==> r.value < |clients| && clients[r.value].phone == phone
    ensures r.Some? ==> forall j :: 0 <= j < r.value ==> clients[j].phone != phone
  {
    if clients == [] then None
    else if clients[0].phone == phone then Some(0)
    else
      var rest := FirstWithPhone(clients[1..], phone);
      assert forall i :: 1 <= i < |clients| ==> clients[i] == clients[1..][i - 1];
      if rest.None? then None else Some(rest.value + 1)
  }

  lemma {:induction false} PhoneCountZeroIff(clients: seq<Client>, phone: string)
    ensures PhoneCount(clients, phone) == 0 <==> forall i :: 0 <= i < |clients| ==> clients[i].phone != phone
  {
    if clients != [] {
      var init := clients[..|clients| - 1];
      PhoneCountZeroIff(init, phone);
      assert forall i :: 0 <= i < |init| ==> init[i] == clients[i];
    }
  }

  /**
   * The client a booking attaches to and the client table afterwards: the
   * first client with the phone number, or a new client appended.
   */
  function ResolveClient(clients: seq<Client>, name: string, phone: string): (r: (nat, seq<Client>))
    ensures r.0 < |r.1| && r.1[r.0].phone == phone
    ensures r.1 == clients || r.1 == clients + [Client(name, phone)]
    ensures r.1 == clients <==> PhoneCount(clients, phone) > 0
    ensures r.1 == clients ==> FirstWithPhone(clients, phone) == Some(r.0)
    ensures PhoneCount(r.1, phone) == if PhoneCount(clients, phone) == 0 then 1 else PhoneCount(clients, phone)
  {
    PhoneCountZeroIff(clients, phone);
    match FirstWithPhone(clients, phone)
    case Some(i) => (i, clients)
    case None =>
      var grown := clients + [Client(name, phone)];
      assert grown[..|grown| - 1] == clients;
      (|clients|, grown)
  }

  /** Two bookings with one phone number leave exactly one client with it, when there was at most one. */
  lemma RepeatedBookingsOneClient(clients: seq<Client>, name1: string, name2: string, phone: string)
    requires PhoneCount(clients, phone) <= 1
    ensures var first := ResolveClient(clients, name1, phone);
            var second := ResolveClient(first.1, name2, phone);
            PhoneCount(second.1, phone) == 1 && first.0 == second.0
  {
  }

  /** The order a public booking inserts once client and car exist, or the error it returns. */
  function PlanBooking(serviceId: ServiceId, start: Minute, clientId: nat, carId: nat,
                       services: map<ServiceId, Service>, orders: seq<Order>): Result<Order, BookingError>
  {
    if serviceId !in services then Failure(ServiceNotFound)
    else
      var service := services[serviceId];
      var end := start + service.duration.GetOr(0);
      if FirstConflict(orders, start, end).Some? then Failure(TimeConflict)
      else Success(Order(clientId, carId, [serviceId], start, end, service.price.GetOr(0.0),
                         PendingConfirmation, None))
  }

  /**
   * A public booking is refused with 404 iff the service is unknown, and
   * with 409 iff some stored order overlaps [start, start + duration);
   * otherwise it is a single-service order awaiting confirmation, with no
   * employee, whose length is the service's duration (0 when missing, with
   * no positivity check).
   */
  lemma PlanBookingOutcome(serviceId: ServiceId, start: Minute, clientId: nat, carId: nat,
                           services: map<ServiceId, Service>, orders: seq<Order>)
    ensures var r := PlanBooking(serviceId, start, clientId, carId, services, orders);
      && (r == Failure(ServiceNotFound) <==> serviceId !in services)
      && (serviceId in services ==>
            var end := start + services[serviceId].duration.GetOr(0);
            && (r == Failure(TimeConflict) <==> HasConflict(orders, start, end))
            && (!HasConflict(orders, start, end) ==> r.Success?)
            && (r.Success? ==>
                  && r.value.start == start && r.value.end == end
                  && r.value.clientId == clientId && r.value.carId == carId
                  && r.value.serviceIds == [serviceId]
                  && r.value.totalPrice == services[serviceId].price.GetOr(0.0)
                  && r.value.status == PendingConfirmation && r.value.employeeId == None))
  {
  }

  /** A public insert keeps the stored orders pairwise non-overlapping. */
  lemma PlanBookingKeepsDisjoint(serviceId: ServiceId, start: Minute, clientId: nat, carId: nat,
                                 services: map<ServiceId, Service>, orders: seq<Order>)
    requires Disjoint(orders)
    requires PlanBooking(serviceId, start, clientId, carId, services, orders).Success?
    ensures Disjoint(orders + [PlanBooking(serviceId, start, clientId, carId, services, orders).value])
  {
  }

  /** A service without a duration books an empty interval [start, start). */
  lemma MissingDurationBooksEmptyInterval(start: Minute)
    ensures var services := map["s" := Service(Some(100.0), None, "c")];
            var r := PlanBooking("s", start, 0, 0, services, []);
            r.Success? && r.value.end == r.value.start
  {
  }
}
