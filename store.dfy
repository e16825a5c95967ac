/**
 * The document store and the handlers that read and change it. Each
 * handler call is atomic over the store: the race between the conflict
 * query and the insert is not modelled.
 */
module Store {
  import opened Wrappers
  import opened Records
  import opened Intervals
  import opened Slots
  import opened Composer
  import opened Booking
  import opened Inventory
  import opened Categories

  class Db {
    var services: map<ServiceId, Service>
    /** Orders, clients and cars are keyed by their position: an insert's id is the old length. */
    var orders: seq<Order>
    var clients: seq<Client>
    var cars: seq<Car>
    var inventory: map<ItemId, real>
    var movements: seq<Movement>
    var categories: map<CategoryId, Category>

    constructor (services: map<ServiceId, Service>)
      ensures this.services == services
      ensures orders == [] && clients == [] && cars == []
      ensures inventory == map[] && movements == [] && categories == map[]
    {
      this.services := services;
      orders, clients, cars := [], [], [];
      inventory, movements, categories := map[], [], map[];
    }

    /** The conflict query: the first stored order overlapping [start, end), if any. */
    method FindConflict(start: Minute, end: Minute) returns (r: Option<nat>)
      ensures r == FirstConflict(orders, start, end)
      ensures r.None? <==> !HasConflict(orders, start, end)
    {
      var i := 0;
      while i < |orders|
        invariant 0 <= i <= |orders|
        invariant forall j :: 0 <= j < i ==> !OrderOverlaps(orders[j], start, end)
      {
        if orders[i].start < end && orders[i].end > start {
          return Some(i);
        }
        i := i + 1;
      }
      return None;
    }

    /** The client query by phone number: the first stored client with it, if any. */
    method FindClientByPhone(phone: string) returns (r: Option<nat>)
      ensures r == FirstWithPhone(clients, phone)
    {
      var i := 0;
      while i < |clients|
        invariant 0 <= i <= |clients|
        invariant forall j :: 0 <= j < i ==> clients[j].phone != phone
      {
        if clients[i].phone == phone {
          return Some(i);
        }
        i := i + 1;
      }
      return None;
    }

    /** The available-slots handler: the free start times of `day` for a job of `duration` minutes. */
    method AvailableSlots(day: int, duration: int) returns (slots: seq<int>)
      ensures slots == OfferedSlots(day, duration, BusyOn(orders, day))
    {
      var busy := BusyOn(orders, day);
      slots := [];
      var t: nat := WorkStartHour * 60;
      ghost var all := OfferedSlots(day, duration, busy);
      while HourOf(t) < WorkEndHour
        invariant slots + ScanFrom(day, duration, busy, t) == all
        decreases 1200 - t
      {
        ScanStep(day, duration, busy, t);
        var endTod := TimeOfDay(DayStart(day) + t + duration);
        if EndsAfterClosing(endTod) {
          break;
        }
        var free := CandidateIsFree(day, t, duration, busy);
        if free {
          slots := slots + [t];
        }
        t := t + SlotStep;
      }
      ScanStep(day, duration, busy, t);
    }

    /**
     * The admin order handler: inserts exactly the order `ComposeOrder`
     * describes and returns its id, or returns its error and writes nothing.
     */
    method CreateOrder(req: AdminRequest) returns (r: Result<nat, OrderError>)
      modifies this`orders
      ensures match ComposeOrder(req, services, old(orders), clients)
              case Success(o) => r == Success(|old(orders)|) && orders == old(orders) + [o]
              case Failure(e) => r == Failure(e) && orders == old(orders)
      ensures old(Disjoint(orders)) ==> Disjoint(orders)
    {
      if !Composer.HasRequiredFields(req) {
        return Failure(OrderError.MissingFields);
      }
      var ids := req.serviceIds.value;
      if |Found(ids, services)| != |ids| {
        return Failure(ServicesNotFound);
      }
      FoundAllIff(ids, services);
      var totals := Aggregate(Selected(ids, services));
      if totals.Failure? {
        return Failure(totals.error);
      }
      var (totalPrice, totalDuration) := totals.value;
      if totalDuration <= 0 {
        return Failure(NonPositiveDuration);
      }
      var start := req.startTime.value;
      var end := start + totalDuration;
      var conflict := FindConflict(start, end);
      if conflict.Some? {
        return Failure(OrderError.TimeConflict(ClientName(clients, orders[conflict.value].clientId)));
      }
      var order := Order(req.clientId.value, req.carId.value, ids, start, end, totalPrice as real, Scheduled, None);
      if Disjoint(orders) {
        ComposeOrderKeepsDisjoint(req, services, orders, clients);
      }
      r := Success(|orders|);
      orders := orders + [order];
    }

    /**
     * The public booking handler. With all fields present it resolves the
     * client by phone (inserting one only when none has that phone),
     * always inserts a car for that client, and only then looks up the
     * service; the client and car stay inserted when the service is
     * unknown or the time conflicts.
     */
    method CreatePublicBooking(req: PublicRequest) returns (r: Result<nat, BookingError>)
      modifies this`clients, this`cars, this`orders
      ensures !Booking.HasRequiredFields(req) ==>
                r == Failure(BookingError.MissingFields) &&
                clients == old(clients) && cars == old(cars) && orders == old(orders)
      ensures Booking.HasRequiredFields(req) ==>
                var (clientId, newClients) := ResolveClient(old(clients), req.name, req.phone);
                && clients == newClients
                && cars == old(cars) + [Car(clientId, req.make, req.model, req.plate.GetOr(DefaultPlate))]
                && match PlanBooking(req.serviceId, req.startTime.value, clientId, |old(cars)|, services, old(orders))
                   case Success(o) => r == Success(|old(orders)|) && orders == old(orders) + [o]
                   case Failure(e) => r == Failure(e) && orders == old(orders)
      ensures Booking.HasRequiredFields(req) ==>
                PhoneCount(clients, req.phone) == (if old(PhoneCount(clients, req.phone)) == 0 then 1
                                                   else old(PhoneCount(clients, req.phone)))
      ensures old(Disjoint(orders)) ==> Disjoint(orders)
    {
      if !Booking.HasRequiredFields(req) {
        return Failure(BookingError.MissingFields);
      }
      var found := FindClientByPhone(req.phone);
      var clientId: nat;
      if found.None? {
        clientId := |clients|;
        clients := clients + [Client(req.name, req.phone)];
      } else {
        clientId := found.value;
      }
      var carId := |cars|;
      cars := cars + [Car(clientId, req.make, req.model, req.plate.GetOr(DefaultPlate))];
      if req.serviceId !in services {
        return Failure(ServiceNotFound);
      }
      var service := services[req.serviceId];
      var start := req.startTime.value;
      var end := start + service.duration.GetOr(0);
      var conflict := FindConflict(start, end);
      if conflict.Some? {
        return Failure(BookingError.TimeConflict);
      }
      if Disjoint(orders) {
        PlanBookingKeepsDisjoint(req.serviceId, start, clientId, carId, services, orders);
      }
      r := Success(|orders|);
      orders := orders + [Order(clientId, carId, [req.serviceId], start, end, service.price.GetOr(0.0),
                                PendingConfirmation, None)];
    }

    /** The stock-movement handler: applies `Move` to the inventory and the movement log. */
    method MoveStock(req: MovementRequest) returns (r: Result<(), StockError>)
      modifies this`inventory, this`movements
      ensures match Move(Ledger(old(inventory), old(movements)), req)
              case Success(l) => r == Success(()) && inventory == l.stock && movements == l.log
              case Failure(e) => r == Failure(e) && inventory == old(inventory) && movements == old(movements)
    {
      if !Inventory.HasRequiredFields(req) {
        return Failure(StockError.MissingFields);
      }
      if !IdsWellFormed(req) {
        return Failure(MalformedId);
      }
      if req.itemId !in inventory {
        return Failure(ItemNotFound);
      }
      var onHand := inventory[req.itemId];
      if req.kind == Withdrawal && onHand < req.change {
        return Failure(InsufficientStock(onHand));
      }
      var modifier := if req.kind == Withdrawal then -req.change else req.change;
      inventory := inventory[req.itemId := onHand + modifier];
      movements := movements + [Movement(req.itemId, req.employeeId, OrderRef(req.orderId), modifier, req.kind)];
      r := Success(());
    }

    /**
     * The slug loop: the first of the base slug and the suffixed slugs that
     * no stored category uses; `None` when every one tried is taken.
     */
    method UniqueSlug(base: string, suffixes: seq<string>) returns (r: Option<string>)
      ensures r.Some? ==> !SlugTaken(categories, r.value)
      ensures r.Some? ==> exists i :: 0 <= i <= |suffixes| && r.value == SlugCandidate(base, suffixes, i) &&
                                      forall j :: 0 <= j < i ==> SlugTaken(categories, SlugCandidate(base, suffixes, j))
      ensures r.None? <==> forall i :: 0 <= i <= |suffixes| ==> SlugTaken(categories, SlugCandidate(base, suffixes, i))
    {
      var slug := base;
      var i := 0;
      while exists k :: k in categories && categories[k].slug == slug
        invariant 0 <= i <= |suffixes|
        invariant slug == SlugCandidate(base, suffixes, i)
        invariant forall j :: 0 <= j < i ==> SlugTaken(categories, SlugCandidate(base, suffixes, j))
        decreases |suffixes| - i
      {
        if i == |suffixes| {
          return None;
        }
        i := i + 1;
        slug := base + "-" + suffixes[i - 1];
      }
      return Some(slug);
    }

    /**
     * The create-category handler: refuses a blank name or an empty base
     * slug, then stores the category under the first of the base slug and
     * the suffixed slugs that no other category uses, or refuses when every
     * one of them is taken.
     * `newId` stands for the store's fresh identifier.
     */
    method CreateCategory(name: string, base: string, suffixes: seq<string>, parentId: Option<CategoryId>,
                          newId: CategoryId) returns (r: Result<string, CategoryError>)
      requires newId !in categories
      modifies this`categories
      ensures IsBlank(name) ==> r == Failure(BlankName)
      ensures !IsBlank(name) && base == "" ==> r == Failure(EmptySlug)
      ensures r.Failure? ==> categories == old(categories)
      ensures r.Success? ==> !IsBlank(name) && base != "" && !SlugTaken(old(categories), r.value)
      ensures r.Success? ==> exists i :: 0 <= i <= |suffixes| && r.value == SlugCandidate(base, suffixes, i) &&
                                      forall j :: 0 <= j < i ==> SlugTaken(old(categories), SlugCandidate(base, suffixes, j))
      ensures r == Failure(SlugUnavailable) <==>
                !IsBlank(name) && base != "" &&
                forall i :: 0 <= i <= |suffixes| ==> SlugTaken(old(categories), SlugCandidate(base, suffixes, i))
      ensures r.Success? ==> categories == old(categories)[newId := Category(name, r.value, parentId)]
    {
      if IsBlank(name) {
        return Failure(BlankName);
      }
      if base == "" {
        return Failure(EmptySlug);
      }
      var slug := UniqueSlug(base, suffixes);
      if slug.None? {
        return Failure(SlugUnavailable);
      }
      categories := categories[newId := Category(name, slug.value, parentId)];
      r := Success(slug.value);
    }

    /** The delete-category handler: applies `Delete` to the stored categories. */
    method DeleteCategory(id: CategoryId) returns (r: Result<(), CategoryError>)
      modifies this`categories
      ensures match Delete(services, old(categories), id)
              case Success(c) => r == Success(()) && categories == c
              case Failure(e) => r == Failure(e) && categories == old(categories)
    {
      if exists s :: s in services && services[s].categoryId == id {
        return Failure(HasServices);
      }
      if exists k :: k in categories && categories[k].parentId == Some(id) {
        return Failure(HasChildren);
      }
      if id !in categories {
        return Failure(NotFound);
      }
      categories := categories - {id};
      r := Success(());
    }
  }

  /** The inner scan over the busy intervals: the candidate at minute `t` of `day` overlaps none of them. */
  method CandidateIsFree(day: int, t: int, duration: int, busy: seq<Busy>) returns (free: bool)
    ensures free == IsFree(day, t, duration, busy)
  {
    var slotStart := DayStart(day) + t;
    var slotEnd := slotStart + duration;
    for k := 0 to |busy|
      invariant forall j :: 0 <= j < k ==> !Overlaps(slotStart, slotEnd, busy[j].start, busy[j].end)
    {
      if slotStart < busy[k].end && slotEnd > busy[k].start {
        return false;
      }
    }
    return true;
  }

  /** Two public bookings with one new phone number leave one client with it and two new cars. */
  method TwoBookingsOnePhone(db: Db, first: PublicRequest, second: PublicRequest)
    requires Booking.HasRequiredFields(first) && Booking.HasRequiredFields(second)
    requires first.phone == second.phone && PhoneCount(db.clients, first.phone) == 0
    modifies db
    ensures PhoneCount(db.clients, first.phone) == 1
    ensures |db.clients| == old(|db.clients|) + 1 && |db.cars| == old(|db.cars|) + 2
  {
    var r1 := db.CreatePublicBooking(first);
    var r2 := db.CreatePublicBooking(second);
  }
}
