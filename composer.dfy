/**
 * The admin order composer: required fields, service resolution, price and
 * duration aggregation, end time, conflict check. `ComposeOrder` is the
 * decision the handler takes over a snapshot of the store; the handler
 * itself is `Store.Db.CreateOrder`.
 */
module Composer {
  import opened Wrappers
  import opened Records
  import opened Intervals

  /** The JSON body; a `None` field is a key missing from the body. */
  datatype AdminRequest = AdminRequest(
    clientId: Option<nat>,
    carId: Option<nat>,
    serviceIds: Option<seq<ServiceId>>,
    startTime: Option<Minute>)

  /** 400 for the first four, 409 for `TimeConflict`; `None` stands for the generic "another client" label. */
  datatype OrderError =
    | MissingFields
    | ServicesNotFound
    | ServiceIncomplete
    | NonPositiveDuration
    | TimeConflict(clientName: Option<string>)

  predicate HasRequiredFields(req: AdminRequest) {
    req.clientId.Some? && req.carId.Some? && req.serviceIds.Some? && req.startTime.Some?
  }

  /** Python's `int()` of a float: truncation toward zero. */
  function Trunc(x: real): (r: int)
    ensures x >= 0.0 ==> r as real <= x < r as real + 1.0
    ensures x < 0.0 ==> r as real - 1.0 < x <= r as real
  {
    if x >= 0.0 then x.Floor else -((-x).Floor)
  }

  predicate Distinct(ids: seq<ServiceId>) {
    forall i, j :: 0 <= i < j < |ids| ==> ids[i] != ids[j]
  }

  predicate AllKnown(ids: seq<ServiceId>, services: map<ServiceId, Service>) {
    forall i :: 0 <= i < |ids| ==> ids[i] in services
  }

  function Elems(ids: seq<ServiceId>): set<ServiceId> {
    set id | id in ids
  }

  /** The ids that the query `{'_id': {'$in': ids}}` finds: each stored service at most once. */
  function Found(ids: seq<ServiceId>, services: map<ServiceId, Service>): set<ServiceId> {
    set id | id in ids && id in services
  }

  lemma {:induction false} ElemsCard(ids: seq<ServiceId>)
    ensures |Elems(ids)| <= |ids|
    ensures |Elems(ids)| == |ids| <==> Distinct(ids)
  {
    if ids != [] {
      var rest := ids[1..];
      ElemsCard(rest);
      assert Elems(ids) == {ids[0]} + Elems(rest);
      if ids[0] in Elems(rest) {
        assert Elems(ids) == Elems(rest);
        var k :| 0 <= k < |rest| && rest[k] == ids[0];
        assert ids[0] == ids[k + 1];
      } else {
        assert |Elems(ids)| == |Elems(rest)| + 1;
        if Distinct(rest) {
          forall i, j | 0 <= i < j < |ids| ensures ids[i] != ids[j] {
            if i > 0 { assert ids[i] == rest[i - 1] && ids[j] == rest[j - 1]; }
            else { assert ids[j] == rest[j - 1]; }
          }
        }
        if Distinct(ids) {
          forall i, j | 0 <= i < j < |rest| ensures rest[i] != rest[j] {
            assert rest[i] == ids[i + 1] && rest[j] == ids[j + 1];
          }
        }
      }
    }
  }

  lemma SubsetCard(a: set<ServiceId>, b: set<ServiceId>)
    requires a <= b
    ensures |a| <= |b|
  {
    assert b == a + (b - a);
  }

  /**
   * The number of services found equals the number of ids iff the ids are
   * pairwise distinct and all stored: a duplicate id is rejected like an
   * unknown one.
   */
  lemma FoundAllIff(ids: seq<ServiceId>, services: map<ServiceId, Service>)
    ensures |Found(ids, services)| == |ids| <==> Distinct(ids) && AllKnown(ids, services)
  {
    ElemsCard(ids);
    SubsetCard(Found(ids, services), Elems(ids));
    if AllKnown(ids, services) {
      assert Found(ids, services) == Elems(ids);
    } else {
      var k :| 0 <= k < |ids| && ids[k] !in services;
      SubsetCard(Found(ids, services), Elems(ids) - {ids[k]});
      assert |Elems(ids) - {ids[k]}| == |Elems(ids)| - 1;
    }
  }

  function Selected(ids: seq<ServiceId>, services: map<ServiceId, Service>): (s: seq<Service>)
    requires AllKnown(ids, services)
    ensures |s| == |ids| && forall i :: 0 <= i < |ids| ==> s[i] == services[ids[i]]
  {
    seq(|ids|, i requires 0 <= i < |ids| => services[ids[i]])
  }

  /** Every selected service has both a `price` and a `duration`. */
  predicate AllComplete(svcs: seq<Service>) {
    forall i :: 0 <= i < |svcs| ==> svcs[i].price.Some? && svcs[i].duration.Some?
  }

  /** The sum of the integer-truncated prices. */
  function PriceSum(svcs: seq<Service>): int
    requires AllComplete(svcs)
  {
    if svcs == [] then 0
    else
      var init := svcs[..|svcs| - 1];
      assert AllComplete(init) by {
        forall i | 0 <= i < |init| ensures init[i] == svcs[i] { }
      }
      PriceSum(init) + Trunc(svcs[|svcs| - 1].price.value)
  }

  /** The sum of the durations, in minutes. */
  function DurationSum(svcs: seq<Service>): int
    requires AllComplete(svcs)
  {
    if svcs == [] then 0
    else
      var init := svcs[..|svcs| - 1];
      assert AllComplete(init) by {
        forall i | 0 <= i < |init| ensures init[i] == svcs[i] { }
      }
      DurationSum(init) + svcs[|svcs| - 1].duration.value
  }

  /**
   * The aggregation loop: returns the sums, or `ServiceIncomplete` at the
   * first service missing a price or a duration.
   */
  method Aggregate(selected: seq<Service>) returns (r: Result<(int, int), OrderError>)
    ensures r.Success? <==> AllComplete(selected)
    ensures r.Success? ==> r.value == (PriceSum(selected), DurationSum(selected))
    ensures r.Failure? ==> r.error == ServiceIncomplete
  {
    var totalPrice, totalDuration := 0, 0;
    for i := 0 to |selected|
      invariant AllComplete(selected[..i])
      invariant totalPrice == PriceSum(selected[..i])
      invariant totalDuration == DurationSum(selected[..i])
    {
      var service := selected[i];
      if service.price.None? || service.duration.None? {
        return Failure(ServiceIncomplete);
      }
      assert selected[..i + 1][..i] == selected[..i];
      totalPrice := totalPrice + Trunc(service.price.value);
      totalDuration := totalDuration + service.duration.value;
    }
    assert selected[..|selected|] == selected;
    r := Success((totalPrice, totalDuration));
  }

  /** The display name of a client id, if that client is stored. */
  function ClientName(clients: seq<Client>, id: nat): Option<string> {
    if id < |clients| then Some(clients[id].fullName) else None
  }

  /** The order the admin handler inserts, or the error it returns, given the store's contents. */
  function ComposeOrder(req: AdminRequest, services: map<ServiceId, Service>, orders: seq<Order>, clients: seq<Client>)
    : Result<Order, OrderError>
  {
    if !HasRequiredFields(req) then Failure(MissingFields)
    else
      var ids := req.serviceIds.value;
      if |Found(ids, services)| != |ids| then Failure(ServicesNotFound)
      else
        FoundAllIff(ids, services);
        var selected := Selected(ids, services);
        if !AllComplete(selected) then Failure(ServiceIncomplete)
        else
          var duration := DurationSum(selected);
          if duration <= 0 then Failure(NonPositiveDuration)
          else
            var start := req.startTime.value;
            var end := start + duration;
            match FirstConflict(orders, start, end)
            case Some(i) => Failure(TimeConflict(ClientName(clients, orders[i].clientId)))
            case None =>
              Success(Order(req.clientId.value, req.carId.value, ids, start, end,
                            PriceSum(selected) as real, Scheduled, None))
  }

  /** All validation of the admin handler passes. */
  predicate Validates(req: AdminRequest, services: map<ServiceId, Service>) {
    && HasRequiredFields(req)
    && Distinct(req.serviceIds.value)
    && AllKnown(req.serviceIds.value, services)
    && AllComplete(Selected(req.serviceIds.value, services))
    && DurationSum(Selected(req.serviceIds.value, services)) > 0
  }

  /**
   * Each 400 outcome happens exactly in its case, checked in the handler's
   * order: missing field, services not all found once, a service without
   * price or duration, a non-positive total duration.
   */
  lemma ComposeOrderRejects(req: AdminRequest, services: map<ServiceId, Service>, orders: seq<Order>, clients: seq<Client>)
    ensures var r := ComposeOrder(req, services, orders, clients);
      && (r == Failure(MissingFields) <==> !HasRequiredFields(req))
      && (HasRequiredFields(req) ==>
            (r == Failure(ServicesNotFound) <==>
               !(Distinct(req.serviceIds.value) && AllKnown(req.serviceIds.value, services))))
      && (HasRequiredFields(req) && Distinct(req.serviceIds.value) && AllKnown(req.serviceIds.value, services) ==>
            (r == Failure(ServiceIncomplete) <==> !AllComplete(Selected(req.serviceIds.value, services))))
      && (HasRequiredFields(req) && Distinct(req.serviceIds.value) && AllKnown(req.serviceIds.value, services) &&
          AllComplete(Selected(req.serviceIds.value, services)) ==>
            (r == Failure(NonPositiveDuration) <==> DurationSum(Selected(req.serviceIds.value, services)) <= 0))
  {
    if HasRequiredFields(req) {
      FoundAllIff(req.serviceIds.value, services);
    }
  }

  /**
   * A composed order carries the requested references and services, the
   * sum of the truncated prices, status "Запланирован", and the interval
   * [start, start + total duration), which is non-empty and overlaps no
   * stored order.
   */
  lemma ComposeOrderSuccess(req: AdminRequest, services: map<ServiceId, Service>, orders: seq<Order>, clients: seq<Client>)
    requires ComposeOrder(req, services, orders, clients).Success?
    ensures Validates(req, services)
    ensures var o := ComposeOrder(req, services, orders, clients).value;
            var selected := Selected(req.serviceIds.value, services);
      && o.clientId == req.clientId.value && o.carId == req.carId.value
      && o.serviceIds == req.serviceIds.value
      && o.start == req.startTime.value
      && o.end == o.start + DurationSum(selected)
      && o.start < o.end
      && o.totalPrice == PriceSum(selected) as real
      && o.status == Scheduled && o.employeeId == None
      && !HasConflict(orders, o.start, o.end)
  {
    FoundAllIff(req.serviceIds.value, services);
  }

  /**
   * Once validation passes, the outcome is a 409 iff some stored order
   * overlaps [start, start + total duration), naming the client of the
   * first such order.
   */
  lemma ComposeOrderConflict(req: AdminRequest, services: map<ServiceId, Service>, orders: seq<Order>, clients: seq<Client>)
    requires Validates(req, services)
    ensures var start := req.startTime.value;
            var end := start + DurationSum(Selected(req.serviceIds.value, services));
            var r := ComposeOrder(req, services, orders, clients);
      && (r.Success? <==> !HasConflict(orders, start, end))
      && (r.Failure? ==>
            r.error.TimeConflict? &&
            r.error.clientName == ClientName(clients, orders[FirstConflict(orders, start, end).value].clientId))
  {
    FoundAllIff(req.serviceIds.value, services);
  }

  /** An admin insert keeps the stored orders pairwise non-overlapping. */
  lemma ComposeOrderKeepsDisjoint(req: AdminRequest, services: map<ServiceId, Service>, orders: seq<Order>, clients: seq<Client>)
    requires Disjoint(orders)
    requires ComposeOrder(req, services, orders, clients).Success?
    ensures Disjoint(orders + [ComposeOrder(req, services, orders, clients).value])
  {
    ComposeOrderSuccess(req, services, orders, clients);
    AppendKeepsDisjoint(orders, ComposeOrder(req, services, orders, clients).value);
  }

  /** Durations 30 and 45 with prices 500 and 750 give 75 minutes and 1250. */
  lemma AggregationExample(start: Minute)
    ensures var services := map["a" := Service(Some(500.0), Some(30), "c"), "b" := Service(Some(750.0), Some(45), "c")];
            var r := ComposeOrder(AdminRequest(Some(0), Some(0), Some(["a", "b"]), Some(start)), services, [], []);
            r.Success? && r.value.end == start + 75 && r.value.totalPrice == 1250.0
  {
    var services := map["a" := Service(Some(500.0), Some(30), "c"), "b" := Service(Some(750.0), Some(45), "c")];
    var ids := ["a", "b"];
    assert Found(ids, services) == {"a", "b"};
    var selected := Selected(ids, services);
    assert selected == [services["a"], services["b"]];
    assert selected[..1] == [services["a"]] && selected[..1][..0] == [];
    var first := [services["a"]];
    assert first[..0] == [];
    assert DurationSum(first) == 30 && PriceSum(first) == 500;
    assert DurationSum(selected) == 75;
    assert PriceSum(selected) == 1250;
  }

  /** A fractional price is truncated toward zero before it is summed. */
  lemma TruncationExample()
    ensures Trunc(499.99) == 499 && Trunc(-2.5) == -2
  {
  }

  /** An order [10:00, 11:00) blocks a 45-minute request at 10:30. */
  lemma OverlapRejected(start: Minute, c: Client)
    ensures var services := map["a" := Service(Some(100.0), Some(45), "c")];
            var existing := Order(0, 0, ["a"], start, start + 60, 100.0, Scheduled, None);
            var r := ComposeOrder(AdminRequest(Some(0), Some(1), Some(["a"]), Some(start + 30)), services, [existing], [c]);
            r == Failure(TimeConflict(Some(c.fullName)))
  {
    var services := map["a" := Service(Some(100.0), Some(45), "c")];
    assert Found(["a"], services) == {"a"};
    var selected := Selected(["a"], services);
    assert selected == [services["a"]] && selected[..0] == [];
    assert DurationSum(selected) == 45;
    var existing := Order(0, 0, ["a"], start, start + 60, 100.0, Scheduled, None);
    assert OrderOverlaps(existing, start + 30, start + 75);
  }

  /** The same service id twice is rejected as "services not found", as is an unknown id. */
  lemma DuplicateOrUnknownIdRejected(start: Minute, services: map<ServiceId, Service>, orders: seq<Order>, clients: seq<Client>)
    requires "a" in services && "z" !in services
    ensures ComposeOrder(AdminRequest(Some(0), Some(0), Some(["a", "a"]), Some(start)), services, orders, clients)
            == Failure(ServicesNotFound)
    ensures ComposeOrder(AdminRequest(Some(0), Some(0), Some(["a", "z"]), Some(start)), services, orders, clients)
            == Failure(ServicesNotFound)
  {
    FoundAllIff(["a", "a"], services);
    FoundAllIff(["a", "z"], services);
    assert ["a", "a"][0] == ["a", "a"][1];
    assert ["a", "z"][1] !in services;
  }
}
