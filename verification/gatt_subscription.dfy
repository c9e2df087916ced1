/**
 * What onServicesDiscovered and setupNotifications ask of the GATT client:
 * for each Heart Rate Service in the discovered table, in table order, enable
 * local notifications for its Heart Rate Measurement characteristic and, when
 * setCharacteristicNotification accepts that, write ENABLE_NOTIFICATION_VALUE
 * to the characteristic's Client Characteristic Configuration descriptor.
 * The callback throws (a null reference) when a service lacks the measurement
 * characteristic, or when the subscription is accepted and the characteristic
 * lacks that descriptor; the descriptor is looked up only after an accepted
 * subscription, so a refused one completes either way. A throw ends the
 * callback: later services get nothing.
 */
module GattSubscription {
  import opened Wrappers
  import opened Radio
  import opened GattAttributes

  /** BluetoothGattService.getCharacteristic: the first characteristic with the UUID, None when there is none. */
  function FindCharacteristic(characteristics: seq<Characteristic>, uuid: Uuid): (r: Option<Characteristic>)
    ensures r.None? <==> forall c :: c in characteristics ==> c.uuid != uuid
    ensures r.Some? ==> exists i :: 0 <= i < |characteristics| && characteristics[i] == r.value
                                    && r.value.uuid == uuid
                                    && forall j :: 0 <= j < i ==> characteristics[j].uuid != uuid
  {
    if characteristics == [] then None
    else if characteristics[0].uuid == uuid then Some(characteristics[0])
    else
      var r := FindCharacteristic(characteristics[1..], uuid);
      if r.Some? then
        var i :| 0 <= i < |characteristics[1..]| && characteristics[1..][i] == r.value
                 && r.value.uuid == uuid && forall j :: 0 <= j < i ==> characteristics[1..][j].uuid != uuid;
        assert characteristics[i + 1] == r.value;
        r
      else
        r
  }

  /** The commands a callback issued, and whether it ran to its end (false: it threw). */
  datatype Outcome = Outcome(issued: seq<Command>, completed: bool)

  /** The subscription command, always with notifications on, for the heart-rate measurement characteristic. */
  function Subscribe(gatt: GattHandle): Command {
    SetCharacteristicNotification(gatt, UUID_HEART_RATE_MEASUREMENT, true)
  }

  /** The write of ENABLE_NOTIFICATION_VALUE to the measurement characteristic's configuration descriptor. */
  function Enable(gatt: GattHandle): Command {
    WriteDescriptor(gatt, UUID_CLIENT_CHARACTERISTIC_CONFIG, ENABLE_NOTIFICATION_VALUE)
  }

  /**
   * setupNotifications on one heart-rate service; `accepted` is what
   * setCharacteristicNotification answers.
   */
  function NotificationSetup(gatt: GattHandle, service: Service, accepted: bool): Outcome {
    match FindCharacteristic(service.characteristics, UUID_HEART_RATE_MEASUREMENT)
    case None => Outcome([], false)
    case Some(c) =>
      if !accepted then Outcome([Subscribe(gatt)], true)
      else if UUID_CLIENT_CHARACTERISTIC_CONFIG !in c.descriptors then Outcome([Subscribe(gatt)], false)
      else Outcome([Subscribe(gatt), Enable(gatt)], true)
  }

  /**
   * The loop of onServicesDiscovered over the service table, for a successful
   * discovery; accepted[i] is what setCharacteristicNotification answers for
   * services[i] (read only for heart-rate services).
   */
  function Subscription(gatt: GattHandle, services: seq<Service>, accepted: seq<bool>): Outcome
    requires |accepted| == |services|
    decreases |services|
  {
    if services == [] then Outcome([], true)
    else
      var rest := Subscription(gatt, services[1..], accepted[1..]);
      if services[0].uuid != UUID_HEART_RATE_SERVICE then rest
      else
        var first := NotificationSetup(gatt, services[0], accepted[0]);
        if !first.completed then first
        else Outcome(first.issued + rest.issued, rest.completed)
  }

  /** A heart-rate service on which setupNotifications cannot throw, whatever setCharacteristicNotification answers. */
  ghost predicate WellFormed(service: Service) {
    match FindCharacteristic(service.characteristics, UUID_HEART_RATE_MEASUREMENT)
    case None => false
    case Some(c) => UUID_CLIENT_CHARACTERISTIC_CONFIG in c.descriptors
  }

  /** Number of heart-rate services in the table. */
  function HeartRateServices(services: seq<Service>): nat {
    if services == [] then 0
    else (if services[0].uuid == UUID_HEART_RATE_SERVICE then 1 else 0) + HeartRateServices(services[1..])
  }

  /** Number of heart-rate services whose subscription setCharacteristicNotification accepts. */
  function AcceptedHeartRateServices(services: seq<Service>, accepted: seq<bool>): nat
    requires |accepted| == |services|
    decreases |services|
  {
    if services == [] then 0
    else
      (if services[0].uuid == UUID_HEART_RATE_SERVICE && accepted[0] then 1 else 0)
      + AcceptedHeartRateServices(services[1..], accepted[1..])
  }

  /** Number of subscription commands in a log. */
  function Subscriptions(commands: seq<Command>): nat {
    if commands == [] then 0
    else (if commands[0].SetCharacteristicNotification? then 1 else 0) + Subscriptions(commands[1..])
  }

  /** Number of descriptor writes in a log. */
  function DescriptorWrites(commands: seq<Command>): nat {
    if commands == [] then 0
    else (if commands[0].WriteDescriptor? then 1 else 0) + DescriptorWrites(commands[1..])
  }

  lemma {:induction false} CountsOfConcat(a: seq<Command>, b: seq<Command>)
    ensures Subscriptions(a + b) == Subscriptions(a) + Subscriptions(b)
    ensures DescriptorWrites(a + b) == DescriptorWrites(a) + DescriptorWrites(b)
    decreases |a|
  {
    if a == [] {
      assert a + b == b;
    } else {
      CountsOfConcat(a[1..], b);
      assert (a + b)[0] == a[0] && (a + b)[1..] == a[1..] + b;
    }
  }

  /**
   * setupNotifications writes the descriptor only when the subscription is
   * accepted and the service is well formed, and always right after subscribing.
   */
  lemma NotificationSetupIssues(gatt: GattHandle, service: Service, accepted: bool)
    ensures var o := NotificationSetup(gatt, service, accepted);
            o.issued == (if accepted && WellFormed(service) then [Subscribe(gatt), Enable(gatt)]
                         else if FindCharacteristic(service.characteristics, UUID_HEART_RATE_MEASUREMENT).Some? then [Subscribe(gatt)]
                         else [])
    ensures NotificationSetup(gatt, service, accepted).completed <==>
              WellFormed(service) || (!accepted && FindCharacteristic(service.characteristics, UUID_HEART_RATE_MEASUREMENT).Some?)
  {
  }

  /**
   * Each command subscribes the heart-rate measurement characteristic on
   * `gatt`, or writes ENABLE_NOTIFICATION_VALUE to its configuration
   * descriptor straight after such a subscription.
   */
  ghost predicate OnlyEnablesAfterSubscribing(gatt: GattHandle, cs: seq<Command>) {
    forall k {:trigger cs[k]} :: 0 <= k < |cs| ==>
      cs[k] == Subscribe(gatt) || (cs[k] == Enable(gatt) && k > 0 && cs[k - 1] == Subscribe(gatt))
  }

  lemma OnlyEnablesAfterSubscribingConcat(gatt: GattHandle, a: seq<Command>, b: seq<Command>)
    requires OnlyEnablesAfterSubscribing(gatt, a) && OnlyEnablesAfterSubscribing(gatt, b)
    ensures OnlyEnablesAfterSubscribing(gatt, a + b)
  {
  }

  /** Every command a discovery issues is a subscription, or the descriptor write straight after one, on the discovering handle. */
  lemma {:induction false} SubscriptionIssuesOnlyEnable(gatt: GattHandle, services: seq<Service>, accepted: seq<bool>)
    requires |accepted| == |services|
    ensures OnlyEnablesAfterSubscribing(gatt, Subscription(gatt, services, accepted).issued)
    decreases |services|
  {
    if services != [] {
      SubscriptionIssuesOnlyEnable(gatt, services[1..], accepted[1..]);
      if services[0].uuid == UUID_HEART_RATE_SERVICE {
        var first := NotificationSetup(gatt, services[0], accepted[0]);
        NotificationSetupIssues(gatt, services[0], accepted[0]);
        assert OnlyEnablesAfterSubscribing(gatt, first.issued);
        OnlyEnablesAfterSubscribingConcat(gatt, first.issued, Subscription(gatt, services[1..], accepted[1..]).issued);
      }
    }
  }

  /**
   * When every heart-rate service is well formed the discovery runs to its end,
   * subscribes once per heart-rate service and writes the descriptor once per
   * accepted subscription; a table without a heart-rate service issues nothing.
   */
  lemma {:induction false} SubscriptionCounts(gatt: GattHandle, services: seq<Service>, accepted: seq<bool>)
    requires |accepted| == |services|
    requires forall i :: 0 <= i < |services| && services[i].uuid == UUID_HEART_RATE_SERVICE ==> WellFormed(services[i])
    ensures Subscription(gatt, services, accepted).completed
    ensures Subscriptions(Subscription(gatt, services, accepted).issued) == HeartRateServices(services)
    ensures DescriptorWrites(Subscription(gatt, services, accepted).issued) == AcceptedHeartRateServices(services, accepted)
    ensures HeartRateServices(services) == 0 ==> Subscription(gatt, services, accepted).issued == []
    decreases |services|
  {
    if services != [] {
      SubscriptionCounts(gatt, services[1..], accepted[1..]);
      var rest := Subscription(gatt, services[1..], accepted[1..]);
      if services[0].uuid == UUID_HEART_RATE_SERVICE {
        assert WellFormed(services[0]);
        var first := NotificationSetup(gatt, services[0], accepted[0]);
        CountsOfConcat(first.issued, rest.issued);
      }
    }
  }

  /**
   * Whatever the table, even one on which setupNotifications throws partway,
   * a discovery subscribes at most once per heart-rate service and writes the
   * descriptor at most once per accepted subscription.
   */
  lemma {:induction false} SubscriptionCountsBounded(gatt: GattHandle, services: seq<Service>, accepted: seq<bool>)
    requires |accepted| == |services|
    ensures Subscriptions(Subscription(gatt, services, accepted).issued) <= HeartRateServices(services)
    ensures DescriptorWrites(Subscription(gatt, services, accepted).issued) <= AcceptedHeartRateServices(services, accepted)
    decreases |services|
  {
    if services != [] {
      SubscriptionCountsBounded(gatt, services[1..], accepted[1..]);
      var rest := Subscription(gatt, services[1..], accepted[1..]);
      if services[0].uuid == UUID_HEART_RATE_SERVICE {
        var first := NotificationSetup(gatt, services[0], accepted[0]);
        NotificationSetupIssues(gatt, services[0], accepted[0]);
        CountsOfConcat(first.issued, rest.issued);
      }
    }
  }
}
