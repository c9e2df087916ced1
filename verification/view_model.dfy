/**
 * MyViewModel: the published state of the heart-rate monitor screen and the
 * handlers that change it. Each LiveData post is a plain field assignment; each
 * call on the scanner, a device or a GATT handle is appended to `commands`;
 * what the transport answers (the handle connectGatt returns, the service table,
 * what setCharacteristicNotification returns) is a parameter.
 */
module ViewModel {
  import opened Wrappers
  import opened Radio
  import opened GattAttributes
  import opened HeartRateMeasurement
  import opened ScanAggregation
  import opened GattSubscription

  class MyViewModel {
    /** The published scan results; None until the first scan window has ended. */
    var scanResults: Option<seq<ScanResult>>
    var isScanning: bool
    /** The working table of the current scan window, keyed by device address. */
    var scannedDevices: DeviceTable
    var connectionState: int
    var heartRateBPM: int
    /** The handle of the last connection attempt, if connectGatt returned one. */
    var bluetoothGatt: Option<GattHandle>
    /** Every call made on the scanner, devices and GATT handles, oldest first. */
    var commands: seq<Command>

    /** The invariant every handler keeps. */
    ghost predicate Valid()
      reads this
    {
      && KeyedByAddress(scannedDevices)
      && (scanResults.Some? ==> DistinctAddresses(scanResults.value))
      && STATE_NEVER_CONNECTED <= connectionState <= STATE_CONNECTED
      && NO_READING <= heartRateBPM < 0x1_0000
    }

    /** The view model as the screen first sees it. */
    constructor ()
      ensures Valid()
      ensures scanResults == None && !isScanning && scannedDevices == map[]
      ensures connectionState == STATE_NEVER_CONNECTED && heartRateBPM == 0
      ensures bluetoothGatt == None && commands == []
    {
      scanResults := None;
      isScanning := false;
      scannedDevices := map[];
      connectionState := STATE_NEVER_CONNECTED;
      heartRateBPM := 0;
      bluetoothGatt := None;
      commands := [];
    }

    /** The start of startDeviceScan: nothing stops a second scan while one is running. */
    method StartDeviceScan()
      requires Valid()
      modifies this`isScanning, this`scannedDevices, this`commands
      ensures Valid()
      ensures isScanning && scannedDevices == map[]
      ensures commands == old(commands) + [StartScan]
    {
      isScanning := true;
      scannedDevices := map[];
      commands := commands + [StartScan];
    }

    /** scanCallback.onScanResult: the hit replaces any earlier entry for its address. */
    method OnScanResult(callbackType: int, result: ScanResult)
      requires Valid()
      modifies this`scannedDevices
      ensures Valid()
      ensures scannedDevices == Upsert(old(scannedDevices), result)
    {
      scannedDevices := scannedDevices[result.address := result];
    }

    /**
     * The end of startDeviceScan, once SCAN_PERIOD has passed: stop the scan and
     * publish one result per entry of the working table.
     */
    method ScanWindowElapsed()
      requires Valid()
      modifies this`scanResults, this`isScanning, this`commands
      ensures Valid()
      ensures commands == old(commands) + [StopScan]
      ensures !isScanning
      ensures scanResults.Some? && |scanResults.value| == |scannedDevices|
      ensures forall r :: r in scanResults.value <==> r.address in scannedDevices && scannedDevices[r.address] == r
    {
      commands := commands + [StopScan];
      var list: seq<ScanResult>;
      ghost var order: seq<string>;
      list, order := ValuesToList(scannedDevices);
      forall i, j | 0 <= i < j < |list| ensures list[i].address != list[j].address {
        assert list[i].address == order[i] && list[j].address == order[j];
      }
      forall r: ScanResult | r.address in scannedDevices && scannedDevices[r.address] == r ensures r in list {
        var i :| 0 <= i < |order| && order[i] == r.address;
        assert list[i] == r;
      }
      scanResults := Some(list);
      isScanning := false;
    }

    /** connectToDevice: whatever the state, the new attempt's handle (or null) replaces the stored one. */
    method ConnectToDevice(address: string, returned: Option<GattHandle>)
      requires Valid()
      modifies this`connectionState, this`bluetoothGatt, this`commands
      ensures Valid()
      ensures connectionState == STATE_CONNECTING && bluetoothGatt == returned
      ensures commands == old(commands) + [ConnectGatt(address)]
    {
      connectionState := STATE_CONNECTING;
      commands := commands + [ConnectGatt(address)];
      bluetoothGatt := returned;
    }

    /** disconnectFromDevice: asks the stored handle, if any, to disconnect; the state changes on the resulting event. */
    method DisconnectFromDevice()
      requires Valid()
      modifies this`commands
      ensures Valid()
      ensures bluetoothGatt.None? ==> commands == old(commands)
      ensures bluetoothGatt.Some? ==> commands == old(commands) + [Disconnect(bluetoothGatt.value)]
    {
      if bluetoothGatt.Some? {
        commands := commands + [Disconnect(bluetoothGatt.value)];
      }
    }

    /**
     * gattCallback.onConnectionStateChange: link up starts service discovery;
     * link down clears the reading and disconnects and closes the handle, on
     * every such event; any other state changes nothing.
     */
    method OnConnectionStateChange(gatt: GattHandle, status: int, newState: int)
      requires Valid()
      modifies this`connectionState, this`heartRateBPM, this`commands
      ensures Valid()
      ensures newState == PROFILE_STATE_CONNECTED ==>
                && connectionState == STATE_CONNECTED && heartRateBPM == old(heartRateBPM)
                && commands == old(commands) + [DiscoverServices(gatt)]
      ensures newState == PROFILE_STATE_DISCONNECTED ==>
                && connectionState == STATE_DISCONNECTED && heartRateBPM == 0
                && commands == old(commands) + [Disconnect(gatt), Close(gatt)]
      ensures newState != PROFILE_STATE_CONNECTED && newState != PROFILE_STATE_DISCONNECTED ==>
                && connectionState == old(connectionState) && heartRateBPM == old(heartRateBPM)
                && commands == old(commands)
    {
      if newState == PROFILE_STATE_CONNECTED {
        connectionState := STATE_CONNECTED;
        commands := commands + [DiscoverServices(gatt)];
      } else if newState == PROFILE_STATE_DISCONNECTED {
        connectionState := STATE_DISCONNECTED;
        heartRateBPM := 0;
        commands := commands + [Disconnect(gatt)];
        commands := commands + [Close(gatt)];
      }
    }

    /**
     * gattCallback.setupNotifications on one heart-rate service; `accepted` is
     * what setCharacteristicNotification answers. Returns false where the
     * callback throws.
     */
    method SetupNotifications(gatt: GattHandle, service: Service, accepted: bool) returns (completed: bool)
      requires Valid()
      modifies this`commands
      ensures Valid()
      ensures commands == old(commands) + NotificationSetup(gatt, service, accepted).issued
      ensures completed == NotificationSetup(gatt, service, accepted).completed
    {
      var characteristic := FindCharacteristic(service.characteristics, UUID_HEART_RATE_MEASUREMENT);
      if characteristic.None? {
        return false;
      }
      commands := commands + [SetCharacteristicNotification(gatt, characteristic.value.uuid, true)];
      if accepted {
        if UUID_CLIENT_CHARACTERISTIC_CONFIG !in characteristic.value.descriptors {
          return false;
        }
        commands := commands + [WriteDescriptor(gatt, UUID_CLIENT_CHARACTERISTIC_CONFIG, ENABLE_NOTIFICATION_VALUE)];
      }
      return true;
    }

    /**
     * gattCallback.onServicesDiscovered: nothing on a failed discovery,
     * otherwise setupNotifications for each heart-rate service in table order.
     * accepted[i] is what setCharacteristicNotification answers for services[i].
     * Returns false where the callback throws.
     */
    method OnServicesDiscovered(gatt: GattHandle, status: int, services: seq<Service>, accepted: seq<bool>)
      returns (completed: bool)
      requires Valid()
      requires |accepted| == |services|
      modifies this`commands
      ensures Valid()
      ensures status != GATT_SUCCESS ==> commands == old(commands) && completed
      ensures status == GATT_SUCCESS ==>
                && commands == old(commands) + Subscription(gatt, services, accepted).issued
                && completed == Subscription(gatt, services, accepted).completed
    {
      if status != GATT_SUCCESS {
        return true;
      }
      ghost var total := Subscription(gatt, services, accepted);
      var i := 0;
      while i < |services|
        invariant 0 <= i <= |services| && Valid()
        invariant commands + Subscription(gatt, services[i..], accepted[i..]).issued == old(commands) + total.issued
        invariant Subscription(gatt, services[i..], accepted[i..]).completed == total.completed
      {
        assert services[i..][1..] == services[i + 1..] && accepted[i..][1..] == accepted[i + 1..];
        if services[i].uuid == UUID_HEART_RATE_SERVICE {
          ghost var before := commands;
          var done := SetupNotifications(gatt, services[i], accepted[i]);
          if !done {
            return false;
          }
          assert commands == before + NotificationSetup(gatt, services[i], accepted[i]).issued;
        }
        i := i + 1;
      }
      assert services[i..] == [];
      return true;
    }

    /** gattCallback.onCharacteristicChanged: only the heart-rate measurement updates the reading. */
    method OnCharacteristicChanged(gatt: GattHandle, characteristic: Characteristic)
      requires Valid()
      modifies this`heartRateBPM
      ensures Valid()
      ensures characteristic.uuid == UUID_HEART_RATE_MEASUREMENT ==>
                heartRateBPM == ExtractHeartRate(characteristic.properties, characteristic.value)
      ensures characteristic.uuid != UUID_HEART_RATE_MEASUREMENT ==> heartRateBPM == old(heartRateBPM)
    {
      if characteristic.uuid == UUID_HEART_RATE_MEASUREMENT {
        heartRateBPM := ExtractHeartRate(characteristic.properties, characteristic.value);
      }
    }
  }

  /**
   * A whole scan window through the view model: a scan starts, AA:BB is hit at
   * -70 dBm and then at -60 dBm, CC:DD at -80 dBm, and the window ends. The
   * published list holds one result per device, AA:BB's being its later hit.
   */
  method TwoDevicesScanWindow() returns (published: seq<ScanResult>)
    ensures |published| == 2
    ensures ScanResult("AA:BB", None, -60, true) in published
    ensures ScanResult("CC:DD", None, -80, true) in published
  {
    var aa70 := ScanResult("AA:BB", None, -70, true);
    var aa60 := ScanResult("AA:BB", None, -60, true);
    var cc80 := ScanResult("CC:DD", None, -80, true);
    var vm := new MyViewModel();
    vm.StartDeviceScan();
    vm.OnScanResult(0, aa70);
    vm.OnScanResult(0, aa60);
    vm.OnScanResult(0, cc80);
    assert vm.scannedDevices == map["AA:BB" := aa60, "CC:DD" := cc80];
    vm.ScanWindowElapsed();
    published := vm.scanResults.value;
  }
}
