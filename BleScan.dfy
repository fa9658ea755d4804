/**
 * The state of the `useBLE` hook (useBLE.ts) that the scan callback of
 * `scanForPeripherals` updates: whether a search is under way, the
 * connected beacon and its last signal strength. `BleManager` and its scan
 * transport are not modelled; each scan result they deliver is an input.
 */
module BleScan {
  import opened Wrappers

  /** The only advertised device name the app accepts as its beacon. */
  const BeaconName: string := "Holy-IOT"

  /** The signal strength before any beacon has been seen. */
  const InitialRssi: int := 0

  /** A scanned device: its identifier, advertised name and signal strength, either of the last two possibly absent. */
  datatype Device = Device(id: string, name: Option<string>, rssi: Option<int>)

  /** The three state variables the scan callback writes. */
  datatype ScanState = ScanState(deviceSearching: bool, connectedDevice: Option<Device>, rssi: int)

  const InitialScanState: ScanState := ScanState(false, None, InitialRssi)

  /** `device && device.name === "Holy-IOT"`. */
  predicate IsBeacon(device: Option<Device>)
  {
    device.Some? && device.value.name == Some(BeaconName)
  }

  /** `device.rssi ?? 0`. */
  function ReportedRssi(d: Device): (r: int)
    ensures d.rssi.Some? ==> r == d.rssi.value
    ensures d.rssi.None? ==> r == 0
  {
    d.rssi.GetOr(0)
  }

  /**
   * The scan callback: it always marks the search as running first; after
   * an error it stops there; a result for the beacon connects it, records
   * its signal strength and ends the search; any other result changes
   * nothing more.
   */
  function ScanCallback(s: ScanState, error: bool, device: Option<Device>): (r: ScanState)
    ensures r.deviceSearching <==> error || !IsBeacon(device)
    ensures error || !IsBeacon(device) ==> r == s.(deviceSearching := true)
    ensures Consistent(s) ==> Consistent(r)
  {
    var searching := s.(deviceSearching := true);
    if error then searching
    else if IsBeacon(device) then
      searching.(connectedDevice := device, rssi := ReportedRssi(device.value), deviceSearching := false)
    else searching
  }

  /** A beacon result connects exactly that device, with its reported strength, and ends the search. */
  lemma BeaconResultConnects(s: ScanState, d: Device)
    requires d.name == Some(BeaconName)
    ensures ScanCallback(s, false, Some(d)) == ScanState(false, Some(d), if d.rssi.Some? then d.rssi.value else 0)
  {
  }

  /** Duplicate advertisements: delivering the same result twice is the same as once. */
  lemma ScanCallbackIdempotent(s: ScanState, error: bool, device: Option<Device>)
    ensures ScanCallback(ScanCallback(s, error, device), error, device) == ScanCallback(s, error, device)
  {
  }

  /**
   * The connected device, when there is one, is the beacon, and the recorded
   * signal strength is the one it last reported.
   */
  predicate Consistent(s: ScanState)
  {
    s.connectedDevice.Some? ==> IsBeacon(s.connectedDevice) && s.rssi == ReportedRssi(s.connectedDevice.value)
  }

  /** The mutable state of the hook, written by the scan callback and by the screen's reset. */
  class BleHook {
    var deviceSearching: bool
    var connectedDevice: Option<Device>
    var rssi: int
    /** Whether the scan listener of `startDeviceScan` is registered. */
    var scanning: bool

    function State(): ScanState
      reads this
    {
      ScanState(deviceSearching, connectedDevice, rssi)
    }

    /** The initial `useState` values (useBLE.ts:23-25). */
    constructor ()
      ensures State() == InitialScanState && !scanning
    {
      deviceSearching := false;
      connectedDevice := None;
      rssi := InitialRssi;
      scanning := false;
    }

    /** `scanForPeripherals`: registers the scan listener. */
    method ScanForPeripherals()
      modifies this
      ensures scanning && State() == old(State())
    {
      scanning := true;
    }

    /** `stopScan`: removes the scan listener. */
    method StopScan()
      modifies this
      ensures !scanning && State() == old(State())
    {
      scanning := false;
    }

    /** The scan listener, run for each result the manager delivers. */
    method OnScanResult(error: bool, device: Option<Device>)
      modifies this
      ensures State() == ScanCallback(old(State()), error, device)
      ensures scanning == old(scanning)
    {
      deviceSearching := true;
      if error {
        return;
      }
      if device.Some? && device.value.name == Some(BeaconName) {
        connectedDevice := device;
        rssi := ReportedRssi(device.value);
        deviceSearching := false;
      }
    }

    method SetConnectedDevice(d: Option<Device>)
      modifies this
      ensures State() == old(State()).(connectedDevice := d) && scanning == old(scanning)
    {
      connectedDevice := d;
    }

    method SetDeviceSearching(b: bool)
      modifies this
      ensures State() == old(State()).(deviceSearching := b) && scanning == old(scanning)
    {
      deviceSearching := b;
    }
  }
}
