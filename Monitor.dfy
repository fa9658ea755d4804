/**
 * The HomeScreen component of HomeScreen.tsx as an object: its own state
 * variables, the `useBLE` hook it owns, and one method per thing that can
 * happen to it. The five event methods (`OnScanResult`, `OnThresholdChange`,
 * `Tick`, `Reset`, `HandleScan`) perform the React state updates of the
 * source followed by the effects whose dependencies they changed, and are
 * proved to take the screen exactly as `ProximityAlarm.Step` does, so every
 * property proved there holds of this object. The two effect methods they
 * use, `ApplyStartCountdown` and `RunRangeEffect`, are proved equal to
 * `ProximityAlarm.SetStartCountdown` and `ProximityAlarm.RangeEffect`.
 */
module Monitor {
  import opened Wrappers
  import opened Permissions
  import opened BleScan
  import opened ProximityAlarm

  class HomeScreen {
    const ble: BleHook
    var threshold: int
    var startCountdown: bool
    /** Whether the one-second interval started by the `[startCountdown]` effect is running. */
    var intervalActive: bool
    var countdown: Option<int>
    var rssiAlert: bool
    /** How many "Alarm" dialogs have been shown. */
    var alarmsRaised: nat

    function AlarmState(): Alarm
      reads this
    {
      Alarm(startCountdown, intervalActive, countdown, rssiAlert, alarmsRaised)
    }

    function Model(): Screen
      reads this, ble
    {
      Screen(ble.State(), ble.scanning, threshold, AlarmState())
    }

    ghost predicate Valid()
      reads this, ble
    {
      Inv(Model())
    }

    /** The initial `useState` values (HomeScreen.tsx:26-29); on mount both effects find nothing to do. */
    constructor ()
      ensures Valid() && fresh(ble) && Model() == InitialScreen
    {
      ble := new BleHook();
      threshold := InitialThreshold;
      startCountdown := false;
      intervalActive := false;
      countdown := None;
      rssiAlert := false;
      alarmsRaised := 0;
      InitialInv();
    }

    /**
     * `setStartCountdown(v)` followed by the `[startCountdown]` effect, which
     * runs only when the flag changes: switching on sets the countdown to 10
     * and starts the interval, switching off runs the cleanup that clears it.
     */
    method ApplyStartCountdown(v: bool)
      modifies this
      ensures AlarmState() == ProximityAlarm.SetStartCountdown(old(AlarmState()), v)
      ensures threshold == old(threshold)
    {
      if v == startCountdown {
        return;
      }
      startCountdown := v;
      if v {
        countdown := Some(CountdownStart);
        intervalActive := true;
      } else {
        intervalActive := false;
      }
    }

    /** The `[rssi, rssiTreshold]` effect. */
    method RunRangeEffect()
      modifies this
      ensures AlarmState() == ProximityAlarm.RangeEffect(old(AlarmState()), ble.rssi, threshold)
      ensures threshold == old(threshold)
    {
      if ble.rssi < threshold {
        ApplyStartCountdown(true);
      } else {
        rssiAlert := false;
        countdown := None;
        ApplyStartCountdown(false);
      }
    }

    /** The scan listener is called; the range effect runs if the signal strength changed. */
    method OnScanResult(error: bool, device: Option<Device>)
      requires Valid()
      modifies this, ble
      ensures Valid() && Model() == Step(old(Model()), ScanResult(error, device))
    {
      StepPreservesInv(Model(), ScanResult(error, device));
      if !ble.scanning {
        return;
      }
      var previous := ble.rssi;
      ble.OnScanResult(error, device);
      if ble.rssi != previous {
        RunRangeEffect();
      }
    }

    /** The slider delivers a new threshold; the range effect runs if it changed. */
    method OnThresholdChange(t: int)
      requires Valid() && ValidThreshold(t)
      modifies this
      ensures Valid() && Model() == Step(old(Model()), ThresholdChange(t))
    {
      StepPreservesInv(Model(), ThresholdChange(t));
      if t != threshold {
        threshold := t;
        RunRangeEffect();
      }
    }

    /** One firing of the interval: count down, or stop the interval and raise the alert. */
    method Tick()
      requires Valid()
      modifies this
      ensures Valid() && Model() == Step(old(Model()), Event.Tick)
    {
      StepPreservesInv(Model(), Event.Tick);
      if !intervalActive {
        return;
      }
      if countdown.Some? && countdown.value > 0 {
        countdown := Some(countdown.value - 1);
      } else {
        intervalActive := false;
        rssiAlert := true;
        alarmsRaised := alarmsRaised + 1;
        countdown := None;
      }
    }

    /** `resetApp`. */
    method Reset()
      requires Valid()
      modifies this, ble
      ensures Valid() && Model() == Step(old(Model()), Event.Reset)
    {
      StepPreservesInv(Model(), Event.Reset);
      ble.StopScan();
      ble.SetConnectedDevice(None);
      rssiAlert := false;
      ApplyStartCountdown(false);
      ble.SetDeviceSearching(false);
    }

    /** `handleScan`: scanning starts only if the permissions were granted. */
    method HandleScan(os: Os, apiLevel: Option<int>, answers: Answers)
      requires Valid()
      modifies ble
      ensures Valid() && Model() == Step(old(Model()), ScanPressed(os, apiLevel, answers))
    {
      StepPreservesInv(Model(), ScanPressed(os, apiLevel, answers));
      var granted := RequestPermissions(os, apiLevel, answers).granted;
      if granted {
        ble.ScanForPeripherals();
      }
    }
  }

  /** Scenario: a beacon 10 dB below the initial threshold, sampled every second, raises one alarm on the 11th second. */
  method ScenarioSustainedSeparation()
  {
    var screen := new HomeScreen();
    screen.HandleScan(Ios, None, Answers(Denied, Denied, Denied));
    var away := Device("beacon", Some(BeaconName), Some(-80));
    screen.OnScanResult(false, Some(away));
    ghost var armed := screen.AlarmState();
    assert FreshlyArmed(armed);
    var i := 0;
    while i < 10
      invariant 0 <= i <= 10 && screen.Valid()
      invariant screen.ble.scanning && screen.ble.rssi == -80 && screen.threshold == InitialThreshold
      invariant screen.AlarmState() == armed.(countdown := Some(10 - i))
    {
      screen.OnScanResult(false, Some(away));
      screen.Tick();
      i := i + 1;
    }
    assert !screen.rssiAlert;
    screen.Tick();
    assert screen.rssiAlert && screen.alarmsRaised == 1;
  }
}
