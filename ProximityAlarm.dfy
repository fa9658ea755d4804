/**
 * The proximity alarm of HomeScreen.tsx, as a pure transition system.
 *
 * The screen keeps three pieces of alarm state (`startCountdown`,
 * `countdown`, `rssiAlert`) beside the hook state of useBLE.ts. Two effects
 * drive them: the first runs whenever the signal strength or the threshold
 * changes and arms or disarms; the second runs whenever `startCountdown`
 * changes and, on arming, sets the countdown to 10 and starts a one-second
 * interval whose cleanup stops it again. Each event below is one React
 * update followed by the effects whose dependencies it changed. Wall-clock
 * time is a sequence of `Tick` events, one per interval firing.
 */
module ProximityAlarm {
  import opened Wrappers
  import opened Permissions
  import opened BleScan

  /** The value the countdown is armed with. */
  const CountdownStart: int := 10

  /** The threshold slider's range and initial value. */
  const MinThreshold: int := -100
  const MaxThreshold: int := -30
  const InitialThreshold: int := -70

  predicate ValidThreshold(t: int)
  {
    MinThreshold <= t <= MaxThreshold
  }

  /** A sample is out of range when it is strictly below the threshold. */
  predicate OutOfRange(rssi: int, threshold: int)
  {
    rssi < threshold
  }

  /** The colour of the signal-strength bar. */
  datatype Color = Green | Yellow | Red

  /**
   * getBarColor. The red band is exactly the out-of-range band at the
   * initial threshold -70.
   */
  function BarColor(rssi: int): (c: Color)
    ensures c == Green <==> -50 <= rssi
    ensures c == Yellow <==> -70 <= rssi < -50
    ensures c == Red <==> rssi < -70
  {
    if rssi >= -50 then Green
    else if rssi >= -70 then Yellow
    else Red
  }

  /** Green is the strongest band, red the weakest. */
  function Rank(c: Color): nat
  {
    match c
    case Red => 0
    case Yellow => 1
    case Green => 2
  }

  /** A stronger signal never gets a weaker colour. */
  lemma BarColorMonotone(weaker: int, stronger: int)
    requires weaker <= stronger
    ensures Rank(BarColor(weaker)) <= Rank(BarColor(stronger))
  {
  }

  /**
   * The alarm state of the screen. `intervalActive` says whether the
   * one-second interval is running; `alarmsRaised` counts the "Alarm"
   * dialogs shown so far.
   */
  datatype Alarm = Alarm(startCountdown: bool, intervalActive: bool, countdown: Option<int>,
                         rssiAlert: bool, alarmsRaised: nat)

  const IdleAlarm: Alarm := Alarm(false, false, None, false, 0)

  /**
   * `setStartCountdown(v)` followed by the `[startCountdown]` effect, which
   * runs only if the flag changes: turning it on sets the countdown to 10 and
   * starts the interval, turning it off runs the cleanup that stops it.
   */
  function SetStartCountdown(a: Alarm, v: bool): (r: Alarm)
    ensures r.startCountdown == v
    ensures v == a.startCountdown ==> r == a
    ensures v && !a.startCountdown ==> r.intervalActive && r.countdown == Some(CountdownStart)
    ensures !v && a.startCountdown ==> !r.intervalActive
    ensures !v ==> r.countdown == a.countdown
    ensures r.rssiAlert == a.rssiAlert && r.alarmsRaised == a.alarmsRaised
  {
    if v == a.startCountdown then a
    else if v then a.(startCountdown := true, countdown := Some(CountdownStart), intervalActive := true)
    else a.(startCountdown := false, intervalActive := false)
  }

  /** The `[rssi, rssiTreshold]` effect for the current sample and threshold. */
  function RangeEffect(a: Alarm, rssi: int, threshold: int): (r: Alarm)
    ensures r.startCountdown <==> OutOfRange(rssi, threshold)
    ensures !OutOfRange(rssi, threshold) ==> !r.rssiAlert && r.countdown.None? && (AlarmInv(a) ==> !r.intervalActive)
    ensures OutOfRange(rssi, threshold) && a.startCountdown ==> r == a
    ensures OutOfRange(rssi, threshold) && !a.startCountdown ==>
              r.intervalActive && r.countdown == Some(CountdownStart) && r.rssiAlert == a.rssiAlert
    ensures r.alarmsRaised == a.alarmsRaised
    ensures AlarmInv(a) ==> AlarmInv(r)
  {
    if OutOfRange(rssi, threshold) then SetStartCountdown(a, true)
    else SetStartCountdown(a.(rssiAlert := false, countdown := None), false)
  }

  /**
   * One firing of the interval. While the countdown is above 0 it goes down
   * by one; otherwise the interval stops itself, the alert is raised, the
   * dialog is shown and the countdown is cleared. Without a running interval
   * nothing fires.
   */
  function TickAlarm(a: Alarm): (r: Alarm)
    ensures r.startCountdown == a.startCountdown
    ensures AlarmInv(a) ==> AlarmInv(r)
    ensures a.alarmsRaised <= r.alarmsRaised <= a.alarmsRaised + 1
    ensures AlarmInv(a) ==> (r.alarmsRaised == a.alarmsRaised + 1 <==> !a.rssiAlert && r.rssiAlert)
  {
    if !a.intervalActive then a
    else if a.countdown.Some? && a.countdown.value > 0 then a.(countdown := Some(a.countdown.value - 1))
    else a.(intervalActive := false, rssiAlert := true, countdown := None, alarmsRaised := a.alarmsRaised + 1)
  }

  /** `n` firings of the interval. */
  function Ticks(a: Alarm, n: nat): Alarm
    decreases n
  {
    if n == 0 then a else Ticks(TickAlarm(a), n - 1)
  }

  /** The whole screen: hook state, scan listener, threshold and alarm. */
  datatype Screen = Screen(ble: ScanState, scanning: bool, threshold: int, alarm: Alarm)

  const InitialScreen: Screen := Screen(InitialScanState, false, InitialThreshold, IdleAlarm)

  /** What can happen to the screen. */
  datatype Event =
    | ScanResult(error: bool, device: Option<Device>)   // the scan listener is called
    | ThresholdChange(t: int)                            // the slider moves
    | Tick                                               // one second passes
    | Reset                                              // `resetApp`
    | ScanPressed(os: Os, apiLevel: Option<int>, answers: Answers)  // `handleScan`

  /** The slider only delivers values in its range. */
  predicate ValidEvent(e: Event)
  {
    e.ThresholdChange? ==> ValidThreshold(e.t)
  }

  /**
   * One event and the effects it triggers. The range effect runs only when
   * the signal strength or the threshold changes value; only a firing of
   * the interval can show a dialog; only the slider moves the threshold.
   */
  function Step(s: Screen, e: Event): (r: Screen)
    ensures e.ScanResult? && r.ble.rssi == s.ble.rssi ==> r.alarm == s.alarm
    ensures e.ThresholdChange? && e.t == s.threshold ==> r == s
    ensures !e.Tick? ==> r.alarm.alarmsRaised == s.alarm.alarmsRaised
    ensures s.alarm.alarmsRaised <= r.alarm.alarmsRaised <= s.alarm.alarmsRaised + 1
    ensures !e.ThresholdChange? ==> r.threshold == s.threshold
  {
    match e
    case ScanResult(error, device) =>
      if !s.scanning then s
      else
        var b := ScanCallback(s.ble, error, device);
        s.(ble := b, alarm := if b.rssi != s.ble.rssi then RangeEffect(s.alarm, b.rssi, s.threshold) else s.alarm)
    case ThresholdChange(t) =>
      if t == s.threshold then s
      else s.(threshold := t, alarm := RangeEffect(s.alarm, s.ble.rssi, t))
    case Tick =>
      s.(alarm := TickAlarm(s.alarm))
    case Reset =>
      s.(scanning := false,
         ble := s.ble.(connectedDevice := None, deviceSearching := false),
         alarm := SetStartCountdown(s.alarm.(rssiAlert := false), false))
    case ScanPressed(os, apiLevel, answers) =>
      if RequestPermissions(os, apiLevel, answers).granted then s.(scanning := true) else s
  }

  function Run(s: Screen, es: seq<Event>): Screen
    decreases |es|
  {
    if es == [] then s else Run(Step(s, es[0]), es[1..])
  }

  /**
   * What holds in every reachable state. The countdown stays within 0..10;
   * the interval runs only while armed and before the alert; a raised alert
   * means armed, interval stopped and countdown cleared; the screen is armed
   * only while the current sample is out of range, and whenever it is armed
   * either the interval runs or the alert is up.
   */
  predicate AlarmInv(a: Alarm)
  {
    (a.countdown.Some? ==> 0 <= a.countdown.value <= CountdownStart) &&
    (a.intervalActive ==> a.startCountdown && a.countdown.Some? && !a.rssiAlert) &&
    (a.rssiAlert ==> a.startCountdown && !a.intervalActive && a.countdown.None?) &&
    (a.startCountdown ==> a.intervalActive || a.rssiAlert)
  }

  predicate Inv(s: Screen)
  {
    ValidThreshold(s.threshold) && Consistent(s.ble) && AlarmInv(s.alarm) &&
    (s.alarm.startCountdown ==> OutOfRange(s.ble.rssi, s.threshold))
  }

  lemma InitialInv()
    ensures Inv(InitialScreen)
  {
  }

  lemma StepPreservesInv(s: Screen, e: Event)
    requires Inv(s) && ValidEvent(e)
    ensures Inv(Step(s, e))
  {
  }

  lemma {:induction false} RunPreservesInv(s: Screen, es: seq<Event>)
    requires Inv(s)
    requires forall i :: 0 <= i < |es| ==> ValidEvent(es[i])
    ensures Inv(Run(s, es))
    decreases |es|
  {
    if es != [] {
      StepPreservesInv(s, es[0]);
      RunPreservesInv(Step(s, es[0]), es[1..]);
    }
  }

  /** Armed just now: interval running, countdown at its full start value, no alert. */
  predicate FreshlyArmed(a: Alarm)
  {
    a.startCountdown && a.intervalActive && a.countdown == Some(CountdownStart) && !a.rssiAlert
  }

  /**
   * A beacon sample at or above the threshold (equality counts as in range)
   * disarms: the flag goes off, the interval stops and any raised alert is
   * cleared. The countdown is cleared too, unless the sample leaves the
   * signal strength as it was, in which case the effect does not run.
   */
  lemma InRangeSampleDisarms(s: Screen, d: Device)
    requires Inv(s) && s.scanning && d.name == Some(BeaconName)
    requires !OutOfRange(ReportedRssi(d), s.threshold)
    ensures var r := Step(s, ScanResult(false, Some(d)));
      !r.alarm.startCountdown && !r.alarm.intervalActive && !r.alarm.rssiAlert &&
      (ReportedRssi(d) != s.ble.rssi || s.alarm.startCountdown ==> r.alarm.countdown.None?) &&
      r.alarm.alarmsRaised == s.alarm.alarmsRaised
  {
  }

  /** A threshold change that puts the current sample in range disarms in the same way. */
  lemma InRangeThresholdDisarms(s: Screen, t: int)
    requires Inv(s) && ValidThreshold(t) && !OutOfRange(s.ble.rssi, t)
    ensures var r := Step(s, ThresholdChange(t));
      !r.alarm.startCountdown && !r.alarm.intervalActive && !r.alarm.rssiAlert &&
      (t != s.threshold || s.alarm.startCountdown ==> r.alarm.countdown.None?)
  {
  }

  /**
   * Arming by a new out-of-range sample starts the countdown at 10 whatever
   * partial count was left over.
   */
  lemma OutOfRangeSampleArmsAtTen(s: Screen, d: Device)
    requires Inv(s) && s.scanning && !s.alarm.startCountdown && d.name == Some(BeaconName)
    requires OutOfRange(ReportedRssi(d), s.threshold) && ReportedRssi(d) != s.ble.rssi
    ensures FreshlyArmed(Step(s, ScanResult(false, Some(d))).alarm)
  {
  }

  /** Arming by a threshold change starts the countdown at 10 as well. */
  lemma OutOfRangeThresholdArmsAtTen(s: Screen, t: int)
    requires Inv(s) && !s.alarm.startCountdown && ValidThreshold(t) && t != s.threshold
    requires OutOfRange(s.ble.rssi, t)
    ensures FreshlyArmed(Step(s, ThresholdChange(t)).alarm)
  {
  }

  /**
   * While armed, further out-of-range samples change nothing in the alarm:
   * the flag is already on, so the countdown is not restarted.
   */
  lemma OutOfRangeSampleKeepsCountdown(s: Screen, d: Device)
    requires Inv(s) && s.alarm.startCountdown && OutOfRange(ReportedRssi(d), s.threshold)
    ensures Step(s, ScanResult(false, Some(d))).alarm == s.alarm
  {
  }

  /** A firing with the countdown above 0 lowers it by exactly one and changes nothing else. */
  lemma TickCountsDown(a: Alarm)
    requires AlarmInv(a) && a.intervalActive && a.countdown.value > 0
    ensures TickAlarm(a) == a.(countdown := Some(a.countdown.value - 1))
    ensures TickAlarm(a).countdown.value >= 0
  {
  }

  /**
   * The firing that finds the countdown at 0 stops the interval, raises the
   * alert, clears the countdown and shows one more dialog.
   */
  lemma TickAtZeroFires(a: Alarm)
    requires AlarmInv(a) && a.intervalActive && a.countdown == Some(0)
    ensures TickAlarm(a) == a.(intervalActive := false, rssiAlert := true, countdown := None,
                               alarmsRaised := a.alarmsRaised + 1)
  {
  }

  /** Once the interval has stopped, further seconds change nothing. */
  lemma {:induction false} StoppedTicksChangeNothing(a: Alarm, n: nat)
    requires !a.intervalActive
    ensures Ticks(a, n) == a
    decreases n
  {
    if n > 0 {
      StoppedTicksChangeNothing(TickAlarm(a), n - 1);
    }
  }

  lemma {:induction false} TicksAdd(a: Alarm, m: nat, n: nat)
    ensures Ticks(a, m + n) == Ticks(Ticks(a, m), n)
    decreases m
  {
    if m > 0 {
      TicksAdd(TickAlarm(a), m - 1, n);
    }
  }

  /** With `n` seconds left on the countdown, `n` firings bring it to 0 and raise nothing. */
  lemma {:induction false} CountdownElapses(a: Alarm, n: nat)
    requires AlarmInv(a) && a.intervalActive && n <= a.countdown.value
    ensures Ticks(a, n) == a.(countdown := Some(a.countdown.value - n))
    decreases n
  {
    if n > 0 {
      CountdownElapses(TickAlarm(a), n - 1);
    }
  }

  /**
   * From arming, the alert goes up on exactly the 11th firing (10 firings
   * count down from 10 to 0, the next finds 0), and the dialog is shown
   * exactly once however long the interval is left alone afterwards.
   */
  lemma AlarmOnEleventhTick(a: Alarm, n: nat)
    requires FreshlyArmed(a)
    ensures Ticks(a, n).rssiAlert <==> n > CountdownStart
    ensures Ticks(a, n).alarmsRaised == a.alarmsRaised + (if n > CountdownStart then 1 else 0)
    ensures n <= CountdownStart ==> Ticks(a, n).countdown == Some(CountdownStart - n)
    ensures n > CountdownStart ==> !Ticks(a, n).intervalActive && Ticks(a, n).countdown.None?
  {
    if n <= CountdownStart {
      CountdownElapses(a, n);
    } else {
      var zero := a.(countdown := Some(0));
      CountdownElapses(a, CountdownStart);
      TicksAdd(a, CountdownStart, 1);
      assert Ticks(zero, 1) == TickAlarm(zero);
      var fired := Ticks(a, CountdownStart + 1);
      TicksAdd(a, CountdownStart + 1, n - CountdownStart - 1);
      StoppedTicksChangeNothing(fired, n - CountdownStart - 1);
    }
  }

  /** An event that does not bring the beacon back in range for the given threshold. */
  predicate KeepsSeparation(e: Event, threshold: int)
  {
    e.Tick? ||
    (e.ScanResult? && (e.error || !IsBeacon(e.device) || OutOfRange(ReportedRssi(e.device.value), threshold)))
  }

  function TickCount(es: seq<Event>): nat
    decreases |es|
  {
    if es == [] then 0 else (if es[0].Tick? then 1 else 0) + TickCount(es[1..])
  }

  /**
   * While armed, and as long as no sample brings the beacon back in range
   * and the threshold stays, the alarm evolves by the firings alone: samples
   * in between neither restart nor disturb the countdown.
   */
  lemma {:induction false} SeparationOnlyTicksMatter(s: Screen, es: seq<Event>)
    requires Inv(s) && s.alarm.startCountdown
    requires forall i :: 0 <= i < |es| ==> KeepsSeparation(es[i], s.threshold)
    ensures Inv(Run(s, es)) && Run(s, es).threshold == s.threshold
    ensures Run(s, es).alarm == Ticks(s.alarm, TickCount(es))
    decreases |es|
  {
    if es != [] {
      var next := Step(s, es[0]);
      StepPreservesInv(s, es[0]);
      assert next.alarm == (if es[0].Tick? then TickAlarm(s.alarm) else s.alarm);
      assert forall i :: 0 <= i < |es[1..]| ==> es[1..][i] == es[i + 1];
      SeparationOnlyTicksMatter(next, es[1..]);
    }
  }

  /**
   * A sustained separation: from arming, with only separation-keeping events
   * after, the alert is up exactly once more than 10 seconds have passed,
   * and the dialog has then been shown exactly once.
   */
  lemma SustainedSeparationRaisesAlarmOnce(s: Screen, es: seq<Event>)
    requires Inv(s) && FreshlyArmed(s.alarm)
    requires forall i :: 0 <= i < |es| ==> KeepsSeparation(es[i], s.threshold)
    ensures Run(s, es).alarm.rssiAlert <==> TickCount(es) > CountdownStart
    ensures Run(s, es).alarm.alarmsRaised == s.alarm.alarmsRaised + (if TickCount(es) > CountdownStart then 1 else 0)
  {
    SeparationOnlyTicksMatter(s, es);
    AlarmOnEleventhTick(s.alarm, TickCount(es));
  }

  /**
   * An interruption gives no partial credit: the beacon coming back in range
   * and then leaving again restarts the countdown at 10.
   */
  lemma InterruptionRestartsCountdown(s: Screen, back: Device, away: Device)
    requires Inv(s) && s.scanning && s.alarm.startCountdown
    requires back.name == Some(BeaconName) && !OutOfRange(ReportedRssi(back), s.threshold)
    requires away.name == Some(BeaconName) && OutOfRange(ReportedRssi(away), s.threshold)
    ensures FreshlyArmed(Run(s, [ScanResult(false, Some(back)), ScanResult(false, Some(away))]).alarm)
  {
    var es := [ScanResult(false, Some(back)), ScanResult(false, Some(away))];
    var mid := Step(s, es[0]);
    StepPreservesInv(s, es[0]);
    OutOfRangeSampleArmsAtTen(mid, away);
    assert es[1..] == [es[1]] && es[1..][1..] == [];
    assert Run(s, es) == Run(mid, [es[1]]) == Step(mid, es[1]);
  }

  /**
   * `resetApp`: the scan stops, the beacon is forgotten, the search flag and
   * the alert are cleared and the flag goes off, which stops the interval.
   * The countdown value itself is left as it was.
   */
  lemma ResetDisarms(s: Screen)
    requires Inv(s)
    ensures var r := Step(s, Reset);
      Inv(r) && !r.scanning && r.ble.connectedDevice.None? && !r.ble.deviceSearching &&
      !r.alarm.startCountdown && !r.alarm.intervalActive && !r.alarm.rssiAlert &&
      r.alarm.countdown == s.alarm.countdown && r.ble.rssi == s.ble.rssi && r.threshold == s.threshold
  {
  }

  /** Resetting twice is the same as resetting once. */
  lemma ResetIdempotent(s: Screen)
    ensures Step(Step(s, Reset), Reset) == Step(s, Reset)
  {
  }

  /**
   * After a reset and a new scan, a beacon sample out of range with a new
   * signal strength arms afresh at 10.
   */
  lemma RearmAfterResetStartsAtTen(s: Screen, os: Os, apiLevel: Option<int>, answers: Answers, d: Device)
    requires Inv(s) && RequestPermissions(os, apiLevel, answers).granted
    requires d.name == Some(BeaconName) && OutOfRange(ReportedRssi(d), s.threshold) && ReportedRssi(d) != s.ble.rssi
    ensures FreshlyArmed(Run(s, [Reset, ScanPressed(os, apiLevel, answers), ScanResult(false, Some(d))]).alarm)
  {
    var es := [Reset, ScanPressed(os, apiLevel, answers), ScanResult(false, Some(d))];
    var reset := Step(s, es[0]);
    var rescanned := Step(reset, es[1]);
    assert es[1..] == [es[1], es[2]] && es[1..][1..] == [es[2]] && es[1..][1..][1..] == [];
    assert Run(s, es) == Run(reset, [es[1], es[2]]) == Run(rescanned, [es[2]]) == Step(rescanned, es[2]);
  }

  /**
   * After a reset and a new scan, a beacon sample with the signal strength
   * it had before does not arm, even out of range: the effect's
   * dependencies did not change, so it does not run.
   */
  lemma ResetThenUnchangedRssiStaysDisarmed(s: Screen, os: Os, apiLevel: Option<int>, answers: Answers, d: Device)
    requires Inv(s) && RequestPermissions(os, apiLevel, answers).granted
    requires d.name == Some(BeaconName) && ReportedRssi(d) == s.ble.rssi
    ensures var r := Run(s, [Reset, ScanPressed(os, apiLevel, answers), ScanResult(false, Some(d))]);
      !r.alarm.startCountdown && !r.alarm.intervalActive && r.ble.connectedDevice == Some(d)
  {
    var es := [Reset, ScanPressed(os, apiLevel, answers), ScanResult(false, Some(d))];
    var reset := Step(s, es[0]);
    var rescanned := Step(reset, es[1]);
    assert es[1..] == [es[1], es[2]] && es[1..][1..] == [es[2]] && es[1..][1..][1..] == [];
    assert Run(s, es) == Run(reset, [es[1], es[2]]) == Run(rescanned, [es[2]]) == Step(rescanned, es[2]);
  }

  /** An event that delivers the beacon's signal strength. */
  predicate BeaconSample(e: Event)
  {
    e.ScanResult? && !e.error && IsBeacon(e.device)
  }

  /**
   * The initial signal strength 0 is above every threshold the slider
   * offers, so nothing arms before the beacon's first sample, whatever the
   * slider, the timer, reset and the scan button do.
   */
  lemma {:induction false} NoAlarmBeforeFirstBeacon(s: Screen, es: seq<Event>)
    requires s.ble.rssi == InitialRssi && s.alarm == IdleAlarm
    requires forall i :: 0 <= i < |es| ==> ValidEvent(es[i]) && !BeaconSample(es[i])
    ensures Run(s, es).alarm == IdleAlarm && Run(s, es).ble.rssi == InitialRssi
    decreases |es|
  {
    if es != [] {
      assert forall i :: 0 <= i < |es[1..]| ==> es[1..][i] == es[i + 1];
      NoAlarmBeforeFirstBeacon(Step(s, es[0]), es[1..]);
    }
  }

  lemma InitialScreenStaysIdle(es: seq<Event>)
    requires forall i :: 0 <= i < |es| ==> ValidEvent(es[i]) && !BeaconSample(es[i])
    ensures Run(InitialScreen, es).alarm == IdleAlarm
  {
    NoAlarmBeforeFirstBeacon(InitialScreen, es);
  }
}
