# Proximity alarm of the beacon companion app

This project models the decision logic of a React Native app that watches a
Bluetooth beacon ("Holy-IOT") and raises an alarm when the beacon's signal
strength (RSSI) stays below a user-chosen threshold. The model is written in
Dafny and its properties are proved.

It covers two source files:

- `HomeScreen.tsx`. The screen keeps three pieces of alarm state:
  `startCountdown`, `countdown` and `rssiAlert`. Two effects drive them. The
  first runs whenever the RSSI or the threshold changes, and arms or disarms
  the alarm. The second runs whenever `startCountdown` changes. When it is
  switched on, it sets the countdown to 10 and starts a one-second interval.
  When it is switched off, its cleanup stops that interval. Each firing of
  the interval lowers the countdown. The firing that finds 0 stops the
  interval, raises the alert and shows the "Alarm" dialog. The file also has
  `resetApp`, the bar colour `getBarColor` and the threshold slider's range
  (-100 to -30, starting at -70).
- `useBLE.ts`. This holds the scan callback, which updates `deviceSearching`,
  `connectedDevice` and `rssi`, and the permission decision of
  `requestPermissions`.

Modules:

- `Wrappers`: `Option`, which stands for the source's nullable values.
- `Permissions`: the permission decision as a pure function. The answer
  each permission request resolves with is an input. The result records
  whether scanning may start and which permissions were requested, in order.
- `BleScan`: the scan callback as a pure function `ScanCallback`, and the
  class `BleHook` that holds the hook's state. `BleHook.OnScanResult` is
  proved to perform `ScanCallback`. The other methods are proved to change
  only the listener flag or the one field they set.
- `ProximityAlarm`: the whole screen as a transition system. `Step` applies
  one `Event` to a `Screen`. The events are a scan result, a slider move, one
  second passing, reset, and the scan button. `Step` performs the React
  state updates and then the effects whose dependencies changed: an effect
  runs only when a dependency changes value. `Inv` is the invariant that
  every reachable state keeps. The lemmas state the alarm's timing and
  reset behaviour.
- `Monitor`: the class `HomeScreen`. It has its own alarm fields and owns a
  `BleHook`. Its five event methods (`OnScanResult`, `OnThresholdChange`,
  `Tick`, `Reset`, `HandleScan`) are proved to change the object exactly as
  `ProximityAlarm.Step` changes the model, so every lemma about `Step`
  holds of the object. The two effect methods they use,
  `ApplyStartCountdown` and `RunRangeEffect`, are proved equal to
  `ProximityAlarm.SetStartCountdown` and `ProximityAlarm.RangeEffect`.
  `ScenarioSustainedSeparation` is a verified client. It arms the alarm
  with a -80 dBm beacon at the default threshold and keeps delivering
  samples. The alert stays down after 10 seconds and is up,
  with one dialog shown, after the 11th.

Points where the code's behaviour differs from what one might expect of
such an alarm:

- The grace period is the constant 10. The alert goes up on the 11th firing
  after arming: 10 firings count down from 10 to 0, and the next one finds 0.
  The dialog text still says "10 Sekunden" (`HomeScreen.tsx:51`).
- An in-range sample or threshold change clears an alert that was already
  raised (`HomeScreen.tsx:34-38`). Reset is not the only way out of the
  alarm, as it would be in a design that demands explicit acknowledgement.
- There is no separate "disconnected" signal that counts as out of range.
  A beacon that goes silent produces no more samples. The last RSSI stays,
  and the countdown continues or not depending on that value.
- An effect runs only when a dependency changes. After a reset while the
  beacon is still out of range, a new sample with the same RSSI does not arm
  again (`ResetThenUnchangedRssiStaysDisarmed`).
- There is no emergency notification, with or without retries, in these files.

## Model

| member | source | states |
|---|---|---|
| `Permissions.EffectiveApiLevel` | useBLE.ts:62 | a missing API level counts as -1, below 31; a present one is used as is |
| `Permissions.RequestAndroid31Permissions` | useBLE.ts:27-58 | all three permissions (scan, connect, fine location) are always requested, in that order; the result is true iff every one resolved as "granted" |
| `Permissions.RequestPermissions` | useBLE.ts:60-81 | granted iff every permission requested was granted; off Android nothing is requested and permission is granted; on Android below level 31 only fine location is asked and decides; from 31 on all three must be granted |
| `Permissions.UnknownApiLevelIsLegacy` | useBLE.ts:62 | an unknown API level gives the same decision as any known level below 31 |
| `Permissions.DecisionDependsOnlyOnPrompts` | useBLE.ts:60-81 | two sets of answers that agree on the permissions actually requested give the same decision |
| `Permissions.ModernLevelIsStricter` | useBLE.ts:53-71 | answers accepted at level 31 or above are also accepted below 31 |
| `BleScan.ReportedRssi` | useBLE.ts:94 | the device's RSSI when present, otherwise 0 |
| `BleScan.ScanCallback` | useBLE.ts:84-97 | the search stays flagged as running iff there was an error or the result is not a device named exactly "Holy-IOT"; in that case only the flag changes; a consistent state (connected device is the beacon and its RSSI is recorded) stays consistent |
| `BleScan.BeaconResultConnects` | useBLE.ts:92-96 | a beacon result without error connects that device, records its RSSI (0 when absent) and ends the search, whatever the state before |
| `BleScan.ScanCallbackIdempotent` | useBLE.ts:84-97 | delivering the same scan result twice (duplicate advertisements are allowed) has the effect of delivering it once |
| `BleScan.BleHook.constructor` | useBLE.ts:23-25 | no device, RSSI 0, not searching, no scan listener |
| `BleScan.BleHook.ScanForPeripherals` | useBLE.ts:83-84 | registers the scan listener and changes no hook state |
| `BleScan.BleHook.StopScan` | useBLE.ts:100-102 | removes the scan listener and changes no hook state |
| `BleScan.BleHook.OnScanResult` | useBLE.ts:84-97 | the new hook state is `ScanCallback` of the old one; the listener stays as it was |
| `BleScan.BleHook.SetConnectedDevice` | useBLE.ts:23 | replaces the connected device only |
| `BleScan.BleHook.SetDeviceSearching` | useBLE.ts:25 | replaces the search flag only |
| `ProximityAlarm.BarColor` | HomeScreen.tsx:68-72 | total: green iff RSSI >= -50, yellow iff -70 <= RSSI < -50, red iff RSSI < -70 |
| `ProximityAlarm.BarColorMonotone` | HomeScreen.tsx:68-72 | a stronger signal never gets a weaker colour |
| `ProximityAlarm.SetStartCountdown` | HomeScreen.tsx:41-59 | the flag takes the new value; the effect runs only when the flag changes (otherwise nothing changes); switching on starts the interval with the countdown at 10; switching off runs the cleanup that stops the interval and keeps the countdown value; the alert and the dialog count are untouched |
| `ProximityAlarm.RangeEffect` | HomeScreen.tsx:31-39 | armed afterwards iff RSSI < threshold (equality is in range); in range clears the alert and the countdown and stops the interval; out of range while armed changes nothing; out of range while disarmed starts the interval at 10; keeps the alarm invariant |
| `ProximityAlarm.TickAlarm` | HomeScreen.tsx:44-55 | never changes the armed flag; keeps the alarm invariant (countdown within 0..10); shows at most one dialog, and shows one exactly when the alert goes up |
| `ProximityAlarm.Step` | HomeScreen.tsx:31-80 | a scan result that leaves the RSSI as it was leaves the alarm as it was (the range effect does not re-run); a slider move to the current value changes nothing; only a firing of the interval can show a dialog, and at most one; only the slider changes the threshold |
| `ProximityAlarm.InitialInv` | HomeScreen.tsx:26-29 | the initial screen satisfies the invariant |
| `ProximityAlarm.StepPreservesInv` | HomeScreen.tsx:31-59 | every event keeps the invariant: the interval runs only while armed and before the alert, a raised alert means armed with interval stopped and countdown cleared, and armed implies the current sample is out of range |
| `ProximityAlarm.RunPreservesInv` | HomeScreen.tsx:31-59 | any sequence of events with slider values in range keeps the invariant |
| `ProximityAlarm.InRangeSampleDisarms` | HomeScreen.tsx:31-39 | a beacon sample at or above the threshold disarms, stops the interval and clears any alert, including one already raised; the countdown is cleared unless the RSSI did not change |
| `ProximityAlarm.InRangeThresholdDisarms` | HomeScreen.tsx:31-39 | a threshold change that puts the current sample in range disarms in the same way |
| `ProximityAlarm.OutOfRangeSampleArmsAtTen` | HomeScreen.tsx:41-44 | a new out-of-range beacon sample arms a disarmed screen with the countdown at exactly 10, whatever partial count was left |
| `ProximityAlarm.OutOfRangeThresholdArmsAtTen` | HomeScreen.tsx:41-44 | a threshold change that puts the sample out of range arms with the countdown at exactly 10 |
| `ProximityAlarm.OutOfRangeSampleKeepsCountdown` | HomeScreen.tsx:31-59 | while armed, a further out-of-range sample leaves the alarm state unchanged and does not restart the countdown |
| `ProximityAlarm.TickCountsDown` | HomeScreen.tsx:45-47 | a firing with countdown above 0 lowers it by exactly 1, never below 0, and changes nothing else |
| `ProximityAlarm.TickAtZeroFires` | HomeScreen.tsx:48-52 | a firing that finds the countdown at 0 stops the interval, raises the alert, clears the countdown and shows exactly one more dialog |
| `ProximityAlarm.StoppedTicksChangeNothing` | HomeScreen.tsx:49 | once the interval is stopped, any number of further seconds change nothing |
| `ProximityAlarm.CountdownElapses` | HomeScreen.tsx:43-47 | with n seconds left, n firings bring the countdown down by n and raise nothing |
| `ProximityAlarm.AlarmOnEleventhTick` | HomeScreen.tsx:43-52 | from arming, the alert is up after n firings iff n > 10; exactly one dialog is shown from then on; afterwards the interval is stopped and the countdown cleared |
| `ProximityAlarm.SeparationOnlyTicksMatter` | HomeScreen.tsx:31-59 | while armed, after any sequence of ticks and scan results that keep the beacon out of range, the alarm equals the alarm after just the ticks; slider moves, reset and the scan button are not covered |
| `ProximityAlarm.SustainedSeparationRaisesAlarmOnce` | HomeScreen.tsx:31-55 | from arming, with samples and ticks that keep the beacon out of range, the alert is up iff more than 10 seconds passed, and then exactly one dialog was shown |
| `ProximityAlarm.InterruptionRestartsCountdown` | HomeScreen.tsx:31-44 | a sample back in range followed by one out of range re-arms with the full countdown of 10 |
| `ProximityAlarm.ResetDisarms` | HomeScreen.tsx:74-80 | reset stops the scan, forgets the device, clears the searching flag and the alert, and disarms, which stops the interval; RSSI, threshold and countdown value are untouched |
| `ProximityAlarm.ResetIdempotent` | HomeScreen.tsx:74-80 | resetting twice is the same as resetting once |
| `ProximityAlarm.RearmAfterResetStartsAtTen` | HomeScreen.tsx:74-80 | after reset and a granted rescan, a new out-of-range sample arms at 10 |
| `ProximityAlarm.ResetThenUnchangedRssiStaysDisarmed` | HomeScreen.tsx:31-39 | after reset and rescan, a beacon sample with the RSSI it had before reconnects the beacon but does not arm |
| `ProximityAlarm.NoAlarmBeforeFirstBeacon` | useBLE.ts:24 | starting from RSSI 0 and an idle alarm, no event other than a beacon sample (slider within range, ticks, reset, scan button, other devices, errors) ever arms or raises anything |
| `ProximityAlarm.InitialScreenStaysIdle` | HomeScreen.tsx:94-95 | because 0 is above the highest slider value -30, the initial screen stays idle until the beacon's first sample |
| `Monitor.HomeScreen.constructor` | HomeScreen.tsx:26-29 | the object starts in the initial screen state and satisfies the invariant |
| `Monitor.HomeScreen.ApplyStartCountdown` | HomeScreen.tsx:41-59 | setting the armed flag runs the second effect only when the flag changes |
| `Monitor.HomeScreen.RunRangeEffect` | HomeScreen.tsx:31-39 | performs `RangeEffect` on the object's alarm fields |
| `Monitor.HomeScreen.OnScanResult` | useBLE.ts:84-97 | performs `Step` for a scan result and keeps the invariant |
| `Monitor.HomeScreen.OnThresholdChange` | HomeScreen.tsx:92-98 | performs `Step` for a slider move within range and keeps the invariant |
| `Monitor.HomeScreen.Tick` | HomeScreen.tsx:44-55 | performs `Step` for one second and keeps the invariant |
| `Monitor.HomeScreen.Reset` | HomeScreen.tsx:74-80 | performs `Step` for `resetApp` and keeps the invariant |
| `Monitor.HomeScreen.HandleScan` | HomeScreen.tsx:61-66 | starts scanning iff the permission decision grants it, and keeps the invariant |

## Left out

- The BLE transport (`BleManager`, `startDeviceScan`, `stopDeviceScan`) is not modelled. The scan listener is a boolean, and each result it delivers is an input. A result delivered while no listener is registered has no effect.
- The system permission requests are not modelled, nor whether Android shows a dialog for them. The value each request resolves with is an input.
- Real time is not modelled. `setInterval` is one `Tick` event per firing, delivered only while the interval runs. Effects run at once, after the state updates of the same event.
- The "Alarm" dialog (`Alert.alert`) is modelled only as the counter `alarmsRaised`. Its text, which embeds the threshold, is not modelled.
- Rendering, styles and the RSSI bar width are not modelled, and neither is the conditional display of the countdown and alert text.
- Buttons are not tied to what the screen shows. The model lets reset, the scan button and the slider act in any state. This is a superset of the screen's behaviours, so the invariants hold a fortiori.
- `Monitor.HomeScreen.OnThresholdChange`: requires a value within the slider's range -100..-30, the only values the slider delivers.
- The following files are contextual and not part of this model: `useLocation.ts`, `useAudioPlayer.ts`, `HoldButton.jsx`, `App.tsx` and `SettingsScreen.tsx`. They hold location and audio I/O, an animation and navigation.
- Emergency notification with retry: no code for it exists in these files.
