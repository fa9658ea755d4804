/**
 * The decision rule of `requestPermissions` and `requestAndroid31Permissions`
 * in useBLE.ts. The operating system's permission requests are not modelled:
 * the answer to each request is an input, and the decision records which
 * permissions were requested, in order, and whether scanning may start.
 */
module Permissions {
  import opened Wrappers

  /** The values of `Platform.OS`. */
  datatype Os = Android | Ios | Web | Windows | Macos

  /** The Android runtime permissions the app asks for. */
  datatype Permission = BluetoothScan | BluetoothConnect | AccessFineLocation

  /** The values of `PermissionsAndroid.RESULTS`. */
  datatype Status = Granted | Denied | NeverAskAgain

  /** The answer each permission request resolves with. */
  datatype Answers = Answers(scan: Status, connect: Status, fineLocation: Status)

  function AnswerTo(a: Answers, p: Permission): Status
  {
    match p
    case BluetoothScan => a.scan
    case BluetoothConnect => a.connect
    case AccessFineLocation => a.fineLocation
  }

  /** The first Android API level with the separate Bluetooth permissions. */
  const Android31ApiLevel: int := 31

  /** Whether scanning may start, and the permissions requested to get there. */
  datatype Decision = Decision(granted: bool, prompts: seq<Permission>)

  /** Every permission that was requested resolved as "granted". */
  predicate AllPromptsGranted(d: Decision, a: Answers)
  {
    forall p :: p in d.prompts ==> AnswerTo(a, p) == Granted
  }

  /** `platformApiLevel ?? -1`: an unknown API level counts as -1. */
  function EffectiveApiLevel(apiLevel: Option<int>): (level: int)
    ensures apiLevel.None? ==> level == -1 && level < Android31ApiLevel
    ensures apiLevel.Some? ==> level == apiLevel.value
  {
    apiLevel.GetOr(-1)
  }

  /**
   * `requestAndroid31Permissions`: the three permissions are requested one
   * after the other, all three are always requested (the `&&` comes after
   * the last `await`), and the result is true iff all three were granted.
   */
  function RequestAndroid31Permissions(a: Answers): (d: Decision)
    ensures d.prompts == [BluetoothScan, BluetoothConnect, AccessFineLocation]
    ensures d.granted <==> AllPromptsGranted(d, a)
  {
    var prompts := [BluetoothScan, BluetoothConnect, AccessFineLocation];
    var d := Decision(a.scan == Granted && a.connect == Granted && a.fineLocation == Granted, prompts);
    assert AnswerTo(a, prompts[0]) == a.scan && AnswerTo(a, prompts[1]) == a.connect;
    assert AnswerTo(a, prompts[2]) == a.fineLocation;
    assert forall p :: p in prompts ==> p == prompts[0] || p == prompts[1] || p == prompts[2];
    d
  }

  /**
   * `requestPermissions`: off Android nothing is asked and the answer is yes;
   * below API level 31 only fine location is asked; from 31 on the three
   * permissions of `RequestAndroid31Permissions` are asked.
   */
  function RequestPermissions(os: Os, apiLevel: Option<int>, a: Answers): (d: Decision)
    ensures d.granted <==> AllPromptsGranted(d, a)
    ensures os != Android ==> d.granted && d.prompts == []
    ensures os == Android && EffectiveApiLevel(apiLevel) < Android31ApiLevel ==>
              d.prompts == [AccessFineLocation] && (d.granted <==> a.fineLocation == Granted)
    ensures os == Android && EffectiveApiLevel(apiLevel) >= Android31ApiLevel ==>
              d.prompts == [BluetoothScan, BluetoothConnect, AccessFineLocation] &&
              (d.granted <==> a.scan == Granted && a.connect == Granted && a.fineLocation == Granted)
  {
    if os == Android then
      if EffectiveApiLevel(apiLevel) < Android31ApiLevel then
        var d := Decision(a.fineLocation == Granted, [AccessFineLocation]);
        assert AnswerTo(a, d.prompts[0]) == a.fineLocation;
        d
      else
        var d := RequestAndroid31Permissions(a);
        assert d.prompts[0] == BluetoothScan && d.prompts[1] == BluetoothConnect && d.prompts[2] == AccessFineLocation;
        d
    else
      Decision(true, [])
  }

  /** An unknown API level is treated like every level below 31. */
  lemma UnknownApiLevelIsLegacy(os: Os, level: int, a: Answers)
    requires level < Android31ApiLevel
    ensures RequestPermissions(os, None, a) == RequestPermissions(os, Some(level), a)
  {
  }

  /** The decision depends only on the answers to the permissions actually requested. */
  lemma DecisionDependsOnlyOnPrompts(os: Os, apiLevel: Option<int>, a: Answers, b: Answers)
    requires forall p :: p in RequestPermissions(os, apiLevel, a).prompts ==> AnswerTo(a, p) == AnswerTo(b, p)
    ensures RequestPermissions(os, apiLevel, a) == RequestPermissions(os, apiLevel, b)
  {
  }

  /** Whatever is granted from API level 31 on is also granted below it. */
  lemma ModernLevelIsStricter(a: Answers, modern: int, legacy: int)
    requires legacy < Android31ApiLevel <= modern
    ensures RequestPermissions(Android, Some(modern), a).granted ==> RequestPermissions(Android, Some(legacy), a).granted
  {
  }
}
