/** android/app/src/main/java/com/wifiheatmap/WifiRttModule.kt: the ranging
    quality score, the choice of access points for one multi-AP ranging
    request, and the conversion of ranging results into the array resolved to
    JavaScript. The radio, the broadcast receiver and the permission system are
    inputs. */
module WifiRttModule {
  import opened Wrappers

  /** Largest number of access points in one ranging request. */
  const MaxRttApsPerRequest: nat := 10

  /** `Build.VERSION_CODES.M` and `Build.VERSION_CODES.P`. */
  const VersionCodeM: int := 23
  const VersionCodeP: int := 28

  /** `RangingResult.STATUS_SUCCESS`. */
  const StatusSuccess: int := 0

  /** `x.coerceIn(0.0, 1.0)`. */
  function Clamp01(x: real): (c: real)
    ensures 0.0 <= c <= 1.0
    ensures 0.0 <= x <= 1.0 ==> c == x
    ensures x < 0.0 ==> c == 0.0
    ensures x > 1.0 ==> c == 1.0
  {
    if x < 0.0 then 0.0 else if x > 1.0 then 1.0 else x
  }

  lemma Clamp01Monotone(x: real, y: real)
    requires x <= y
    ensures Clamp01(x) <= Clamp01(y)
  {
  }

  /** The RSSI part of the score: 70% of the RSSI normalised from
      -100..-30 dBm onto 0..1. */
  function RssiTerm(rssi: int): (t: real)
    ensures 0.0 <= t <= 0.7
    ensures rssi <= -100 ==> t == 0.0
    ensures rssi >= -30 ==> t == 0.7
    ensures -100 <= rssi <= -30 ==> t * 100.0 == (rssi + 100) as real
  {
    0.7 * Clamp01((rssi + 100) as real / 70.0)
  }

  /** The distance part of the score: 30% of the closeness, which falls
      linearly from 1 at 0 m to 0 at 50 m. */
  function DistanceTerm(distanceMm: int): (t: real)
    ensures 0.0 <= t <= 0.3
    ensures distanceMm <= 0 ==> t == 0.3
    ensures distanceMm >= 50000 ==> t == 0.0
    ensures 0 <= distanceMm <= 50000 ==> t == 0.3 * (1.0 - distanceMm as real / 50000.0)
  {
    var distanceM := distanceMm as real / 1000.0;
    0.3 * (1.0 - Clamp01(distanceM / 50.0))
  }

  /** `calculateSignalQuality`, with `rssi + 100` computed without overflow
      (see `CalculateSignalQualityAsWritten` for the 32-bit version): a score
      between 0 (worst) and 1 (best). */
  function CalculateSignalQuality(rssi: int, distanceMm: int): (quality: real)
    ensures 0.0 <= quality <= 1.0
    ensures quality == RssiTerm(rssi) + DistanceTerm(distanceMm)
    ensures rssi >= -30 && distanceMm <= 0 ==> quality == 1.0
    ensures rssi <= -100 && distanceMm >= 50000 ==> quality == 0.0
  {
    var normalizedRssi := (rssi + 100) as real / 70.0;
    var clampedRssi := Clamp01(normalizedRssi);
    var distanceM := distanceMm as real / 1000.0;
    var normalizedDistance := 1.0 - Clamp01(distanceM / 50.0);
    (0.7 * clampedRssi) + (0.3 * normalizedDistance)
  }

  /** A stronger or closer access point never scores lower. */
  lemma SignalQualityMonotone(rssi1: int, distanceMm1: int, rssi2: int, distanceMm2: int)
    requires rssi1 <= rssi2 && distanceMm2 <= distanceMm1
    ensures CalculateSignalQuality(rssi1, distanceMm1) <= CalculateSignalQuality(rssi2, distanceMm2)
  {
    Clamp01Monotone((rssi1 + 100) as real / 70.0, (rssi2 + 100) as real / 70.0);
    Clamp01Monotone(distanceMm2 as real / 1000.0 / 50.0, distanceMm1 as real / 1000.0 / 50.0);
  }

  /** Kotlin `Int` range. */
  const Int32Min: int := -0x8000_0000
  const Int32Max: int := 0x7fff_ffff

  predicate IsInt32(x: int)
  {
    Int32Min <= x <= Int32Max
  }

  /** Two's-complement wrap-around of a Kotlin `Int` result. */
  function WrapInt32(x: int): (w: int)
    ensures IsInt32(w)
    ensures IsInt32(x) ==> w == x
    ensures (w - x) % 0x1_0000_0000 == 0
  {
    (x - Int32Min) % 0x1_0000_0000 + Int32Min
  }

  /** `calculateSignalQuality` as written: `rssi + 100` is an `Int` addition
      and wraps for RSSI values within 100 of `Int.MAX_VALUE`. */
  function CalculateSignalQualityAsWritten(rssi: int, distanceMm: int): (quality: real)
    requires IsInt32(rssi) && IsInt32(distanceMm)
    ensures 0.0 <= quality <= 1.0
    ensures rssi + 100 <= Int32Max ==> quality == CalculateSignalQuality(rssi, distanceMm)
  {
    0.7 * Clamp01(WrapInt32(rssi + 100) as real / 70.0) + DistanceTerm(distanceMm)
  }

  /** The wrap-around breaks monotonicity in the RSSI: the largest `Int` RSSI
      scores below -30 dBm at the same distance. */
  lemma AsWrittenOverflowCounterexample()
    ensures CalculateSignalQualityAsWritten(-30, 0) == 1.0
    ensures CalculateSignalQualityAsWritten(Int32Max, 0) == 0.3
  {
    assert WrapInt32(Int32Max + 100) == Int32Min + 99;
  }

  /** One access point from `wifiManager.scanResults`. */
  datatype ScanResult = ScanResult(bssid: string, is80211mcResponder: bool, level: int)

  /** What the module reads from the platform before ranging. */
  datatype Device = Device(sdkInt: int, hasRttManager: bool, locationPermissionGranted: bool)

  /** The rejection codes of the ranging promise. */
  datatype RttError =
    | RttUnsupported
    | PermissionDenied
    | ScanError(message: string)
    | NoRttAps
    | RttRangingFailed(code: int)

  function ErrorCode(e: RttError): string
  {
    match e
    case RttUnsupported => "RTT_UNSUPPORTED"
    case PermissionDenied => "PERMISSION_DENIED"
    case ScanError(_) => "SCAN_ERROR"
    case NoRttAps => "NO_RTT_APS"
    case RttRangingFailed(_) => "RTT_ERROR"
  }

  /** The filter predicate of `startMultipleRanging`. */
  predicate IsRangeable(sdkInt: int, ap: ScanResult)
  {
    sdkInt < VersionCodeM || ap.is80211mcResponder
  }

  /** The scan results kept by the filter, in scan order. */
  function Rangeable(sdkInt: int, scan: seq<ScanResult>): (kept: seq<ScanResult>)
    ensures |kept| <= |scan|
    ensures forall ap :: ap in kept <==> ap in scan && IsRangeable(sdkInt, ap)
  {
    if |scan| == 0 then []
    else
      var last := scan[|scan| - 1];
      Rangeable(sdkInt, scan[..|scan| - 1]) + (if IsRangeable(sdkInt, last) then [last] else [])
  }

  /** The filter keeps scan order: filtering a concatenation is concatenating
      the filtered parts. */
  lemma {:induction false} RangeableConcat(sdkInt: int, a: seq<ScanResult>, b: seq<ScanResult>)
    ensures Rangeable(sdkInt, a + b) == Rangeable(sdkInt, a) + Rangeable(sdkInt, b)
  {
    if |b| == 0 {
      assert a + b == a;
    } else {
      var n := |b| - 1;
      var tail := if IsRangeable(sdkInt, b[n]) then [b[n]] else [];
      calc {
        Rangeable(sdkInt, a + b);
        { assert (a + b)[..|a + b| - 1] == a + b[..n];
          assert (a + b)[|a + b| - 1] == b[n]; }
        Rangeable(sdkInt, a + b[..n]) + tail;
        { RangeableConcat(sdkInt, a, b[..n]); }
        Rangeable(sdkInt, a) + Rangeable(sdkInt, b[..n]) + tail;
        Rangeable(sdkInt, a) + Rangeable(sdkInt, b);
      }
    }
  }

  /** The access points of one `startMultipleRanging` request, or the code it
      rejects with. `scan` is the outcome of reading the scan results, an
      error message if that threw. */
  function SelectRangingTargets(device: Device, scan: Result<seq<ScanResult>, string>): (r: Result<seq<ScanResult>, RttError>)
    ensures device.sdkInt < VersionCodeP || !device.hasRttManager ==> r == Err(RttUnsupported)
    ensures device.sdkInt >= VersionCodeP && device.hasRttManager && !device.locationPermissionGranted ==>
              r == Err(PermissionDenied)
    ensures device.sdkInt >= VersionCodeP && device.hasRttManager && device.locationPermissionGranted ==>
              (scan.Err? ==> r == Err(ScanError(scan.error)))
              && (scan.Ok? ==> (r == Err(NoRttAps) <==> |Rangeable(device.sdkInt, scan.value)| == 0))
    ensures r.Ok? <==>
              && device.sdkInt >= VersionCodeP && device.hasRttManager && device.locationPermissionGranted
              && scan.Ok? && |Rangeable(device.sdkInt, scan.value)| > 0
    ensures r.Ok? ==>
              && scan.Ok?
              && 1 <= |r.value| <= MaxRttApsPerRequest
              && r.value <= Rangeable(device.sdkInt, scan.value)
              && (|r.value| == MaxRttApsPerRequest || r.value == Rangeable(device.sdkInt, scan.value))
  {
    if device.sdkInt < VersionCodeP || !device.hasRttManager then Err(RttUnsupported)
    else if !device.locationPermissionGranted then Err(PermissionDenied)
    else if scan.Err? then Err(ScanError(scan.error))
    else
      var kept := Rangeable(device.sdkInt, scan.value);
      var selected := if |kept| <= MaxRttApsPerRequest then kept else kept[..MaxRttApsPerRequest];
      if |selected| == 0 then Err(NoRttAps) else Ok(selected)
  }

  /** The pre-M branch of the filter is unreachable: the request is only
      built on Android P or later, so every selected AP is an 802.11mc
      responder. */
  lemma SelectedAreResponders(device: Device, scan: Result<seq<ScanResult>, string>)
    ensures SelectRangingTargets(device, scan).Ok? ==>
              forall ap :: ap in SelectRangingTargets(device, scan).value ==> ap.is80211mcResponder
  {
    var r := SelectRangingTargets(device, scan);
    if r.Ok? {
      forall ap | ap in r.value
        ensures ap.is80211mcResponder
      {
        var kept := Rangeable(device.sdkInt, scan.value);
        assert ap in kept;
      }
    }
  }

  /** One result delivered to `onRangingResults`. */
  datatype RangingResult = RangingResult(status: int, macAddress: string, distanceMm: int, distanceStdDevMm: int, rssi: int)

  /** One map pushed to the resolved array. */
  datatype RangingReport = RangingReport(bssid: string, distanceMm: int, distanceStdDevMm: int, rssi: int, signalQuality: real)

  function Report(result: RangingResult): (report: RangingReport)
    ensures 0.0 <= report.signalQuality <= 1.0
  {
    RangingReport(result.macAddress, result.distanceMm, result.distanceStdDevMm, result.rssi,
                  CalculateSignalQuality(result.rssi, result.distanceMm))
  }

  /** The reports of the successful results, in callback order. */
  function SuccessfulReports(results: seq<RangingResult>): (reports: seq<RangingReport>)
    ensures |reports| <= |results|
    ensures forall rep :: rep in reports ==>
              exists res :: res in results && res.status == StatusSuccess && rep == Report(res)
    ensures forall res :: res in results && res.status == StatusSuccess ==> Report(res) in reports
  {
    if |results| == 0 then []
    else
      var last := results[|results| - 1];
      var front := SuccessfulReports(results[..|results| - 1]);
      assert forall res :: res in results ==> res in results[..|results| - 1] || res == last;
      front + (if last.status == StatusSuccess then [Report(last)] else [])
  }

  /** Failed results are dropped without disturbing the order of the rest. */
  lemma {:induction false} SuccessfulReportsConcat(a: seq<RangingResult>, b: seq<RangingResult>)
    ensures SuccessfulReports(a + b) == SuccessfulReports(a) + SuccessfulReports(b)
  {
    if |b| == 0 {
      assert a + b == a;
    } else {
      var n := |b| - 1;
      var tail := if b[n].status == StatusSuccess then [Report(b[n])] else [];
      calc {
        SuccessfulReports(a + b);
        { assert (a + b)[..|a + b| - 1] == a + b[..n];
          assert (a + b)[|a + b| - 1] == b[n]; }
        SuccessfulReports(a + b[..n]) + tail;
        { SuccessfulReportsConcat(a, b[..n]); }
        SuccessfulReports(a) + SuccessfulReports(b[..n]) + tail;
        SuccessfulReports(a) + SuccessfulReports(b);
      }
    }
  }

  /** The body of `onRangingResults`: push one map per successful result. */
  method OnRangingResults(results: seq<RangingResult>) returns (pushed: seq<RangingReport>)
    ensures pushed == SuccessfulReports(results)
  {
    pushed := [];
    var i := 0;
    while i < |results|
      invariant 0 <= i <= |results|
      invariant pushed == SuccessfulReports(results[..i])
    {
      var result := results[i];
      assert results[..i + 1][..i] == results[..i];
      assert results[..i + 1][i] == result;
      if result.status == StatusSuccess {
        pushed := pushed + [Report(result)];
      }
      i := i + 1;
    }
    assert results[..i] == results;
  }

  /** How the ranging callback is invoked. */
  datatype RangingCallback = OnRangingFailure(code: int) | OnRangingResultsCallback(results: seq<RangingResult>)

  /** What the promise settles with. */
  function RangingOutcome(callback: RangingCallback): (r: Result<seq<RangingReport>, RttError>)
    ensures callback.OnRangingFailure? <==> r.Err?
    ensures r.Err? ==> r.error == RttRangingFailed(callback.code)
    ensures r.Ok? ==> forall rep :: rep in r.value ==> 0.0 <= rep.signalQuality <= 1.0
    ensures callback.OnRangingResultsCallback? ==>
              && r.Ok?
              && |r.value| <= |callback.results|
              && (forall rep :: rep in r.value <==>
                    exists res :: res in callback.results && res.status == StatusSuccess && rep == Report(res))
    ensures callback.OnRangingResultsCallback? ==> r == Ok(SuccessfulReports(callback.results))
  {
    match callback
    case OnRangingFailure(code) => Err(RttRangingFailed(code))
    case OnRangingResultsCallback(results) => Ok(SuccessfulReports(results))
  }
}
