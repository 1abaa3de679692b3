/** The reading rule of `handleAddDataPoint` in
    src/screens/HeatmapScreen.tsx: the ranging result of highest quality
    supplies strength, distance and quality; if the strength is still the
    sentinel -100 dBm, the scanned network of highest level supplies it. */
module BestReading {
  import opened Wrappers
  import opened HeatmapTypes
  import WifiRttModule

  /** The value of `bestSignalStrength` before any reading. */
  const NoSignal: real := -100.0

  /** `i` is the first position of a maximal key. */
  predicate IsFirstMax<T>(s: seq<T>, key: T -> real, i: int)
  {
    && 0 <= i < |s|
    && (forall j :: 0 <= j < |s| ==> key(s[j]) <= key(s[i]))
    && (forall j :: 0 <= j < i ==> key(s[j]) < key(s[i]))
  }

  /** At most one position is the first maximum. */
  lemma FirstMaxUnique<T>(s: seq<T>, key: T -> real, i: int, j: int)
    requires IsFirstMax(s, key, i) && IsFirstMax(s, key, j)
    ensures i == j
  {
    var ki, kj := key(s[i]), key(s[j]);
    assert kj <= ki && ki <= kj;
    assert j < i ==> kj < ki;
    assert i < j ==> ki < kj;
  }

  /** `s.slice(0, n).reduce((best, cur) => key(cur) > key(best) ? cur : best, s[0])`,
      as a position: the strict comparison keeps the earlier of equal keys. */
  function ReduceBest<T>(s: seq<T>, key: T -> real, n: nat): (b: nat)
    requires 1 <= n <= |s|
    ensures b < n
    ensures forall j :: 0 <= j < n ==> key(s[j]) <= key(s[b])
    ensures forall j :: 0 <= j < b ==> key(s[j]) < key(s[b])
  {
    if n == 1 then 0
    else
      var best := ReduceBest(s, key, n - 1);
      if key(s[n - 1]) > key(s[best]) then n - 1 else best
  }

  /** The whole-sequence reduction: the first maximum. */
  function FirstMax<T>(s: seq<T>, key: T -> real): (i: nat)
    requires |s| > 0
    ensures IsFirstMax(s, key, i)
  {
    ReduceBest(s, key, |s|)
  }

  function QualityKey(r: WifiRttModule.RangingReport): real
  {
    r.signalQuality
  }

  function LevelKey(n: WifiNetwork): real
  {
    n.level
  }

  predicate HasResponder(networks: seq<WifiNetwork>)
  {
    exists i :: 0 <= i < |networks| && networks[i].is80211mcResponder
  }

  /** Strength, distance in metres and quality of a new sample. */
  datatype Reading = Reading(strength: real, distance: Option<real>, quality: real)

  /** The reading after the ranging step alone. */
  function RangingReading(networks: seq<WifiNetwork>, ranging: seq<WifiRttModule.RangingReport>): (r: Reading)
    ensures !(HasResponder(networks) && |ranging| > 0) ==> r == Reading(NoSignal, None, 0.0)
    ensures HasResponder(networks) && |ranging| > 0 ==>
              exists i :: IsFirstMax(ranging, QualityKey, i) && r == Reading(ranging[i].rssi as real,
                                                                       Some(ranging[i].distanceMm as real / 1000.0),
                                                                       ranging[i].signalQuality)
  {
    if HasResponder(networks) && |ranging| > 0 then
      var best := ranging[FirstMax(ranging, QualityKey)];
      Reading(best.rssi as real, Some(best.distanceMm as real / 1000.0), best.signalQuality)
    else Reading(NoSignal, None, 0.0)
  }

  /** The reading of `handleAddDataPoint` for a non-empty scan. Ranging is
      used only when some scanned AP is an 802.11mc responder; a strength equal
      to -100 afterwards, whether from no ranging or from a ranged RSSI of
      exactly -100, is replaced by the strongest scanned level while distance
      and quality are kept. */
  function SelectReading(networks: seq<WifiNetwork>, ranging: seq<WifiRttModule.RangingReport>): (r: Reading)
    requires |networks| > 0
    ensures r.distance == RangingReading(networks, ranging).distance
    ensures r.quality == RangingReading(networks, ranging).quality
    ensures RangingReading(networks, ranging).strength != NoSignal ==> r.strength == RangingReading(networks, ranging).strength
    ensures RangingReading(networks, ranging).strength == NoSignal ==>
              exists i :: IsFirstMax(networks, LevelKey, i) && r.strength == networks[i].level
  {
    var ranged := RangingReading(networks, ranging);
    if ranged.strength == NoSignal then
      ranged.(strength := networks[FirstMax(networks, LevelKey)].level)
    else ranged
  }

  /** Without any usable ranging result the strength is the highest scanned
      level, and no scanned level exceeds it. */
  lemma FallbackIsStrongest(networks: seq<WifiNetwork>, ranging: seq<WifiRttModule.RangingReport>)
    requires |networks| > 0
    requires !HasResponder(networks) || |ranging| == 0
    ensures SelectReading(networks, ranging).distance.None?
    ensures SelectReading(networks, ranging).quality == 0.0
    ensures forall j :: 0 <= j < |networks| ==> networks[j].level <= SelectReading(networks, ranging).strength
    ensures exists j :: 0 <= j < |networks| && networks[j].level == SelectReading(networks, ranging).strength
  {
    var i := FirstMax(networks, LevelKey);
    assert SelectReading(networks, ranging).strength == networks[i].level;
    forall j | 0 <= j < |networks|
      ensures networks[j].level <= SelectReading(networks, ranging).strength
    {
      assert LevelKey(networks[j]) <= LevelKey(networks[i]);
    }
  }

  /** A ranged reading comes from a result of maximal quality, and the
      quality recorded is that maximum. */
  lemma RangedQualityIsMaximal(networks: seq<WifiNetwork>, ranging: seq<WifiRttModule.RangingReport>)
    requires |networks| > 0
    requires HasResponder(networks) && |ranging| > 0
    ensures SelectReading(networks, ranging).distance.Some?
    ensures forall j :: 0 <= j < |ranging| ==> ranging[j].signalQuality <= SelectReading(networks, ranging).quality
  {
    var i := FirstMax(ranging, QualityKey);
    assert SelectReading(networks, ranging).quality == ranging[i].signalQuality;
    forall j | 0 <= j < |ranging|
      ensures ranging[j].signalQuality <= SelectReading(networks, ranging).quality
    {
      assert QualityKey(ranging[j]) <= QualityKey(ranging[i]);
    }
  }
}
