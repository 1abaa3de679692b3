/** The session state of src/screens/HeatmapScreen.tsx and its transitions.
    The React state hooks are the fields of one record, grouped by the part of
    the screen they drive; every handler is a pure function from the state
    before to the state after, with the awaited scan and ranging results
    passed in. */
module HeatmapScreen {
  import opened Wrappers
  import opened HeatmapTypes
  import WifiRttModule
  import BestReading
  import FloorNames
  import SkiaHeatmap

  /** Size of a new floor plan. */
  const CanvasWidth: real := 800.0
  const CanvasHeight: real := 600.0
  const Canvas: Dimensions := Dimensions(CanvasWidth, CanvasHeight)

  /** The value stored for a floor without an image. */
  const Blank: string := "blank"

  /** The floor selected before any floor exists. */
  const InitialFloor: string := "1"

  const NoMarkerMessage: string := "Please place a marker on the floor plan before capturing."

  /** `scanStatus`, without its text formatting. */
  datatype ScanStatus =
    | Idle
    | Scanning
    | NoNetworksFound
    | Signal(strength: real, distance: Option<real>)

  /** `wifiData`, `isCapturing`, `scanStatus`. */
  datatype Capture = Capture(wifiData: seq<WifiDataPoint>, isCapturing: bool, scanStatus: ScanStatus)

  /** `floorPlans`, `floorPlanDimensions`, `currentFloor`. */
  datatype Floors = Floors(floorPlans: map<string, string>, floorPlanDimensions: map<string, Dimensions>,
                           currentFloor: string)

  /** `isAddingFloor`, `newFloorName`. */
  datatype FloorDialog = FloorDialog(isAddingFloor: bool, newFloorName: string)

  /** `markerPosition`, `isMarkingMode`. */
  datatype Marker = Marker(markerPosition: Option<Point>, isMarkingMode: bool)

  /** `initialPosition`, `lastKnownLocation`, `lastUpdatedPosition`. */
  datatype Positions = Positions(initialPosition: Option<LocationData>, lastKnownLocation: Option<LocationData>,
                                 lastUpdatedPosition: Option<LocationData>)

  /** `errorMsg`, `errorDialogVisible`. */
  datatype ErrorDialog = ErrorDialog(errorMsg: string, errorDialogVisible: bool)

  datatype Session = Session(
    capture: Capture,
    floorPlanWifiData: map<string, seq<HeatmapDataPoint>>,
    floors: Floors,
    floorDialog: FloorDialog,
    marker: Marker,
    positions: Positions,
    error: ErrorDialog)

  /** The initial value of every state hook. */
  function Initial(): Session
  {
    Session(Capture([], false, Idle), map[], Floors(map[], map[], InitialFloor), FloorDialog(false, ""),
            Marker(None, false), Positions(None, None, None), ErrorDialog("", false))
  }

  /** `setErrorMsgDialog`. */
  function ShowError(s: Session, message: string): (t: Session)
    ensures t.error.errorDialogVisible && t.error.errorMsg == message
    ensures t.(error := s.error) == s
  {
    s.(error := ErrorDialog(message, true))
  }

  /** `startCapturing`: refused with an error while no marker is placed;
      otherwise capturing starts with an empty session list. Samples already
      on the floors are kept either way. */
  function StartCapturing(s: Session): (t: Session)
    ensures s.marker.markerPosition.None? ==> t == ShowError(s, NoMarkerMessage)
    ensures s.marker.markerPosition.Some? ==> t.capture.isCapturing && t.capture.wifiData == []
    ensures s.marker.markerPosition.Some? ==> t.capture.scanStatus == s.capture.scanStatus && t.(capture := s.capture) == s
  {
    if s.marker.markerPosition.None? then ShowError(s, NoMarkerMessage)
    else s.(capture := s.capture.(isCapturing := true, wifiData := []))
  }

  /** `stopCapturing`; the timer it clears is not part of the state. */
  function StopCapturing(s: Session): (t: Session)
    ensures !t.capture.isCapturing
    ensures t.capture.wifiData == s.capture.wifiData && t.capture.scanStatus == s.capture.scanStatus
    ensures t.(capture := s.capture) == s
  {
    s.(capture := s.capture.(isCapturing := false))
  }

  /** The heatmap sample recorded for a session sample. */
  function ToHeatmapPoint(d: WifiDataPoint): (p: HeatmapDataPoint)
    ensures p.x == d.x && p.y == d.y && p.strength == d.signalStrength
    ensures p.distance == d.distance && p.quality == d.quality
  {
    HeatmapDataPoint(d.x, d.y, d.signalStrength, d.distance, d.quality)
  }

  /** `newData.forEach(... push ...)`: the converted samples, in order. */
  function ToHeatmapPoints(newData: seq<WifiDataPoint>): (ps: seq<HeatmapDataPoint>)
    ensures |ps| == |newData|
    ensures forall i :: 0 <= i < |newData| ==> ps[i] == ToHeatmapPoint(newData[i])
  {
    if |newData| == 0 then []
    else ToHeatmapPoints(newData[..|newData| - 1]) + [ToHeatmapPoint(newData[|newData| - 1])]
  }

  /** `floorPlanWifiData[floor] || []`. */
  function FloorData(s: Session, floor: string): (ps: seq<HeatmapDataPoint>)
    ensures floor in s.floorPlanWifiData ==> ps == s.floorPlanWifiData[floor]
    ensures floor !in s.floorPlanWifiData ==> ps == []
  {
    if floor in s.floorPlanWifiData then s.floorPlanWifiData[floor] else []
  }

  /** `currentFloorData`. */
  function CurrentFloorData(s: Session): seq<HeatmapDataPoint>
  {
    FloorData(s, s.floors.currentFloor)
  }

  /** `currentDimensions`: the current floor's size, 800 x 600 when it has
      none. */
  function CurrentDimensions(s: Session): (d: Dimensions)
    ensures s.floors.currentFloor in s.floors.floorPlanDimensions ==>
              d == s.floors.floorPlanDimensions[s.floors.currentFloor]
    ensures s.floors.currentFloor !in s.floors.floorPlanDimensions ==> d == Canvas
  {
    if s.floors.currentFloor in s.floors.floorPlanDimensions then s.floors.floorPlanDimensions[s.floors.currentFloor]
    else Canvas
  }

  /** `updateHeatmap`: the new samples are appended, in order, to the current
      floor's list, which is created when absent; every other floor keeps its
      list. */
  function UpdateHeatmap(s: Session, newData: seq<WifiDataPoint>): (t: Session)
    ensures t.floorPlanWifiData.Keys == s.floorPlanWifiData.Keys + {s.floors.currentFloor}
    ensures t.floorPlanWifiData[s.floors.currentFloor] == CurrentFloorData(s) + ToHeatmapPoints(newData)
    ensures forall f :: f in s.floorPlanWifiData && f != s.floors.currentFloor ==>
              t.floorPlanWifiData[f] == s.floorPlanWifiData[f]
    ensures t.(floorPlanWifiData := s.floorPlanWifiData) == s
  {
    var floor := s.floors.currentFloor;
    s.(floorPlanWifiData := s.floorPlanWifiData[floor := CurrentFloorData(s) + ToHeatmapPoints(newData)])
  }

  /** The members every plain JavaScript object inherits from
      `Object.prototype`. Indexing a record by one of these names when the
      record has no own entry of that name yields the inherited member, which
      is truthy and is not an array. */
  predicate IsObjectPrototypeKey(name: string)
  {
    name in {"constructor", "hasOwnProperty", "isPrototypeOf", "propertyIsEnumerable",
             "toLocaleString", "toString", "valueOf", "__proto__",
             "__defineGetter__", "__defineSetter__", "__lookupGetter__", "__lookupSetter__"}
  }

  /** `floorPlanWifiData[floor] || []` as the source evaluates it on a plain
      object: `None` when the lookup lands on an inherited `Object.prototype`
      member instead of a sample list, so that `data.map` in the heatmap
      throws. Otherwise it is the own-key lookup `FloorData`. */
  function FloorDataAsWritten(s: Session, floor: string): (ps: Option<seq<HeatmapDataPoint>>)
    ensures ps.None? <==> floor !in s.floorPlanWifiData && IsObjectPrototypeKey(floor)
    ensures ps.Some? ==> ps.value == FloorData(s, floor)
  {
    if floor in s.floorPlanWifiData then Some(s.floorPlanWifiData[floor])
    else if IsObjectPrototypeKey(floor) then None
    else Some([])
  }

  /** `updateHeatmap` as the source evaluates it on a plain object: when the
      current floor has no own list and is named after an `Object.prototype`
      member, `!updatedData[currentFloor]` is false, no list is created, and
      the first `push` throws (`None`). With no samples nothing is pushed and
      nothing throws. In every other case it is `UpdateHeatmap`. */
  function UpdateHeatmapAsWritten(s: Session, newData: seq<WifiDataPoint>): (t: Option<Session>)
    ensures t.None? <==> && s.floors.currentFloor !in s.floorPlanWifiData
                         && IsObjectPrototypeKey(s.floors.currentFloor)
                         && |newData| > 0
    ensures s.floors.currentFloor in s.floorPlanWifiData || !IsObjectPrototypeKey(s.floors.currentFloor) ==>
              t == Some(UpdateHeatmap(s, newData))
    ensures (&& s.floors.currentFloor !in s.floorPlanWifiData
             && IsObjectPrototypeKey(s.floors.currentFloor)
             && |newData| == 0) ==> t == Some(s)
  {
    var floor := s.floors.currentFloor;
    if floor !in s.floorPlanWifiData && IsObjectPrototypeKey(floor) then
      if |newData| == 0 then Some(s) else None
    else Some(UpdateHeatmap(s, newData))
  }

  /** As written, the floor dialog accepts the name `constructor`, makes it
      the current floor, and from then on the current floor's data is the
      inherited `Object` function: rendering it and recording a sample on it
      both throw. */
  lemma PrototypeFloorNameBreaksFloor(s: Session, newData: seq<WifiDataPoint>)
    requires s.floorDialog.newFloorName == "constructor"
    requires "constructor" !in s.floorPlanWifiData
    requires |newData| > 0
    ensures AddNewFloor(s).floors.currentFloor == "constructor"
    ensures FloorDataAsWritten(AddNewFloor(s), "constructor").None?
    ensures UpdateHeatmapAsWritten(AddNewFloor(s), newData).None?
  {
    assert !FloorNames.IsJsWhitespace(s.floorDialog.newFloorName[0]);
  }

  /** With own-key lookups every name the floor dialog accepts gets a sample
      list of its own: after `addNewFloor`, recording samples appends them to
      that floor's list, whatever the name spells. */
  lemma AddedFloorTakesSamples(s: Session, newData: seq<WifiDataPoint>)
    requires exists i :: 0 <= i < |s.floorDialog.newFloorName| &&
               !FloorNames.IsJsWhitespace(s.floorDialog.newFloorName[i])
    ensures var name := s.floorDialog.newFloorName;
            var t := UpdateHeatmap(AddNewFloor(s), newData);
            && t.floors.currentFloor == name
            && t.floorPlanWifiData[name] == FloorData(s, name) + ToHeatmapPoints(newData)
  {
  }

  /** `handleFloorPlanPress`: in marking mode the marker moves to the tap,
      marking mode ends, and the last fix, if any, becomes the initial and
      last-updated position; outside marking mode nothing changes. */
  function HandleFloorPlanPress(s: Session, locationX: real, locationY: real): (t: Session)
    ensures !s.marker.isMarkingMode ==> t == s
    ensures s.marker.isMarkingMode ==> t.marker == Marker(Some(Point(locationX, locationY)), false)
    ensures s.marker.isMarkingMode && s.positions.lastKnownLocation.Some? ==>
              t.positions == s.positions.(initialPosition := s.positions.lastKnownLocation,
                                          lastUpdatedPosition := s.positions.lastKnownLocation)
    ensures s.positions.lastKnownLocation.None? ==> t.positions == s.positions
    ensures t.(marker := s.marker, positions := s.positions) == s
  {
    if !s.marker.isMarkingMode then s
    else
      var placed := s.(marker := Marker(Some(Point(locationX, locationY)), false));
      var fix := s.positions.lastKnownLocation;
      if fix.Some? then placed.(positions := s.positions.(initialPosition := fix, lastUpdatedPosition := fix))
      else placed
  }

  /** A tap on the canvas reaches the screen unchanged, so in marking mode it
      places the marker exactly where it landed. */
  lemma CanvasTapPlacesMarker(s: Session, location: Point)
    requires s.marker.isMarkingMode
    ensures var p := SkiaHeatmap.HandlePress(location);
            HandleFloorPlanPress(s, p.x, p.y).marker.markerPosition == Some(location)
  {
  }

  /** The status shown after a sample is taken. */
  function SignalStatus(r: BestReading.Reading): ScanStatus
  {
    Signal(r.strength, r.distance)
  }

  /** The sample `handleAddDataPoint` records at the marker. */
  function NewDataPoint(marker: Point, reading: BestReading.Reading, timestamp: string): WifiDataPoint
  {
    WifiDataPoint(marker.x, marker.y, reading.strength, reading.distance, Some(reading.quality), timestamp)
  }

  /** `handleAddDataPoint`, once the scan (`networks`) and, when some AP is an
      802.11mc responder, the multi-AP ranging (`ranging`) have completed. */
  function HandleAddDataPoint(s: Session, networks: seq<WifiNetwork>, ranging: seq<WifiRttModule.RangingReport>,
                              timestamp: string): (t: Session)
    ensures !s.capture.isCapturing || s.marker.markerPosition.None? ==> t == s
    ensures s.capture.isCapturing && s.marker.markerPosition.Some? && |networks| == 0 ==>
              t == s.(capture := s.capture.(scanStatus := NoNetworksFound))
    ensures t.(capture := s.capture, floorPlanWifiData := s.floorPlanWifiData) == s
    ensures t.capture.isCapturing == s.capture.isCapturing
  {
    if !s.capture.isCapturing || s.marker.markerPosition.None? then s
    else if |networks| == 0 then s.(capture := s.capture.(scanStatus := NoNetworksFound))
    else
      var reading := BestReading.SelectReading(networks, ranging);
      var point := NewDataPoint(s.marker.markerPosition.value, reading, timestamp);
      var updated := UpdateHeatmap(s, [point]);
      updated.(capture := Capture(s.capture.wifiData + [point], true, SignalStatus(reading)))
  }

  /** A completed non-empty scan while capturing with a marker appends one
      sample at the marker, carrying the selected reading and the timestamp,
      to the session list and to the current floor's list, and shows the
      reading. */
  lemma AddDataPointRecordsSample(s: Session, networks: seq<WifiNetwork>, ranging: seq<WifiRttModule.RangingReport>,
                                  timestamp: string)
    requires s.capture.isCapturing && s.marker.markerPosition.Some? && |networks| > 0
    ensures var t := HandleAddDataPoint(s, networks, ranging, timestamp);
            var reading := BestReading.SelectReading(networks, ranging);
            var m := s.marker.markerPosition.value;
            && |t.capture.wifiData| == |s.capture.wifiData| + 1
            && t.capture.wifiData[..|s.capture.wifiData|] == s.capture.wifiData
            && var p := t.capture.wifiData[|s.capture.wifiData|];
            && p.x == m.x && p.y == m.y
            && p.signalStrength == reading.strength && p.distance == reading.distance
            && p.quality == Some(reading.quality) && p.timestamp == timestamp
            && t.floorPlanWifiData == UpdateHeatmap(s, [p]).floorPlanWifiData
            && t.capture.scanStatus == SignalStatus(reading)
  {
    var t := HandleAddDataPoint(s, networks, ranging, timestamp);
    assert t.capture.wifiData[..|s.capture.wifiData|] == s.capture.wifiData;
  }

  /** `addNewFloor`: a name that is not all whitespace is registered as a
      blank 800 x 600 floor under its untrimmed spelling and made current, and
      the dialog is reset; a blank name changes nothing. */
  function AddNewFloor(s: Session): (t: Session)
    ensures (forall i :: 0 <= i < |s.floorDialog.newFloorName| ==>
               FloorNames.IsJsWhitespace(s.floorDialog.newFloorName[i])) ==> t == s
    ensures (exists i :: 0 <= i < |s.floorDialog.newFloorName| &&
               !FloorNames.IsJsWhitespace(s.floorDialog.newFloorName[i])) ==>
              && t.floors == RegisterBlank(s.floors, s.floorDialog.newFloorName)
              && t.floorDialog == FloorDialog(false, "")
              && t.(floors := s.floors, floorDialog := s.floorDialog) == s
  {
    var name := s.floorDialog.newFloorName;
    FloorNames.TrimEmptyIffBlank(name);
    if FloorNames.Trim(name) != "" then
      s.(floors := RegisterBlank(s.floors, name), floorDialog := FloorDialog(false, ""))
    else s
  }

  /** Registers `name` as a blank 800 x 600 floor and selects it: the floor
      is added, or overwritten when the name is taken, and every other floor
      keeps its plan and size. */
  function RegisterBlank(floors: Floors, name: string): (f: Floors)
    ensures f.floorPlans.Keys == floors.floorPlans.Keys + {name}
    ensures f.floorPlanDimensions.Keys == floors.floorPlanDimensions.Keys + {name}
    ensures f.floorPlans[name] == Blank && f.floorPlanDimensions[name] == Canvas
    ensures forall k :: k in floors.floorPlans && k != name ==> f.floorPlans[k] == floors.floorPlans[k]
    ensures forall k :: k in floors.floorPlanDimensions && k != name ==>
              f.floorPlanDimensions[k] == floors.floorPlanDimensions[k]
    ensures f.currentFloor == name
  {
    Floors(floors.floorPlans[name := Blank], floors.floorPlanDimensions[name := Canvas], name)
  }

  /** `createBlankFloorPlan` as written: the floor is named
      `Floor <number of floors + 1>`, whether or not that name is taken. */
  function CreateBlankFloorPlanAsWritten(s: Session): (t: Session)
    ensures t.floors.currentFloor == FloorNames.FloorName(|s.floors.floorPlans| + 1)
    ensures t.floors == RegisterBlank(s.floors, t.floors.currentFloor)
    ensures t.(floors := s.floors) == s
  {
    s.(floors := RegisterBlank(s.floors, FloorNames.BlankFloorNameAsWritten(s.floors.floorPlans.Keys)))
  }

  /** As written, a user floor called `Floor 2` makes the button re-select
      that floor instead of adding one. */
  lemma CreateBlankFloorPlanAsWrittenCollides(s: Session)
    requires s.floors.floorPlans == map["Floor 2" := Blank]
    ensures |CreateBlankFloorPlanAsWritten(s).floors.floorPlans| == |s.floors.floorPlans|
  {
    FloorNames.BlankFloorNameCollision();
    assert s.floors.floorPlans.Keys == {"Floor 2"};
    assert CreateBlankFloorPlanAsWritten(s).floors.floorPlans.Keys == {"Floor 2"};
  }

  /** `createBlankFloorPlan`, corrected so that it always adds a floor: the
      source's `Floor <number of floors + 1>` when free, the next free
      `Floor <m>` otherwise. */
  function CreateBlankFloorPlan(s: Session): (t: Session)
    ensures t.floors.currentFloor !in s.floors.floorPlans
    ensures |t.floors.floorPlans| == |s.floors.floorPlans| + 1
    ensures t.floors.floorPlans.Keys == s.floors.floorPlans.Keys + {t.floors.currentFloor}
    ensures t.floors == RegisterBlank(s.floors, t.floors.currentFloor)
    ensures t.(floors := s.floors) == s
    ensures FloorNames.FloorName(|s.floors.floorPlans| + 1) !in s.floors.floorPlans ==>
              t == CreateBlankFloorPlanAsWritten(s)
  {
    var name := FloorNames.BlankFloorName(s.floors.floorPlans.Keys);
    FloorNames.BlankFloorNameGrows(s.floors.floorPlans.Keys);
    s.(floors := RegisterBlank(s.floors, name))
  }

  /** The user actions and platform callbacks the screen reacts to. */
  datatype Event =
    | CaptureButton
    | PlaceMarkerButton
    | FloorPlanPress(locationX: real, locationY: real)
    | LocationUpdate(location: LocationData)
    | AddDataPoint(networks: seq<WifiNetwork>, ranging: seq<WifiRttModule.RangingReport>, timestamp: string)
    | AddFloorButton
    | FloorNameInput(text: string)
    | AddFloorConfirm
    | AddFloorCancel
    | CreateBlankButton
    | FloorPicked(floor: string)
    | DismissError

  /** One step of the screen. The capture button calls `stopCapturing` while
      capturing and `startCapturing` otherwise; the marker button is disabled
      while capturing. "Create Blank" uses the corrected
      `CreateBlankFloorPlan`. Only a recorded sample touches the samples, no
      step deletes a floor, and capturing never starts without a marker. */
  function Apply(s: Session, e: Event): (t: Session)
    ensures !e.AddDataPoint? ==> t.floorPlanWifiData == s.floorPlanWifiData
    ensures s.floors.floorPlans.Keys <= t.floors.floorPlans.Keys
    ensures e.CreateBlankButton? ==> |t.floors.floorPlans| == |s.floors.floorPlans| + 1
    ensures t.capture.isCapturing && !s.capture.isCapturing ==> t.marker.markerPosition.Some?
    ensures e.PlaceMarkerButton? && s.capture.isCapturing ==> t == s
    ensures e.PlaceMarkerButton? && !s.capture.isCapturing ==> t.marker.isMarkingMode
    ensures !e.CaptureButton? && !e.AddDataPoint? ==> t.capture == s.capture
  {
    match e
    case CaptureButton => if s.capture.isCapturing then StopCapturing(s) else StartCapturing(s)
    case PlaceMarkerButton => if s.capture.isCapturing then s else s.(marker := s.marker.(isMarkingMode := true))
    case FloorPlanPress(x, y) => HandleFloorPlanPress(s, x, y)
    case LocationUpdate(location) => s.(positions := s.positions.(lastKnownLocation := Some(location)))
    case AddDataPoint(networks, ranging, timestamp) => HandleAddDataPoint(s, networks, ranging, timestamp)
    case AddFloorButton => s.(floorDialog := s.floorDialog.(isAddingFloor := true))
    case FloorNameInput(text) => s.(floorDialog := s.floorDialog.(newFloorName := text))
    case AddFloorConfirm => AddNewFloor(s)
    case AddFloorCancel => s.(floorDialog := s.floorDialog.(isAddingFloor := false))
    case CreateBlankButton => CreateBlankFloorPlan(s)
    case FloorPicked(floor) => s.(floors := s.floors.(currentFloor := floor))
    case DismissError => s.(error := s.error.(errorDialogVisible := false))
  }

  /** The screen after a sequence of events. */
  function Run(s: Session, events: seq<Event>): Session
  {
    if |events| == 0 then s else Apply(Run(s, events[..|events| - 1]), events[|events| - 1])
  }

  /** Each floor has a size, that size is 800 x 600 and its plan is blank. */
  ghost predicate FloorsValid(floors: Floors)
  {
    && floors.floorPlans.Keys == floors.floorPlanDimensions.Keys
    && (forall f :: f in floors.floorPlanDimensions ==> floors.floorPlanDimensions[f] == Canvas)
    && (forall f :: f in floors.floorPlans ==> floors.floorPlans[f] == Blank)
  }

  /** What holds of every reachable state: valid floors, and capturing
      implies a placed marker. */
  ghost predicate Valid(s: Session)
  {
    FloorsValid(s.floors) && (s.capture.isCapturing ==> s.marker.markerPosition.Some?)
  }

  lemma InitialValid()
    ensures Valid(Initial())
  {
  }

  lemma RegisterBlankValid(floors: Floors, name: string)
    requires FloorsValid(floors)
    ensures FloorsValid(RegisterBlank(floors, name))
  {
  }

  /** Every step keeps the state valid. */
  lemma ApplyPreservesValid(s: Session, e: Event)
    requires Valid(s)
    ensures Valid(Apply(s, e))
  {
    match e
    case AddFloorConfirm =>
      RegisterBlankValid(s.floors, s.floorDialog.newFloorName);
    case CreateBlankButton =>
      RegisterBlankValid(s.floors, Apply(s, e).floors.currentFloor);
    case _ =>
  }

  lemma {:induction false} RunPreservesValid(s: Session, events: seq<Event>)
    requires Valid(s)
    ensures Valid(Run(s, events))
  {
    if |events| > 0 {
      RunPreservesValid(s, events[..|events| - 1]);
      ApplyPreservesValid(Run(s, events[..|events| - 1]), events[|events| - 1]);
    }
  }

  /** In every reachable state the size used for the current floor is the
      800 x 600 canvas, whether or not the floor was ever registered. */
  lemma CurrentDimensionsAlwaysCanvas(s: Session)
    requires Valid(s)
    ensures CurrentDimensions(s) == Canvas
  {
  }

  /** Each floor's samples only grow, at the end. */
  predicate AppendOnly(s: Session, t: Session)
  {
    forall f :: f in s.floorPlanWifiData ==>
      f in t.floorPlanWifiData && s.floorPlanWifiData[f] <= t.floorPlanWifiData[f]
  }

  lemma ApplyAppendOnly(s: Session, e: Event)
    ensures AppendOnly(s, Apply(s, e))
  {
    if !e.AddDataPoint? {
      assert Apply(s, e).floorPlanWifiData == s.floorPlanWifiData;
    }
  }

  /** Over any sequence of events, no sample is lost or reordered on any
      floor. */
  lemma {:induction false} RunAppendOnly(s: Session, events: seq<Event>)
    ensures AppendOnly(s, Run(s, events))
  {
    if |events| > 0 {
      var mid := Run(s, events[..|events| - 1]);
      RunAppendOnly(s, events[..|events| - 1]);
      ApplyAppendOnly(mid, events[|events| - 1]);
      forall f | f in s.floorPlanWifiData
        ensures f in Run(s, events).floorPlanWifiData
        ensures s.floorPlanWifiData[f] <= Run(s, events).floorPlanWifiData[f]
      {
        PrefixTransitive(s.floorPlanWifiData[f], mid.floorPlanWifiData[f], Run(s, events).floorPlanWifiData[f]);
      }
    }
  }

  lemma PrefixTransitive<T>(a: seq<T>, b: seq<T>, c: seq<T>)
    requires a <= b && b <= c
    ensures a <= c
  {
    assert c[..|a|] == b[..|a|];
  }
}
