/** The records of src/types/heatmap.ts. JavaScript numbers are modelled as
    `real`; optional (`?: T | null`) fields as `Option<T>`. */
module HeatmapTypes {
  import opened Wrappers

  /** A position on the floor plan, in plan pixels with the origin top-left. */
  datatype Point = Point(x: real, y: real)

  datatype Dimensions = Dimensions(width: real, height: real)

  /** One access point as reported by a WiFi scan. */
  datatype WifiNetwork = WifiNetwork(
    ssid: string,
    bssid: string,
    is80211mcResponder: bool,
    frequency: real,
    level: real,
    channelWidth: real,
    centerFreq0: real)

  /** One capture of the session list, with its timestamp. */
  datatype WifiDataPoint = WifiDataPoint(
    x: real,
    y: real,
    signalStrength: real,
    distance: Option<real>,
    quality: Option<real>,
    timestamp: string)

  /** One sample of a floor's heatmap. */
  datatype HeatmapDataPoint = HeatmapDataPoint(
    x: real,
    y: real,
    strength: real,
    distance: Option<real>,
    quality: Option<real>)

  /** A location fix, copied around by the screen but never interpreted. */
  datatype LocationData = LocationData(
    latitude: real,
    longitude: real,
    accuracy: Option<real>,
    altitude: Option<real>,
    altitudeAccuracy: Option<real>,
    heading: Option<real>,
    speed: Option<real>,
    timestamp: real)
}
