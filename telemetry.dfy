/**
 The channel table and the reading builder of the telemetry publisher:
 the eight channel names, the unit of each channel, and the fixed-shape
 message that the periodic timer broadcasts. The random draws that pick
 the channel and its value are inputs here.
 */
module Telemetry {

  /** The eight channel names, in the order the server lists them. */
  const KeyNames: seq<string> :=
    ["temperature", "humidity", "pressure", "vibration",
     "voltage", "current", "speed", "altitude"]

  /** The asset identifier stamped on every reading. */
  const AssetId: string := "02i9K000005B4tcQAC"

  /** What `typeof` yields for every generated value: all of them are numbers. */
  const NumberType: string := "number"

  /** The display unit of a channel; the empty string for a name that is not a channel. */
  function UnitFor(key: string): (unit: string)
    ensures key in KeyNames <==> unit != ""
    ensures key !in KeyNames ==> unit == ""
  {
    if key == "temperature" then "°C"
    else if key == "humidity" then "%"
    else if key == "pressure" then "hPa"
    else if key == "vibration" then "mm/s"
    else if key == "voltage" then "V"
    else if key == "current" then "A"
    else if key == "speed" then "km/h"
    else if key == "altitude" then "m"
    else ""
  }

  /** One telemetry entry: a value of one channel with its metadata. */
  datatype Entry = Entry(value: real, name: string, valueType: string, unit: string, timestamp: int)

  /** A reading as broadcast: the asset, its entries, and the channel that was drawn. */
  datatype Reading = Reading(assetId: string, telemetry: seq<Entry>, keyName: string)

  /** The messages the server sends on a socket, before serialisation. */
  datatype Message =
    | Hello(intervalMs: int)   // {type: 'hello', msg: 'connected', intervalMs}
    | Data(reading: Reading)

  /** A reading of the shape the server promises for a channel of the table. */
  predicate WellFormed(r: Reading)
  {
    && r.assetId == AssetId
    && r.keyName in KeyNames
    && |r.telemetry| == 1
    && r.telemetry[0].name == r.keyName
    && r.telemetry[0].valueType == NumberType
    && r.telemetry[0].unit == UnitFor(r.keyName)
  }

  /**
   The reading for the drawn channel `keyName`, with the drawn `value`
   and the clock's `now`. It carries exactly one entry, about that channel.
   */
  function MockReading(keyName: string, value: real, now: int): (r: Reading)
    ensures r.assetId == AssetId && r.keyName == keyName
    ensures |r.telemetry| == 1
    ensures r.telemetry[0].name == keyName && r.telemetry[0].unit == UnitFor(keyName)
    ensures r.telemetry[0].value == value && r.telemetry[0].timestamp == now
    ensures r.telemetry[0].valueType == NumberType
    ensures WellFormed(r) <==> keyName in KeyNames
    ensures keyName in KeyNames ==> r.telemetry[0].unit != ""
  {
    Reading(AssetId, [Entry(value, keyName, NumberType, UnitFor(keyName), now)], keyName)
  }
}
