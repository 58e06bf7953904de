/**
 * The aggregated station state the payloads write into: the latest reading of
 * every sensor (`DataPoint`) and the day's wind extremes (`DaytimeData`).
 * Their defining file, src/data/process.rs as shown, does not declare them, so
 * they are records with exactly the fields the sensors and the web API use.
 */
module Snapshot {
  import opened Base
  import Dht
  import Anemometer
  import Rain
  import Vane

  /** The free-text message slot; the button's formatted rate is kept as its number. */
  datatype Message = NoMessage | Text(text: string) | ButtonRate(pressesPerSec: real)

  datatype DataPoint = DataPoint(
    anemometer: Anemometer.AnemometerData,
    rain: Rain.RainData,
    direction: Vane.WindVaneData,
    dht: Dht.DHTData,
    message: Message)

  /** `DataPoint::new`: no sensor has reported yet. */
  function NewDataPoint(): (d: DataPoint)
    ensures !d.anemometer.IsValid() && !d.rain.IsValid() && !d.direction.IsValid() && !d.dht.IsValid()
    ensures d.message == NoMessage
  {
    DataPoint(
      Anemometer.AnemometerData(0.0, None),
      Rain.RainData(0.0, None),
      Vane.WindVaneData(0.0, None),
      Dht.DHTData(0.0, 0.0, None),
      NoMessage)
  }

  /** A negative extreme means "no reading yet today". */
  const Unset: real := -1.0

  datatype DaytimeData = DaytimeData(windMin: real, windMax: real)

  /** `DaytimeData::new(None)`: both extremes unset. */
  function NewDaytimeData(): (d: DaytimeData)
    ensures d.windMin < 0.0 && d.windMax < 0.0
  {
    DaytimeData(Unset, Unset)
  }
}
