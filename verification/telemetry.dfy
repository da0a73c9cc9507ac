/**
 * Weather telemetry shared by the live monitor (which writes the weather log)
 * and the offline dataset builder (which reads it back).
 */
module Telemetry {

  /** The five soil-moisture depth bands reported by the weather service. */
  datatype Depth = Cm0To1 | Cm1To3 | Cm3To9 | Cm9To27 | Cm27To81

  /** Volumetric soil moisture (m3/m3) at each depth band. */
  datatype SoilMoisture = SoilMoisture(
    cm0To1: real,
    cm1To3: real,
    cm3To9: real,
    cm9To27: real,
    cm27To81: real)
  {
    /** The reading for one depth band, i.e. one `soil_moisture_*` column. */
    function At(d: Depth): real {
      match d
      case Cm0To1 => cm0To1
      case Cm1To3 => cm1To3
      case Cm3To9 => cm3To9
      case Cm9To27 => cm9To27
      case Cm27To81 => cm27To81
    }
  }

  /**
   * One row of the weather log: when it was taken (whole seconds), the
   * rainfall summed over the trailing 24 hours (mm) and the soil moisture.
   */
  datatype WeatherSnapshot = WeatherSnapshot(time: int, rainMm: real, soil: SoilMoisture)
}
