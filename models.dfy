/** The two health enumerations of the API schema (api/src/models.py), with the
    string each one is stored and served as, and the default watering duration. */
module Models {

  /** `WateringRequest.duration_seconds` and `trigger_watering`'s default, in seconds. */
  const DefaultDuration := 5

  datatype AirStatus = AirOptimal | AirModerate | AirBad {
    function Name(): string {
      match this
      case AirOptimal => "optimal"
      case AirModerate => "moderate"
      case AirBad => "bad"
    }
  }

  datatype GroundStatus = GroundDry | GroundOptimal {
    function Name(): string {
      match this
      case GroundDry => "dry"
      case GroundOptimal => "optimal"
    }
  }
}
