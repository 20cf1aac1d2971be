/** `determine_statuses` (api/src/arduino_daemon.py:87-104): the threshold classifier
    that turns the three readings into the air and ground labels. Python reads each
    reading with `data.get(key, 0)`, so an absent key counts as 0, but a key holding
    `None` stays `None`, and the first comparison against it raises `TypeError`. */
module Classifier {
  import opened Wrappers
  import opened Models
  import opened Sensors

  /** One reading as `data.get(key, 0)` sees it: the key is absent, holds `None`, or holds a number. */
  datatype Reading = Missing | Null | Num(x: real)

  /** A reading of the daemon's dictionary, whose keys are always present. */
  function Held(o: Option<real>): (r: Reading)
    ensures r.Null? <==> o.None?
    ensures o.Some? ==> r == Num(o.value)
  {
    if o.Some? then Num(o.value) else Null
  }

  /** The soil reading is an `int`; it is compared with the same thresholds. */
  function HeldInt(o: Option<int>): (r: Reading)
    ensures r.Null? <==> o.None?
    ensures o.Some? ==> r == Num(o.value as real)
  {
    if o.Some? then Num(o.value as real) else Null
  }

  /** The number a comparison sees: an absent key defaults to 0. */
  function Number(r: Reading): real
    requires !r.Null?
  {
    if r.Num? then r.x else 0.0
  }

  /** The air bands for two numbers: optimal exactly inside both optimal ranges,
      moderate exactly inside both moderate ranges but not both optimal ones, bad
      otherwise. */
  function AirBand(t: real, h: real): (a: AirStatus)
    ensures a == AirOptimal <==> 18.0 <= t <= 28.0 && 40.0 <= h <= 70.0
    ensures a == AirModerate <==>
      !(18.0 <= t <= 28.0 && 40.0 <= h <= 70.0) && 15.0 <= t <= 32.0 && 30.0 <= h <= 80.0
    ensures a == AirBad <==> !(15.0 <= t <= 32.0 && 30.0 <= h <= 80.0)
  {
    if 18.0 <= t <= 28.0 && 40.0 <= h <= 70.0 then AirOptimal
    else if 15.0 <= t <= 32.0 && 30.0 <= h <= 80.0 then AirModerate
    else AirBad
  }

  /** The ground band for a number: optimal exactly from 40 up. */
  function GroundBand(v: real): (g: GroundStatus)
    ensures g == GroundOptimal <==> v >= 40.0
    ensures g == GroundDry <==> v < 40.0
  {
    if v >= 40.0 then GroundOptimal else GroundDry
  }

  /** The air label in Python's evaluation order, `None` when a comparison raises:
      `18 <= temp` raises on a null temperature; the humidity is only compared when
      the temperature lies within the band being tested, and raises there when null. */
  function ClassifyAir(temp: Reading, hum: Reading): (r: Option<AirStatus>)
    ensures r.None? <==> temp.Null? || (hum.Null? && 15.0 <= Number(temp) <= 32.0)
    ensures r.Some? && !hum.Null? ==> r.value == AirBand(Number(temp), Number(hum))
    ensures r.Some? && hum.Null? ==> r.value == AirBad
  {
    if temp.Null? then None
    else
      var t := Number(temp);
      if 18.0 <= t <= 28.0 && hum.Null? then None
      else if 18.0 <= t <= 28.0 && 40.0 <= Number(hum) <= 70.0 then Some(AirOptimal)
      else if 15.0 <= t <= 32.0 && hum.Null? then None
      else if 15.0 <= t <= 32.0 && 30.0 <= Number(hum) <= 80.0 then Some(AirModerate)
      else Some(AirBad)
  }

  /** The ground label, `None` when `soil_hum >= 40` raises on a null reading. */
  function ClassifyGround(soil: Reading): (r: Option<GroundStatus>)
    ensures r.None? <==> soil.Null?
    ensures r.Some? ==> r.value == GroundBand(Number(soil))
  {
    if soil.Null? then None
    else if Number(soil) >= 40.0 then Some(GroundOptimal) else Some(GroundDry)
  }

  /** The dictionary after `determine_statuses`, and whether the call raised. A raise
      in the ground comparison comes after the air label has been written. */
  datatype Classification = Classification(after: Snapshot, raised: bool)

  /** `determine_statuses` on the daemon's dictionary. */
  function Classify(s: Snapshot): (c: Classification)
    ensures c.after == s.(airStatus := c.after.airStatus, groundStatus := c.after.groundStatus)
    ensures c.raised <==> ClassifyAir(Held(s.temperature), Held(s.airHumidity)).None? || s.soilHumidity.None?
    ensures ClassifyAir(Held(s.temperature), Held(s.airHumidity)).None? ==> c.after == s
    ensures ClassifyAir(Held(s.temperature), Held(s.airHumidity)).Some? ==>
      c.after.airStatus == ClassifyAir(Held(s.temperature), Held(s.airHumidity)).value.Name()
    ensures c.after.groundStatus ==
      if c.raised then s.groundStatus else GroundBand(s.soilHumidity.value as real).Name()
  {
    var air := ClassifyAir(Held(s.temperature), Held(s.airHumidity));
    if air.None? then Classification(s, true)
    else
      var s1 := s.(airStatus := air.value.Name());
      var ground := ClassifyGround(HeldInt(s.soilHumidity));
      if ground.None? then Classification(s1, true)
      else Classification(s1.(groundStatus := ground.value.Name()), false)
  }

  /** All three readings of the dictionary hold numbers. */
  predicate AllReadings(s: Snapshot) {
    s.temperature.Some? && s.airHumidity.Some? && s.soilHumidity.Some?
  }

  /** The labels are the band names of the readings. */
  predicate LabelsAgree(s: Snapshot)
    requires AllReadings(s)
  {
    && s.airStatus == AirBand(s.temperature.value, s.airHumidity.value).Name()
    && s.groundStatus == GroundBand(s.soilHumidity.value as real).Name()
  }

  /** Once all three readings exist, the labels agree with them: what the daemon keeps
      true of its dictionary after every line it classifies. */
  predicate Settled(s: Snapshot) {
    AllReadings(s) ==> LabelsAgree(s)
  }

  // ---------------------------------------------------------------------------
  // Properties

  /** With all readings present, the call never raises and writes exactly the band names. */
  lemma ClassifyComplete(s: Snapshot)
    requires AllReadings(s)
    ensures !Classify(s).raised
    ensures AllReadings(Classify(s).after) && LabelsAgree(Classify(s).after)
  {
  }

  /** The call raises while a reading it needs is still `None`, as in the dictionary the
      daemon starts from, where every reading is `None`. */
  lemma ClassifyRaisesUntilReadings(s: Snapshot)
    requires s.temperature.None? || s.soilHumidity.None?
    ensures Classify(s).raised
  {
  }

  /** When the call returns, it has written both labels from the readings it compared. */
  lemma ClassifyWritesBands(s: Snapshot)
    requires !Classify(s).raised
    ensures s.temperature.Some? && s.soilHumidity.Some?
    ensures Classify(s).after.groundStatus == GroundBand(s.soilHumidity.value as real).Name()
    ensures s.airHumidity.Some? ==>
      Classify(s).after.airStatus == AirBand(s.temperature.value, s.airHumidity.value).Name()
    ensures s.airHumidity.None? ==> Classify(s).after.airStatus == AirBad.Name()
  {
  }

  /** A ground raise leaves the ground label as it was, after the air label is written. */
  lemma GroundRaiseKeepsGround(s: Snapshot)
    requires Classify(s).raised
    ensures Classify(s).after.groundStatus == s.groundStatus
  {
  }

  /** An absent key counts as 0: an absent temperature is bad air, an absent soil reading dry ground. */
  lemma MissingCountsAsZero(hum: Reading)
    ensures ClassifyAir(Missing, hum) == Some(AirBad)
    ensures ClassifyGround(Missing) == Some(GroundDry)
  {
  }

  /** Classifying a settled dictionary twice changes nothing the second time. */
  lemma ClassifyIdempotent(s: Snapshot)
    requires !Classify(s).raised
    ensures Classify(Classify(s).after) == Classify(s)
  {
  }

  /** The boundaries are inclusive: 18 °C and 40 % are optimal, 40 % soil is optimal,
      39 % soil is dry, and 33 °C is bad whatever the humidity. */
  lemma Boundaries()
    ensures AirBand(18.0, 40.0) == AirOptimal && AirBand(28.0, 70.0) == AirOptimal
    ensures AirBand(15.0, 30.0) == AirModerate && AirBand(32.0, 80.0) == AirModerate
    ensures AirBand(33.0, 50.0) == AirBad && AirBand(20.0, 81.0) == AirBad
    ensures GroundBand(40.0) == GroundOptimal && GroundBand(39.0) == GroundDry
  {
  }
}
