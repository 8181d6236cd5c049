/** The scenarios of the source's test, and error cases for the station and
    record inputs, stated on the model. */
module Scenarios {
  import opened Results
  import opened Seqs
  import opened Strconv
  import opened Clock
  import opened Trains
  import opened Search
  import opened Decoder

  /** The test's expectation: trains 1177 and 1178 share a price, so sorted
      by price they come before the dearer 1141 and keep their dataset order,
      while a train on another route is dropped. */
  lemma {:induction false} AllCorrect(t1141: Train, t1177: Train, other: Train, t1178: Train)
    requires t1141.departureStationId == t1177.departureStationId == t1178.departureStationId == 1902
    requires t1141.arrivalStationId == t1177.arrivalStationId == t1178.arrivalStationId == 1929
    requires other.departureStationId != 1902
    requires t1177.price == t1178.price < t1141.price
    ensures Found([t1141, t1177, other, t1178], 1902, 1929, ByPrice) == [t1177, t1178, t1141]
  {
    RouteOfExample(t1141, t1177, other, t1178);
    SortOfExample(t1141, t1177, t1178);
  }

  lemma {:induction false} RouteOfExample(t1141: Train, t1177: Train, other: Train, t1178: Train)
    requires t1141.departureStationId == t1177.departureStationId == t1178.departureStationId == 1902
    requires t1141.arrivalStationId == t1177.arrivalStationId == t1178.arrivalStationId == 1929
    requires other.departureStationId != 1902
    ensures Filter([t1141, t1177, other, t1178], Serves(1902, 1929)) == [t1141, t1177, t1178]
  {
    var ds := [t1141, t1177, other, t1178];
    var p := Serves(1902, 1929);
    assert ds[..1][..0] == [] && ds[..2][..1] == ds[..1] && ds[..3][..2] == ds[..2] && ds[..3] == ds[..|ds| - 1];
    assert Filter(ds[..1], p) == [t1141];
    assert Filter(ds[..2], p) == [t1141, t1177];
    assert Filter(ds[..3], p) == [t1141, t1177];
    assert Filter(ds, p) == Filter(ds[..3], p) + [t1178];
  }

  lemma {:induction false} SortOfExample(t1141: Train, t1177: Train, t1178: Train)
    requires t1177.price == t1178.price < t1141.price
    ensures SortByKey(ByPrice, [t1141, t1177, t1178]) == [t1177, t1178, t1141]
  {
    var m := [t1141, t1177, t1178];
    assert m[..2][..1][..0] == [] && m[..2] == m[..|m| - 1] && m[..2][..1] == m[..1];
    assert SortByKey(ByPrice, m[..1]) == [t1141];
    assert Insert(ByPrice, [t1141], t1177) == [t1177, t1141];
    assert SortByKey(ByPrice, m[..2]) == [t1177, t1141];
    assert [t1177, t1141][..1] == [t1177];
    assert Insert(ByPrice, [t1177], t1178) == [t1177, t1178];
    assert SortByKey(ByPrice, m) == Insert(ByPrice, [t1177, t1141], t1178);
  }

  /** Station inputs the source rejects, and two it accepts. */
  lemma {:induction false} StationInputExamples()
    ensures !IsStationInput("")
    ensures !IsStationInput("-5")
    ensures !IsStationInput("19a2")
    ensures !IsStationInput("12x")
    ensures IsStationInput("1902") && Atoi("1902") == Some(1902)
    ensures IsStationInput("-0") && Atoi("-0") == Some(0)
  {
    assert "-5"[1..] == "5";
    assert "-0"[1..] == "0";
    assert !IsDigit("19a2"[2]);
    assert !IsDigit("12x"[2]);
    assert "1902"[..3][..2][..1] == "1";
  }

  /** A record decoded from the zero record without an arrival time keeps
      Go's zero time there, so sorted by arrival time it comes after every
      record whose arrival time was parsed. */
  lemma {:induction false} MissingTimeSortsLast(raw: map<string, JValue>, t: Train)
    requires ArrivalTimeKey !in raw
    requires t.arrivalTime.TimeOfDay?
    ensures Decoded(ZeroTrain, raw).arrivalTime == ZeroTime
    ensures Key(ByArrivalTime, t) < Key(ByArrivalTime, Decoded(ZeroTrain, raw))
  {
    ParsedBeforeZero(t.arrivalTime.secs);
  }
}
