/** The tolerant record decoder `Train.UnmarshalJSON`, starting from the
    already-parsed JSON object. */
module Decoder {
  import opened Results
  import opened Clock
  import opened Trains

  /** A JSON value as the generic parse produces it; numbers are integers here. */
  datatype JValue =
    | JNull
    | JBool(b: bool)
    | JNumber(n: int)
    | JString(s: string)
    | JArray(items: seq<JValue>)
    | JObject(members: map<string, JValue>)

  const TrainIdKey := "trainId"
  const DepartureStationIdKey := "departureStationId"
  const ArrivalStationIdKey := "arrivalStationId"
  const PriceKey := "price"
  const ArrivalTimeKey := "arrivalTime"
  const DepartureTimeKey := "departureTime"

  predicate IsNumberKey(k: string) {
    k == TrainIdKey || k == DepartureStationIdKey || k == ArrivalStationIdKey || k == PriceKey
  }

  predicate IsTimeKey(k: string) {
    k == ArrivalTimeKey || k == DepartureTimeKey
  }

  /** The time of day a JSON value denotes, if it is a string in the layout. */
  function TimeOf(v: JValue): Option<DaySeconds> {
    if v.JString? then ParseClock(v.s) else None
  }

  /** Whether the decoder accepts value `v` under key `k`: numbers for the four
      numeric keys, parsable time strings for the two time keys, anything for
      a key it does not know. */
  predicate Accepts(k: string, v: JValue): (b: bool)
    ensures IsNumberKey(k) ==> (b <==> v.JNumber?)
    ensures IsTimeKey(k) ==> (b <==> v.JString? && ParseClock(v.s).Some?)
    ensures !IsNumberKey(k) && !IsTimeKey(k) ==> b
  {
    if IsNumberKey(k) then v.JNumber?
    else if IsTimeKey(k) then TimeOf(v).Some?
    else true
  }

  /** The keys whose values make the decoder fail; only recognised keys can. */
  function BadKeys(raw: map<string, JValue>): (bad: set<string>)
    ensures bad <= raw.Keys
    ensures forall k :: k in bad ==> IsNumberKey(k) || IsTimeKey(k)
  {
    set k | k in raw && !Accepts(k, raw[k])
  }

  /** The entries of `raw` under the keys in `keys`. */
  function Restrict(raw: map<string, JValue>, keys: set<string>): (m: map<string, JValue>)
    ensures m.Keys == raw.Keys * keys
  {
    map k | k in raw && k in keys :: raw[k]
  }

  function NumberField(raw: map<string, JValue>, key: string, prior: int): int {
    if key in raw && raw[key].JNumber? then raw[key].n else prior
  }

  function TimeField(raw: map<string, JValue>, key: string, prior: TimeValue): TimeValue {
    if key in raw && TimeOf(raw[key]).Some? then TimeOfDay(TimeOf(raw[key]).value) else prior
  }

  /** The record after decoding `raw` into `prior`: every recognised field
      present in `raw` takes its decoded value, every other keeps its value. */
  function Decoded(prior: Train, raw: map<string, JValue>): (tr: Train)
    ensures TrainIdKey !in raw ==> tr.trainId == prior.trainId
    ensures DepartureStationIdKey !in raw ==> tr.departureStationId == prior.departureStationId
    ensures ArrivalStationIdKey !in raw ==> tr.arrivalStationId == prior.arrivalStationId
    ensures PriceKey !in raw ==> tr.price == prior.price
    ensures ArrivalTimeKey !in raw ==> tr.arrivalTime == prior.arrivalTime
    ensures DepartureTimeKey !in raw ==> tr.departureTime == prior.departureTime
  {
    Train(
      NumberField(raw, TrainIdKey, prior.trainId),
      NumberField(raw, DepartureStationIdKey, prior.departureStationId),
      NumberField(raw, ArrivalStationIdKey, prior.arrivalStationId),
      NumberField(raw, PriceKey, prior.price),
      TimeField(raw, ArrivalTimeKey, prior.arrivalTime),
      TimeField(raw, DepartureTimeKey, prior.departureTime))
  }

  /** `tr` is what decoding some of the keys of `raw`, all of them good, makes
      of `prior`: the state a failed decode leaves behind. */
  ghost predicate PartlyDecoded(prior: Train, raw: map<string, JValue>, tr: Train) {
    exists done :: done <= raw.Keys && BadKeys(Restrict(raw, done)) == {}
      && tr == Decoded(prior, Restrict(raw, done))
  }

  /** Adding one good entry under a new key changes only the field it names. */
  lemma {:induction false} DecodedAdd(prior: Train, m: map<string, JValue>, k: string, v: JValue)
    requires k !in m && Accepts(k, v)
    ensures BadKeys(m[k := v]) == BadKeys(m)
    ensures Decoded(prior, m[k := v]) ==
      var tr := Decoded(prior, m);
      if k == TrainIdKey then tr.(trainId := v.n)
      else if k == DepartureStationIdKey then tr.(departureStationId := v.n)
      else if k == ArrivalStationIdKey then tr.(arrivalStationId := v.n)
      else if k == PriceKey then tr.(price := v.n)
      else if k == ArrivalTimeKey then tr.(arrivalTime := TimeOfDay(TimeOf(v).value))
      else if k == DepartureTimeKey then tr.(departureTime := TimeOfDay(TimeOf(v).value))
      else tr
  {
  }

  /** Decodes `raw` into the record `prior`, visiting the keys in an order the
      caller cannot choose (Go's map order), and returns the record as it then
      stands together with the error, if any. */
  method UnmarshalJSON(prior: Train, raw: map<string, JValue>) returns (tr: Train, err: Option<string>)
    ensures err.None? <==> BadKeys(raw) == {}
    ensures err.None? ==> tr == Decoded(prior, raw)
    ensures err.Some? ==> exists k :: k in BadKeys(raw) && err.value == ParseErr + k
    ensures err.Some? ==> PartlyDecoded(prior, raw, tr)
  {
    tr := prior;
    var pending := raw.Keys;
    ghost var done: set<string> := {};
    while pending != {}
      invariant pending !! done && pending + done == raw.Keys
      invariant BadKeys(Restrict(raw, done)) == {}
      invariant tr == Decoded(prior, Restrict(raw, done))
      decreases pending
    {
      var k :| k in pending;
      var v := raw[k];
      assert Restrict(raw, done + {k}) == Restrict(raw, done)[k := v];
      if Accepts(k, v) {
        DecodedAdd(prior, Restrict(raw, done), k, v);
      }
      if k == TrainIdKey || k == DepartureStationIdKey || k == ArrivalStationIdKey || k == PriceKey {
        if !v.JNumber? {
          assert k in BadKeys(raw);
          return tr, Some(ParseErr + k);
        }
        if k == TrainIdKey {
          tr := tr.(trainId := v.n);
        } else if k == DepartureStationIdKey {
          tr := tr.(departureStationId := v.n);
        } else if k == ArrivalStationIdKey {
          tr := tr.(arrivalStationId := v.n);
        } else {
          tr := tr.(price := v.n);
        }
      } else if k == ArrivalTimeKey || k == DepartureTimeKey {
        if !v.JString? {
          assert k in BadKeys(raw);
          return tr, Some(ParseErr + k);
        }
        var t := ParseClock(v.s);
        if t.None? {
          assert k in BadKeys(raw);
          return tr, Some(ParseErr + k);
        }
        if k == ArrivalTimeKey {
          tr := tr.(arrivalTime := TimeOfDay(t.value));
        } else {
          tr := tr.(departureTime := TimeOfDay(t.value));
        }
      }
      pending := pending - {k};
      done := done + {k};
    }
    assert Restrict(raw, done) == raw;
    err := None;
  }

  /** Keys the decoder does not know change neither the outcome nor the record. */
  lemma {:induction false} UnknownKeyIgnored(prior: Train, raw: map<string, JValue>, k: string, v: JValue)
    requires !IsNumberKey(k) && !IsTimeKey(k)
    ensures BadKeys(raw[k := v]) == BadKeys(raw) - {k}
    ensures Decoded(prior, raw[k := v]) == Decoded(prior, raw)
  {
  }

  /** The JSON object a record with both times set is written as. */
  function Encode(t: Train): (raw: map<string, JValue>)
    requires t.arrivalTime.TimeOfDay? && t.departureTime.TimeOfDay?
    ensures raw.Keys == {TrainIdKey, DepartureStationIdKey, ArrivalStationIdKey, PriceKey, ArrivalTimeKey, DepartureTimeKey}
  {
    map[TrainIdKey := JNumber(t.trainId),
        DepartureStationIdKey := JNumber(t.departureStationId),
        ArrivalStationIdKey := JNumber(t.arrivalStationId),
        PriceKey := JNumber(t.price),
        ArrivalTimeKey := JString(FormatClock(t.arrivalTime.secs)),
        DepartureTimeKey := JString(FormatClock(t.departureTime.secs))]
  }

  /** Decoding the object written for a record gives that record back,
      whatever the starting record. */
  lemma {:induction false} DecodeEncode(prior: Train, t: Train)
    requires t.arrivalTime.TimeOfDay? && t.departureTime.TimeOfDay?
    ensures BadKeys(Encode(t)) == {}
    ensures Decoded(prior, Encode(t)) == t
  {
    ParseFormat(t.arrivalTime.secs);
    ParseFormat(t.departureTime.secs);
    var raw := Encode(t);
    forall k | k in raw ensures Accepts(k, raw[k]) {
    }
  }

  /** A price given as a string, and an arrival time out of range, are each
      the one key a decode of these objects can name in its error. */
  lemma {:induction false} DecodeErrorExamples()
    ensures BadKeys(map[TrainIdKey := JNumber(1177), PriceKey := JString("164.65")]) == {PriceKey}
    ensures BadKeys(map[TrainIdKey := JNumber(1177), ArrivalTimeKey := JString("25:99:00")]) == {ArrivalTimeKey}
  {
    ParseClockExamples();
    var a := map[TrainIdKey := JNumber(1177), PriceKey := JString("164.65")];
    assert PriceKey in BadKeys(a);
    var b := map[TrainIdKey := JNumber(1177), ArrivalTimeKey := JString("25:99:00")];
    assert ArrivalTimeKey in BadKeys(b);
  }
}
