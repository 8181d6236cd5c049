# Train search ("Ukrzaliznytsia 3000"), modelled in Dafny

This Dafny model covers the core of a small Go command-line tool. The tool
reads a list of train records and answers one question: which trains run
from departure station X to arrival station Y, ordered by price, arrival
time or departure time, at most three of them.

It models two operations:

- **`FindTrains`** (`Search.FindTrains`) takes two station inputs and a
  criterion. Its checks run in the source's order:
  1. empty departure station;
  2. malformed or negative departure station;
  3. empty arrival station;
  4. malformed or negative arrival station.

  It then keeps the trains that run between the two stations, preserving
  dataset order. Next it checks the criterion, after filtering, as the
  source does. It sorts the matches stably by the criterion's key in place
  on an array, and cuts the result to `CountOfRecords` (3). The dataset is a
  parameter.
- **`Train.UnmarshalJSON`** (`Decoder.UnmarshalJSON`) decodes one JSON
  object into a record, key by key, in an order the caller cannot choose.
  - A numeric field must hold a JSON number.
  - A time field must hold a string in the layout `15:04:05`.
  - Unknown keys are ignored.
  - The first bad key stops decoding with the error `"bad parse " + key`.
    The fields decoded before it stay set.

Supporting modules:

- `Strconv`: `strconv.Atoi` on the station inputs. It takes an optional
  sign, then at least one digit. Its partner `Itoa` gives the round trip.
- `Clock`: Go's `time.Parse` with the layout `15:04:05`, and the ordering
  of `time.Time` values. Its partner `FormatClock` gives the round trip.
- `Seqs`: order-preserving filtering.
- `Trains`: the record and the source's constants.
- `Scenarios`: the test's expected answer, stated on the model.

Time values follow Go exactly:

- `time.Parse("15:04:05", …)` gives an instant on 0000-01-01.
- Year 0 is a leap year, so `Clock.Instant` puts the zero time at 366 days
  after 0000-01-01 00:00:00. That is more than a day after every parsed
  time. A record missing a time field therefore sorts after every record
  that has one (`Clock.ParsedBeforeZero`).
- A time field no key sets keeps Go's zero `time.Time` (0001-01-01), not
  midnight; the model follows the code.

The sort is specified by a functional insertion sort, `Search.SortByKey`.
Lemmas prove that it is sorted and that it is a permutation of its input.
They also prove that it is stable: for every key, the trains with that key
keep their relative order. `Search.StableSortIsSortByKey` shows that any
sorted sequence with those stable key classes equals `SortByKey`. So the
model gives the unique answer `sort.SliceStable` must give, whatever
algorithm sorts.

## Model

| member | source | states |
|---|---|---|
| Strconv.Atoi | main.go:102-105 | a station input is accepted exactly when it is an optional `+` or `-` followed by a non-empty run of digits; only a leading `-` yields a negative value |
| Strconv.DecimalCanonical | main.go:102 | a run of digits is the shortest digit string of its value after some leading zeros |
| Strconv.AtoiCanonical | main.go:102-105 | an accepted input is an optional sign, then zeros, then exactly the digits `Itoa` writes for the value; `-` precedes every negative value and no positive one |
| Strconv.AtoiItoa | main.go:102 | `Atoi` reads back every integer `Itoa` writes |
| Strconv.AtoiLenient | main.go:102-105 | leading zeros and `+` do not change the value; `-0` reads as 0, so it passes the `< 0` check |
| Clock.Instant | main.go:39-40 | a parsed time of day lies within the first day of year 0; the zero time lies beyond it |
| Clock.Before | main.go:128-130 | `time.Time.Before`: a parsed time is before the zero time, nothing is before an unset time except a parsed one, and two parsed times compare by time of day |
| Clock.ParsedBeforeZero | main.go:128-130 | every parsed time is `Before` the zero time, so records with unset times sort last |
| Clock.ParseClock | main.go:230-233 | accepted text has 7 or 8 characters: a 1- or 2-digit hour, then `:MM:SS`, with colons in place; anything else is a parse error |
| Clock.ParseFormat | main.go:17 | every time of day, formatted in the layout, parses back to itself |
| Clock.ParseFormatShort | main.go:17 | every time before 10:00 also parses from its text with the hour's leading zero dropped |
| Clock.FormatParse | main.go:17 | parsing keeps every field: the formatted parse result is the input text, with a one-digit hour zero-padded |
| Clock.ParseClockExamples | main.go:242-245 | "10:25:00" and "9:05:00" parse to their seconds; "25:99:00" is rejected |
| Decoder.Accepts | main.go:191-248 | the four numeric keys accept exactly JSON numbers, the two time keys exactly strings that parse in the layout, and any other key anything |
| Decoder.BadKeys | main.go:190-248 | only the six recognised keys can make decoding fail, and only keys present in the object |
| Decoder.UnmarshalJSON | main.go:182-252 | succeeds exactly when no key is bad, with every present field decoded and the rest kept; otherwise the error names a bad key, and the record shows some good keys decoded |
| Decoder.DecodedAdd | main.go:191-247 | one good entry changes exactly the field its key names |
| Decoder.UnknownKeyIgnored | main.go:191-248 | an unknown key changes neither the failing keys nor the decoded record |
| Decoder.Decoded | main.go:190-251 | the record a full decode leaves: a field whose key is absent keeps its value from before decoding |
| Decoder.DecodeEncode | main.go:190-247 | decoding the object written for a record gives that record back, from any starting record, and no key fails |
| Decoder.DecodeErrorExamples | main.go:216-235 | a price given as a string, or an out-of-range arrival time, is the one failing key |
| Seqs.Filter | main.go:116-122 | the route filter's result is no longer than the dataset; its members and order are given by the three lemmas below |
| Seqs.FilterMembers | main.go:116-122 | a train is kept exactly when it is in the dataset and satisfies the route test |
| Seqs.FilterAppend | main.go:118-122 | filtering distributes over concatenation, so the loop may filter one element at a time |
| Seqs.FilterPrefix | main.go:137-139 | filtering a prefix gives a prefix of the filtered sequence |
| Search.ParseCriterion | main.go:124-134 | a criterion is recognised exactly when the input is one of its three names |
| Search.Key | main.go:126-130 | the sort key: the price under `price`; under a time criterion it is within the first day exactly when the time field was set |
| Search.KeyIsGoLess | main.go:125-130 | comparing keys is the source's comparator: `<` on price, `Before` on the times |
| Search.Cap | main.go:136-145 | the result is a prefix of the sorted matches, of length min(n, 3) |
| Search.SortByKey | main.go:125-130 | the reference stable sort keeps the number of trains; the lemmas below show it sorted, a permutation and stable |
| Search.SortByKeyPermutes | main.go:125-130 | the sort is a permutation of its input |
| Search.SortByKeySorted | main.go:125-130 | the sort's output is in ascending key order |
| Search.InsertSorted | main.go:125-130 | inserting into a sorted sequence keeps it sorted |
| Search.SortByKeyStable | main.go:125-130 | for every key, the trains with that key keep their input order |
| Search.SortedByKeyClassesUnique | main.go:125-130 | two sorted sequences with equal key classes are equal |
| Search.StableSortIsSortByKey | main.go:125-130 | any stable sort's output equals `SortByKey` |
| Search.InsertStep | main.go:126-130 | one insertion step turns `a[..i+1]` into `a[i]` inserted into the sorted prefix; the rest of the array is unchanged |
| Search.StableSort | main.go:126-130 | after sorting in place, the array holds `SortByKey` of its old contents |
| Search.Found | main.go:116-145 | a successful search returns at most `CountOfRecords` trains |
| Search.FoundSorted | main.go:125-130 | the result is in ascending key order |
| Search.FoundFromDataset | main.go:116-122 | every returned train is in the dataset and runs between the two stations |
| Search.FoundStable | main.go:125-139 | for every key, the returned trains with that key are the first such matches, in dataset order |
| Search.FoundLeastKeys | main.go:136-139 | no matching train left out has a smaller key than a returned one |
| Search.FoundNothing | main.go:140-143 | with no train between the stations the search succeeds with an empty result |
| Search.FindTrains | main.go:91-146 | each input error, in the source's order and with its own message; the criterion is checked after filtering; otherwise the result is `Found` |
| Scenarios.AllCorrect | main_test.go:17-25 | of trains 1141, 1177 and 1178 on route 1902→1929, with 1177 and 1178 equal in price and cheaper, the search by price gives 1177, 1178, 1141; another route's train is dropped |
| Scenarios.MissingTimeSortsLast | main.go:224-234 | a record decoded from the zero record without an arrival time keeps the zero time and sorts after every record with a parsed arrival time |
| Scenarios.StationInputExamples | main.go:98-114 | "", "-5", "19a2" and "12x" are rejected as stations; "1902" and "-0" are accepted |

## Left out

- `main` is not modelled. It reads three lines from standard input, trims
  quotes, prints and calls `log.Fatal`, all of which is console I/O.
- `readFile` and `closeFile` are not modelled. They open `data.json`, check
  it with `json.Valid` and unmarshal the whole array, exiting the process on
  failure. The dataset is a parameter of `Search.FindTrains` instead. Each
  record of it would be `Decoder.UnmarshalJSON` applied to
  `Trains.ZeroTrain`.
- Turning bytes into a JSON object (main.go:183-188) is not modelled. That
  includes the `"unmarshal error"` it returns on malformed JSON.
  `Decoder.UnmarshalJSON` starts from the parsed object.
- Numbers are not floating point. Prices are `float32` in the source and
  JSON numbers are `float64`, converted to `int` by truncation. The model
  uses integers, so a fraction in a station id or a train id is not
  modelled, and neither is rounding a price to `float32`.
- `Clock.ParseClock` does not accept the fractional seconds that Go's
  `time.Parse` tolerates after the seconds field (e.g. `10:25:00.5`).
  `time.Time`'s location and monotonic reading are not modelled either.
- `Strconv.Atoi` does not model the range error `strconv.Atoi` reports for
  values beyond 64 bits. The model's integers are unbounded.
- `Search.StableSort` is an insertion sort, not Go's `sort.SliceStable`
  algorithm. `Search.StableSortIsSortByKey` shows that every stable sort
  has the same output.
- `Search.FindTrains` does not distinguish a nil slice from an empty one.
  The source returns nil when nothing matches; the model returns `Ok([])`.
- `Search.FindTrains` does not model aliasing. The source returns
  `result[:3]`, which shares its backing array with the sorted matches; the
  model returns a copied sequence.
- The decoder does not check station ids for being non-negative, and
  neither does the model (`Decoder.Decoded` stores any integer).
