/** The train record and the program's fixed constants. */
module Trains {
  import opened Clock

  /** Most records a search returns. */
  const CountOfRecords := 3

  const EmptyDeptSt := "empty departure station"
  const BadDeptSt := "bad departure station input"
  const EmptyArrSt := "empty arrival station"
  const BadArrSt := "bad arrival station input"
  const UnsCriteria := "unsupported criteria"
  const ParseErr := "bad parse "

  /** One schedule entry. `price` is an integer sort key (for instance the
      fare in cents) in place of the source's `float32`. */
  datatype Train = Train(
    trainId: int,
    departureStationId: int,
    arrivalStationId: int,
    price: int,
    arrivalTime: TimeValue,
    departureTime: TimeValue)

  /** The zero value a record starts from before its fields are decoded. */
  const ZeroTrain := Train(0, 0, 0, 0, ZeroTime, ZeroTime)
}
