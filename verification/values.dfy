/** The driver-level argument values that the query builders hand to the
    database along with a statement (Go's `interface{}` arguments). */
module Values {

  datatype Value =
    | IntValue(i: int)
    | TextValue(s: string)
    | BoolValue(b: bool)
    | NullValue
}
