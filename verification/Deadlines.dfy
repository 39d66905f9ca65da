/** A deadline argument: the zero time disables it. */
module Deadlines {
  datatype Target = Never | At(time: int)
}
