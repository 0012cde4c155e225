/** An optional value: an operand that was never assigned, a run that is over, a parser that
    does not return. */
module Wrappers {

  datatype Option<+T> = None | Some(value: T) {
    function Or(default: T): T
    {
      if Some? then value else default
    }
  }
}
