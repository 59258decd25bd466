/** Small helper types shared by every part of the model. */
module Wrappers {

  /** A value that may be absent: C#'s `null` reference or an empty `Nullable<T>`. */
  datatype Option<+T> = None | Some(value: T) {
    /** The `??` operator: the value, or `default` when there is none. */
    function GetOr(default: T): T {
      if Some? then value else default
    }
  }

  /** How a call into the modelled code ended: normally, or with the runtime fault it raises. */
  datatype Outcome = Completed | Faulted(fault: Fault)

  datatype Fault =
    | NullReference        // a member was accessed through a null reference
    | NullableWithoutValue // `.Value` was read on an empty `Nullable<T>`
    | IndexOutOfRange      // an array was indexed outside its bounds
    | DrawsExhausted       // a loop that draws random numbers had not ended when the supplied draws ran out
}
