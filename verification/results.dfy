/** Outcomes shared by every layer of the driver: the exceptions the C# code
    raises become the `Err` side of `Result`. */
module Results {

  datatype Option<+T> = None | Some(value: T)

  /** The exceptions the modelled code can raise. */
  datatype Fault =
    | CharOverflow       // Convert.ToByte(char) on a character above U+00FF
    | EmptyResponse      // data.Last() on an immediate reply with no bytes
    | Disposed           // a facade used after Dispose dropped its connection
    | SpeedOutOfRange    // pump speed outside 0..4800
    | ReverseNotAllowed  // Backwards without allowReverse
    | MissingSeparator   // Substring(0, IndexOf(" ")) with no space present
    | BadNumber          // int.Parse on text that is not an Int32

  datatype Result<+T> = Ok(value: T) | Err(fault: Fault)
}
