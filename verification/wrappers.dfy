/** Option and Result values standing for PHP's NULL and for the exceptions the source throws. */
module Wrappers {

  datatype Option<+T> = None | Some(value: T)

  /** The exception classes the modelled code raises. */
  datatype Error =
    | InvalidArgument   // Kohana_InvalidArgument_Exception
    | InvalidProperty   // Throwable\InvalidProperty\Exception
    | SqlError          // Throwable\SQL\Exception
    | DatabaseError     // Throwable\Database\Exception
    | TypeMismatch      // a PHP TypeError raised by a built-in

  datatype Result<+T> = Ok(value: T) | Err(error: Error)

  /** The outcome of a method that returns `$this` or throws. */
  datatype Outcome = Pass | Fail(error: Error)

  /** \Leap\Core\DB\SQL\Command: an SQL text handed to a connection. */
  datatype Command = Command(text: string)
}
