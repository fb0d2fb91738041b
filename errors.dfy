/** The Java exceptions the modelled code throws, catches or wraps, and the two
    shapes in which a modelled call ends: with a value, or by throwing. */
module Errors {

  datatype Option<T> = None | Some(value: T)

  datatype Exception =
    | IOException                      // java.io.IOException
    | NullPointer                      // java.lang.NullPointerException
    | TransportFailure                 // org.apache.thrift.transport.TTransportException
    | InvalidRequest                   // org.apache.cassandra.thrift.InvalidRequestException
    | NotFound                         // org.apache.cassandra.thrift.NotFoundException
    | IllegalArgument(cause: Exception) // new IllegalArgumentException(cause)
    | Runtime(cause: Exception)         // new RuntimeException(cause)

  /** A call that returns a value of type T or throws. */
  datatype Result<T> = Ok(value: T) | Err(ex: Exception)

  /** A call of a void method: it returns normally or throws. */
  datatype Outcome = Done | Threw(ex: Exception)
}
