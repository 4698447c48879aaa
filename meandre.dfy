/**
 * What a Meandre component sees of its framework: the exceptions that escape
 * `execute` and the values it pushes to its output ports, in order.
 */
module Meandre {

  /** Why a component failed. */
  datatype Cause =
    | RemoteFault           // the Fedora stub threw (SOAP fault, transport error, ...)
    | NullListSession       // `getListSession()` returned null and was dereferenced
    | InvalidForced         // the `forced` property is neither "true" nor "false"
    | NegativeArraySize     // `new byte[bsize]` with a negative size
    | StreamFault           // an IOException while reading a stream
    | MissingFile           // the file to ingest could not be opened

  /** An exception that leaves `execute`. */
  datatype Thrown =
    | ComponentExecution(cause: Cause)   // wrapped in a ComponentExecutionException
    | IllegalArgument                    // `new ArrayList(n)` with n < 0, not wrapped

  /** A value pushed to an output port. */
  datatype PortValue = Strings(items: seq<string>) | Text(text: string)

  datatype Push = Push(port: string, value: PortValue)
}
