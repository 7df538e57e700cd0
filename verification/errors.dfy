/** The exceptions the report job raises or catches, one constructor per kind. */
module Errors {

  datatype Error =
    | ValueError(message: string)       // bad dates, bad configuration, empty report data
    | ConnectionError(message: string)  // no live database session could be obtained
    | DatabaseError                     // a driver call failed after the session was live
    | KeyError(key: string)             // a configuration section or key is missing
    | TypeError                         // a value of the wrong shape reached an operation
    | OverflowError                     // calendar arithmetic left the supported date range
    | OSError                           // the local report file could not be written
    | Interrupted                       // the user interrupted the run (KeyboardInterrupt)
}
