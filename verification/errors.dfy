/** The exceptions the components raise, catch and record in `last_error`.
    The Python code stores `str(e)`; the model keeps the kind of exception
    and, for `ValueError`, the message the Python code passes to it. */
module Errors {

  datatype Error =
    | ValueError(message: string)
    /** An operation applied to a value of the wrong type, such as `<`
        between a string and a number or `x["k"]` on a list. */
    | TypeError
    | KeyError(key: string)
    /** A name used but never bound, such as a module that was not imported. */
    | NameError(name: string)
    /** The JSON serializer refused the value. */
    | EncodeFailure
    /** The JSON parser refused the text. */
    | DecodeFailure
}
