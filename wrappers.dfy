/** Option and Result values, and the Python exceptions that the modelled code raises. */
module Wrappers {

  datatype Option<+T> = None | Some(value: T)

  /** The Python exceptions raised (and sometimes caught) by the toolbox. */
  datatype PyError =
    | ValueError(message: string)   // calculate_shielded_dose, or float() on text that is no number
    | KeyError(key: string)         // a failed dictionary lookup
    | ZeroDivisionError             // float division by zero
    | EOFError                      // input() after the console input has ended

  /** A value, or the exception that the Python code raises instead. */
  datatype Result<+T> = Ok(value: T) | Err(error: PyError)
}
