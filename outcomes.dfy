/** How a step of the generator can end: with a value, or with the Python
    exception it raises. */
module Outcomes {

  datatype Error =
    | FloatingPointError   // np.errstate(... 'raise') tripped by an out-of-domain argument
    | IndexError           // random.choice on an empty list
    | TypeError            // a function called with the wrong number of arguments

  datatype Result<T> = Ok(value: T) | Err(error: Error)
}
