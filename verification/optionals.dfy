/** An optional value, standing for a TypeScript `T | undefined`
    (a company that was not found, a credit limit that does not apply). */
module Optionals {

  datatype Option<+T> = None | Some(value: T)
}
