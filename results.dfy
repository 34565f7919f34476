/** Failure outcomes of the interpolation engine. The source throws a runtime error in two places;
    the model returns them as values. */
module Results {

  datatype Error =
    | OutsideDomain        // findZero: the target lies outside the axis range
    | AccessOutsideDomain  // getResult: an index lies outside the value table
    | ReadPastEnd          // no throw in the source: an unchecked read beyond the value table (undefined behaviour)

  datatype Result<T> = Ok(value: T) | Err(error: Error)
}
