/** Optional values, the error kinds of the index, and results carrying either. */
module Results {
  import opened Semver

  datatype Option<T> = None | Some(value: T)

  datatype Error =
    | TooManyComparators                 // an AND-group with more than two comparators
    | MissingComparator                  // an empty AND-group: reading `.operator` of undefined
    | UnexpectedOperator(op: Operator)   // a lone comparator with an unknown operator
    | UnexpectedLowerOperator(op: Operator)
    | UnexpectedUpperOperator(op: Operator)
    | InvalidRange                       // the query's range string does not parse
    | OrRangeUnsupported                 // the query's range has more than one OR-group
    | FetchFailed(key: string)           // a matched record's document could not be read

  datatype Result<T> = Ok(value: T) | Err(error: Error)
}
