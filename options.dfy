/** Optional values and results with an error, for the bot's "row or None" lookups and its error replies. */
module Options {

  datatype Option<T> = None | Some(value: T)

  datatype Result<T, E> = Ok(value: T) | Err(error: E)
}
