/** Values shared by every part of the scraper: optional values, results,
    the errors the Go code returns, and the outcome of an HTTP fetch
    followed by a JSON decode. */
module Base {

  datatype Option<T> = None | Some(value: T)

  /** The errors the scraper returns (`error` values in the Go code). */
  datatype Error =
    | HttpError                            // the GET or the read of its body failed
    | UnmarshalError                       // the body is not valid JSON of the expected shape
    | NoSuccessfulProwJobs(jobName: string) // no successful run of the job in the feed
    | DataItemsNotFound                    // `dataItems` is absent or not an array
    | InvalidDataItemFormat                // an element of `dataItems` is not an object
    | MetricNameNotFound                   // an element's `labels` names no metric
    | DataNotFound                         // an element's `data` is absent or not an object

  datatype Result<T> = Ok(value: T) | Err(error: Error)

  /** What a GET of a URL followed by decoding its body yields.
      The network and the JSON decoder are not modelled: their outcome
      is an input of the operations that use them. */
  datatype Fetched<T> = GetFailed | DecodeFailed | Decoded(value: T)
}
