/** The failures the evaluation script can run into, and the two wrappers that carry them. */
module Errors {

  /** The Python exceptions the core raises and does not catch. */
  datatype Error =
    | KeyError(key: string)   // a dict lookup (`row['query']`, `query_trans[...]`) on a missing key
    | IndexError              // `spacy_model(form)[0]` on a document without tokens
    | ZeroDivisionError       // `correct / total` with no candidate lines

  datatype Option<+T> = None | Some(value: T)

  datatype Result<+T> = Ok(value: T) | Err(error: Error)
}
