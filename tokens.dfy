/** What the script sees of the spaCy pipeline: a document is a sequence of tagged tokens. */
module Tokens {

  /** A spaCy token as far as the script uses it: its `lemma_` and its `pos_` tag. */
  datatype Token = Token(lemmaForm: string, pos: string)

  /** The loaded spaCy model applied to a string: tokenize, tag and lemmatize. Opaque to the script. */
  type Lemmatizer = string -> seq<Token>

  const VerbTag := "VERB"
}
