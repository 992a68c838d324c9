/** The plugin seam of the toolkit: each capability is a contract with one
    defining operation, and a concrete algorithm is a value that supplies it.
    The tagger, noun-phrase extractor and parser contracts carry no behaviour
    of their own, so they are records holding the operation a concrete
    implementation provides. */
module Base {

  datatype Option<T> = None | Some(value: T)

  /** A part-of-speech tagger: `tag(text, tokenize)` gives (word, tag) pairs in
      the order the words occur; `tokenize = false` means `text` is already
      tokenized. The flag defaults to true for callers that leave it out; here
      every caller passes it. */
  datatype Tagger = Tagger(tag: (string, bool) -> seq<(string, string)>)

  /** A noun-phrase extractor: `extract(text)` gives the noun phrases found. */
  datatype NPExtractor = NPExtractor(extract: string -> seq<string>)

  /** The text a parser accepts: a character string or a byte string. */
  datatype AnyStr = Chars(chars: string) | Bytes(bytes: seq<bv8>)

  /** A parser: `parse(text)` gives a result whose shape `R` the concrete
      parser chooses. */
  datatype Parser<R> = Parser(parse: AnyStr -> R)
}
