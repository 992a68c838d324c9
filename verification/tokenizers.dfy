/** Tokenizers: the eager `tokenize` a concrete tokenizer supplies, and the
    on-demand `itokenize` every tokenizer inherits, which yields the tokens of
    `tokenize` one at a time. */
module Tokenizers {
  import opened Base

  /** A generator over a token list that was computed when the generator was
      created: `consumed` tokens have been handed out so far. */
  datatype TokenGenerator = TokenGenerator(tokens: seq<string>, consumed: nat)
  {
    predicate Valid() { consumed <= |tokens| }

    predicate Exhausted() { consumed == |tokens| }

    /** The tokens still to be yielded. */
    function Remaining(): seq<string>
      requires Valid()
    {
      tokens[consumed..]
    }
  }

  /** One request for the next token: `None` when the generator is exhausted
      (Python's StopIteration), otherwise the next token and the advanced
      generator, which still yields everything after it. */
  function Next(g: TokenGenerator): (r: Option<(string, TokenGenerator)>)
    requires g.Valid()
    ensures r.None? <==> g.Exhausted()
    ensures r.Some? ==> r.value.1.Valid() && r.value.1.tokens == g.tokens
    ensures r.Some? ==> [r.value.0] + r.value.1.Remaining() == g.Remaining()
  {
    if g.consumed == |g.tokens| then None
    else
      var rest := TokenGenerator(g.tokens, g.consumed + 1);
      assert [g.tokens[g.consumed]] + rest.Remaining() == g.Remaining();
      Some((g.tokens[g.consumed], rest))
  }

  /** What a consumer collects by asking for tokens until the generator is
      exhausted (`list(generator)`): exactly the tokens not yet yielded, in
      order. */
  function Drain(g: TokenGenerator): (r: seq<string>)
    requires g.Valid()
    ensures r == g.Remaining()
    decreases |g.tokens| - g.consumed
  {
    match Next(g)
    case None => []
    case Some((t, rest)) => [t] + Drain(rest)
  }

  /** A tokenizer. `tokenize(text, args)` is the eager operation a concrete
      tokenizer supplies; `A` stands for whatever extra positional and keyword
      arguments it accepts. */
  datatype Tokenizer<-A> = Tokenizer(tokenize: (string, A) -> seq<string>)
  {
    /** The on-demand variant: the extra arguments go to `tokenize` unchanged,
        and draining the generator gives exactly the eager tokens, in the same
        order, with none when `tokenize` finds none. */
    function ITokenize(text: string, args: A): (g: TokenGenerator)
      ensures g.Valid() && g.consumed == 0
      ensures Drain(g) == tokenize(text, args)
      ensures g.Exhausted() <==> tokenize(text, args) == []
    {
      TokenGenerator(tokenize(text, args), 0)
    }
  }
}
