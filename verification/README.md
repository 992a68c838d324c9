# TextBlob model base classes, in Dafny

TextBlob's `textblob.base` module fixes the plugin seam of the toolkit. Five
abstract base classes name the one operation each kind of model must supply:
a part-of-speech tagger (`tag`), a noun-phrase extractor (`extract`), a
tokenizer (`tokenize`), a sentiment analyzer (`analyze`) and a parser
(`parse`). Two of them carry behaviour of their own, and that behaviour is
what this project models and proves:

- `BaseTokenizer.itokenize`, the on-demand tokenizer every tokenizer
  inherits. It returns a generator over the result of the eager `tokenize`.
- `BaseSentimentAnalyzer`, whose `_trained` flag starts false. `train` sets
  it, and an explicit `train` on a trained analyzer runs training again.
  `analyze` runs `train` first only when the analyzer is not yet trained. The
  class-level `kind` is `DISCRETE` (`"ds"`), as opposed to `CONTINUOUS`
  (`"co"`).

Layout:

- `base.dfy` (module `Base`): `Option`, plus the seam for taggers, extractors
  and parsers. Each is a record that holds the operation a concrete
  implementation supplies: `Tagger(tag)`, `NPExtractor(extract)` and
  `Parser<R>(parse)`. `AnyStr` is the character-or-byte string a parser
  accepts.
- `tokenizers.dfy` (module `Tokenizers`): `Tokenizer<A>(tokenize)` with its
  member `ITokenize`. `A` stands for the extra positional and keyword
  arguments, which are passed on unchanged. A Python generator expression
  evaluates the list it iterates over when it is created, so `tokenize` runs
  when `itokenize` is called. Only the handing out of tokens is on demand.
  `TokenGenerator` is therefore a cursor over that list. `Next` is one
  request for a token, and returns `None` where Python raises
  StopIteration. `Drain` is what a consumer collects with `list(...)`.
- `sentiment.dfy` (module `Sentiment`): `Kind` and its codes. The abstract
  state is `AnalyzerState`: the flag, plus a ghost count of training steps.
  `Step` and `Run` give the effect of one call and of a sequence of calls.
  The class `SentimentAnalyzer` has the `trained` flag, the ghost counter and
  `kind`. Its methods are proved against `Step`.

## Model

| member | source | states |
|---|---|---|
| `Tokenizers.Next` | src/textblob/base.py:74 | One request to the generator returns nothing exactly when every token has been handed out. Otherwise it returns the next token, and the advanced generator still holds all the tokens after it. |
| `Tokenizers.Drain` | src/textblob/base.py:74 | Exhausting a generator collects exactly the tokens it has not yet handed out, in order. |
| `Tokenizers.Tokenizer.ITokenize` | src/textblob/base.py:67-74 | `itokenize(text, args)` passes the extra arguments on to `tokenize`. Draining its generator gives exactly `tokenize(text, args)`: same tokens, same order, same length. The generator is exhausted from the start exactly when `tokenize` returns no tokens. |
| `Sentiment.CodeInjective` | src/textblob/base.py:80-81 | The two kinds have different codes (`"ds"` and `"co"`). |
| `Sentiment.SentimentAnalyzer.constructor` | src/textblob/base.py:92-95 | A new analyzer is untrained, has run no training, and is of the `DISCRETE` kind. |
| `Sentiment.SentimentAnalyzer.Train` | src/textblob/base.py:97-99 | `train` leaves the analyzer trained whatever its state before. A second call in a row leaves the same flag, with no error. |
| `Sentiment.SentimentAnalyzer.Analyze` | src/textblob/base.py:101-110 | `analyze` runs `train` exactly once when the analyzer was untrained and not at all when it was trained. Afterwards the analyzer is trained, and the base class returns no result (`None`). |
| `Sentiment.RunTrained` | src/textblob/base.py:97-110 | The flag is monotone. After any sequence of `train`/`analyze` calls the analyzer is trained exactly when it was trained before or at least one call was made. |
| `Sentiment.RunTrainedCounts` | src/textblob/base.py:106-108 | On an analyzer that is already trained, `analyze` never trains. Only explicit `train` calls run training. |
| `Sentiment.RunTrainCalls` | src/textblob/base.py:97-110 | Over any sequence of calls, training runs once per explicit `train` call. It runs once more only when the analyzer starts untrained and its first call is `analyze`. |
| `Sentiment.AnalyzeTrainsOnce` | src/textblob/base.py:94-110 | A new analyzer used only through `analyze` trains exactly once, on its first call, however many calls it makes. It is trained whenever it has analyzed anything. |

## Left out

- The abstract-class machinery (`ABCMeta`, `@abstractmethod`). `Tagger`,
  `NPExtractor`, `Parser` and `Tokenizer` are records that must supply their
  operation, so for them nothing is left to enforce at run time. The
  sentiment analyzer is different: `analyze` is abstract, so the base class
  cannot be instantiated on its own, and its body runs only when a subclass
  calls `super().analyze(text)`. The class `SentimentAnalyzer` models the
  base-class part of such a subclass instance, and `Analyze` is that body.
  The model does not prevent constructing it directly.
- `BaseTagger.tag`, `BaseNPExtractor.extract` and `BaseParser.parse`. They
  are signatures with no body, so they appear only as the function fields
  of `Tagger`, `NPExtractor` and `Parser` and have nothing to prove.
- The default `tokenize=True` of `tag`. The model's `tag` always takes the
  flag explicitly.
- The inheritance of `BaseTokenizer` from NLTK's `TokenizerI`. That class is
  not part of this model.
- When the generator's elements are handed out relative to other work
  (suspension and timing). Only the tokens it yields, and their order, are
  modelled.
- The shared, single-pass state of a Python generator. `TokenGenerator` is a
  value, so `Next` can be asked again of the same generator and gives the same
  answer. In Python, everyone holding one generator advances it together, and
  a consumed generator cannot be replayed.
- The result of a concrete `analyze` (`Any`) and of `parse`. The base
  `analyze` returns `None`. `Analyze` is generic in the result type, which
  the concrete analyzer chooses.
- Overriding `train`, `analyze` or `kind` in subclasses. Only the base
  behaviour is modelled. In particular, `analyze` calls the base `train`.
- A `train` that fails. The base `train` cannot fail, and the code promises
  nothing about the flag when an override raises.
- Concurrent use of one analyzer. The code does nothing about it.
