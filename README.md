# better-bites-be: the ingredient-analysis handler, modelled in Dafny

The service takes a list of food ingredient labels and a free-text user
health profile, builds a prompt for a chat-completion provider (Groq), and
relays the provider's JSON reply or an error. The logic lives in
`Nutritionist` (`libs/model.py`):

- `extract_amounts` finds the first quantity such as `30g`, `2.5%` or
  `250 ml` in a label with `re.search(r"(\d+(\.\d+)?\s*(%|g|ml))", ...)`;
- `get_advice_from_ingredients` refuses a list with a non-string element
  (400), builds the dict from each label that holds a quantity to that
  quantity, formats the prompt, calls the provider, strips and parses the
  reply, and maps the outcome to 200 (the parsed value, unchanged) or 500
  (one of two fixed messages).

The model is functional, as the source is: no state changes after the
client is set at construction.

- `wrappers.dfy`: `Option`, standing for Python's `None`-or-value.
- `text.dfy`: the `\d` class (ASCII digits), the `str.isspace()` set, which
  is also CPython's `\s` class for `str` patterns and what `str.strip()`
  removes, and `Strip`.
- `amounts.dfy`: the pattern's language stated over spans of a label
  (`AmountIn`, `MatchesAt`, `LeftmostMatch`) and the scan that
  `re.search` performs (`DigitRun`, `FractionEnd`, `BlankRun`, `UnitEnd`,
  `ScanAt`, `SearchFrom`, `ExtractAmount`). The lemmas show that the scan
  decides the language, that a start position has at most one match end
  (so the engine never needs to backtrack), and that `ExtractAmount` gives
  the leftmost match or `None`.
- `pydict.dfy`: a Python dict as its entries in insertion order, and
  `d[k] = v` as `SetItem`, proved to be a map update that keeps key order.
- `advice.dfy`: the guard, the amount-map comprehension (`AmountMap`), the
  prompt, the request arguments, the outcome mapping (`Outcome`) and the
  whole handler (`GetAdvice`). The provider client, `json.loads` and the
  `str()` renderings of the dict and the list are values passed in
  (`Nutritionist.client`, `Runtime`).
- `app.dfy`: the `/analyze` route's empty-list check before the handler.

The invalid-JSON message ends with a period (`libs/model.py:30`). The handler itself accepts an empty list; only the
route refuses it (`app.py:28-29`).

## Model

| member | source | states |
|---|---|---|
| `Amounts.DigitRun` | libs/model.py:38 | `\d+` and `\.\d+` read greedily: every character up to the result is a digit, and the character at the result is not |
| `Amounts.BlankRun` | libs/model.py:38 | `\s*` read greedily: every character up to the result is whitespace, and the character at the result is not |
| `Amounts.UnitEnd` | libs/model.py:38 | the alternation `%\|g\|ml` at a position: it gives the end of a unit, or `None` when no span starting there is a unit |
| `Amounts.FractionEnd` | libs/model.py:38 | the optional `(\.\d+)?` read greedily, within the label; see `Amounts.NumberScan` for its completeness |
| `Amounts.ScanAt` | libs/model.py:38 | the match end at one start position, which starts with a digit; see `Amounts.ScanAtSound` and `Amounts.ScanAtComplete` |
| `Amounts.SearchFrom` | libs/model.py:38 | the first match from a position, a non-empty span starting with a digit; see `Amounts.SearchFromSpec` |
| `Amounts.DigitRunEnd` | libs/model.py:38 | a digit run that stops before a non-digit is the greedy run |
| `Amounts.BlankRunEnd` | libs/model.py:38 | a whitespace run that stops before a non-blank is the greedy run |
| `Amounts.NumberScan` | libs/model.py:38 | the scan reads any word of `\d+(\.\d+)?` completely, up to the character that follows it |
| `Amounts.ScanAtSound` | libs/model.py:38 | every end the scan reports at a start position closes a word of the pattern |
| `Amounts.ScanAtComplete` | libs/model.py:38 | every word of the pattern starting at a position is found by the scan there, with the same end |
| `Amounts.MatchEndUnique` | libs/model.py:38 | a start position has at most one match end, so the regex engine never backtracks into a different match |
| `Amounts.ScanAtNone` | libs/model.py:38 | the scan finds nothing at a position exactly when no match starts there |
| `Amounts.SearchFromScan` | libs/model.py:38 | the search from a position stops at the first later position where the scan succeeds, and gives `None` when it succeeds nowhere |
| `Amounts.SearchFromSpec` | libs/model.py:38 | `re.search` from a position gives `None` exactly when no later position starts a match; otherwise the first start that matches |
| `Amounts.ExtractAmount` | libs/model.py:36-39 | a found amount is non-empty and starts with a digit; see `Amounts.ExtractAmountSpec` for the full contract |
| `Amounts.AmountInSlice` | libs/model.py:38-39 | the span that matched, cut out with `group(0)`, is a word of the pattern by itself |
| `Amounts.ExtractAmountSpec` | libs/model.py:36-39 | `extract_amounts` is `None` exactly when no index starts a match; otherwise it is the text of the leftmost match, which is a word of the pattern |
| `Amounts.LeftmostMatchUnique` | libs/model.py:38 | at most one span is the leftmost match, so that description fixes the result |
| `Amounts.MatchExtendsLeft` | libs/model.py:38 | a digit just before a match starts a match one position earlier |
| `Amounts.AmountInShape` | libs/model.py:38 | a match starts with a digit and ends with `%`, `g` or `ml` |
| `Amounts.LeftmostMatchStart` | libs/model.py:38 | the leftmost match is never preceded by a digit |
| `Amounts.ExtractAmountShape` | libs/model.py:38-39 | a found amount is a span of the label that starts with a digit, ends with `%`, `g` or `ml`, and is not preceded by a digit |
| `Amounts.ExtractAmountNonEmpty` | libs/model.py:38-39 | a found amount is never `""`, so it is always truthy |
| `Amounts.ExampleSugar` | libs/model.py:36-39 | `"Sugar 30g"` gives `"30g"` |
| `Amounts.ExampleSalt` | libs/model.py:36-39 | `"Salt 2.5%"` gives `"2.5%"` |
| `Amounts.ExampleWater` | libs/model.py:36-39 | `"Water"` gives `None` |
| `Amounts.ExampleMilligrams` | libs/model.py:36-39 | `"10mg"` gives `None`, because `m` must be followed by `l` |
| `Text.StripStart` | libs/model.py:128 | `lstrip`: the result is a suffix, everything removed is whitespace, and the result does not start with whitespace |
| `Text.StripEnd` | libs/model.py:128 | `rstrip`: the result is a prefix, everything removed is whitespace, and the result does not end with whitespace |
| `Text.Strip` | libs/model.py:128 | `strip` never lengthens and leaves no whitespace at either end; see `Text.StripSpec` |
| `Text.StripSpec` | libs/model.py:128 | `strip` keeps the span between a whitespace-only prefix and a whitespace-only suffix, and the kept span neither starts nor ends with whitespace |
| `PyDict.ViewKeys` | libs/model.py:52-54 | the keys of the dict as a map are the keys of its entries |
| `PyDict.SetItemView` | libs/model.py:52-54 | `d[k] = v` is a map update |
| `PyDict.SetItemKeys` | libs/model.py:52-54 | `d[k] = v` keeps the key order and appends a new key last |
| `PyDict.SetItemDistinct` | libs/model.py:52-54 | `d[k] = v` keeps the keys distinct |
| `PyDict.SetItem` | libs/model.py:52-54 | `d[k] = v` adds at most one entry; see `PyDict.SetItemView` and `PyDict.SetItemKeys` |
| `Advice.AllStrings` | libs/model.py:48 | the guard `all(isinstance(i, str) for i in ingredients)`; see `Advice.GuardBeforeProvider` and `Advice.GetAdviceStatus` |
| `Advice.Labels` | libs/model.py:48 | a list that passes the guard is a list of strings, element by element |
| `Advice.AmountMap` | libs/model.py:52-54 | the comprehension has at most one entry per label; see `Advice.AmountMapView` and `Advice.AmountMapOrder` |
| `Advice.AmountMapView` | libs/model.py:52-54 | the amount map holds exactly the labels that contain a quantity, each mapped to `extract_amounts` of itself; labels without one are absent and repeated labels collapse to one entry |
| `Advice.FirstIndex` | libs/model.py:52-54 | the position of the first occurrence of a label |
| `Advice.FirstIndexAt` | libs/model.py:52-54 | an occurrence with no earlier one is the first occurrence |
| `Advice.FirstIndexAppend` | libs/model.py:52-54 | appending to the list keeps the first occurrence of every label already in it |
| `Advice.OrderKeptByAppend` | libs/model.py:52-54 | keys in first-occurrence order stay in that order when the list grows |
| `Advice.OrderExtendedByNewLabel` | libs/model.py:52-54 | a label new to the list, appended as a key, comes last in first-occurrence order |
| `Advice.AmountMapDistinct` | libs/model.py:52-54 | the amount map has no repeated key |
| `Advice.NewKeyIsNewLabel` | libs/model.py:52-54 | a label with a quantity that is not yet a key has not occurred earlier in the list |
| `Advice.AmountMapOrder` | libs/model.py:52-54 | the keys of the amount map follow the order in which their labels first occur in the list |
| `Advice.ExampleAmountMap` | libs/model.py:52-54 | `["Peanuts 10g", "Water"]` gives the one-entry map `{"Peanuts 10g": "10g"}` |
| `Advice.MiddlePieces` | libs/model.py:57-72 | the pieces of a concatenation occur in it one after the other |
| `Advice.Prompt` | libs/model.py:57-113 | the f-string prompt; see `Advice.PromptCarriesInputs` |
| `Advice.AdvicePrompt` | libs/model.py:57-113 | the prompt built from the labels and the profile; see `Advice.GetAdviceAsks` |
| `Advice.AdviceRequest` | libs/model.py:116-126 | the call's model and messages; see `Advice.GetAdviceAsks` |
| `Advice.PromptCarriesInputs` | libs/model.py:57-72 | the prompt holds the rendered amount map, the profile verbatim and the rendered ingredient list, in that order, each right after its label |
| `Advice.ReplyText` | libs/model.py:115-141 | the reply text is read only from a completion with at least one choice; see `Advice.OutcomeSuccess` |
| `Advice.Outcome` | libs/model.py:115-141 | the outcome is 200 or 500 and nothing else; see `Advice.OutcomeSuccess` and `Advice.OutcomeFailure` |
| `Advice.OutcomeSuccess` | libs/model.py:128-134 | the status is 200 exactly when the stripped reply text parses, and the body is then the parsed value unchanged, whatever its shape |
| `Advice.OutcomeFailure` | libs/model.py:115-141 | every failure is a 500 carrying one of the two fixed messages; the invalid-JSON message comes exactly when the reply text was read and failed to decode; a raising call gives the provider-error message |
| `Advice.GetAdvice` | libs/model.py:41-141 | the handler answers 200, 400 or 500 and nothing else; see `Advice.GuardBeforeProvider`, `Advice.GetAdviceStatus` and `Advice.GetAdviceAsks` |
| `Advice.GuardBeforeProvider` | libs/model.py:47-49 | a non-string element gives 400 with the invalid-input message, and the client cannot change that answer |
| `Advice.GetAdviceStatus` | libs/model.py:47-141 | the status is 400 exactly when some element is not a string (an empty list passes), and otherwise 200 or 500 |
| `Advice.GetAdviceAsks` | libs/model.py:115-128 | with string ingredients the response is the outcome of one request to the configured model whose user message is the prompt, and that prompt contains the profile verbatim |
| `App.AnalyzeRejects` | app.py:28-32 | the route answers 400 exactly when the list is empty or holds a non-string; an empty list gets "No ingredients provided"; a non-empty list goes to the handler |
| `App.Analyze` | app.py:23-32 | the route answers 200, 400 or 500 and nothing else; see `App.AnalyzeRejects` |

## Left out

- `\d` is the ASCII digits `0`-`9`. Python's `\d` for a `str` pattern also matches every other Unicode decimal digit.
- Creating the Groq client, and the network call, are not modelled (`libs/model.py:32-34`, `116-126`). The client is a function from the request arguments to a `Reply`. It either raises or returns choices whose content may be missing.
- `json.loads` is not modelled. It is a function value that gives a JSON value, a `JSONDecodeError`, or another exception. The other exceptions reach the outer `except`.
- The `str()` renderings of the dict and the list in the f-string are not modelled. They are function values in `Runtime`.
- The prompt's prose (`libs/model.py:58-65`, `74-113`) is not modelled. It is the two fields of `PromptTemplate`. The labels between the embedded values are modelled literally.
- Logging, `get_api_key` and `load_dotenv` are not modelled (`libs/model.py:9-21`, `129`, `136`, `140`). They are environment I/O and have no effect on the response.
- Flask's `jsonify` and `json.loads` number handling are not modelled. A response is a status code and a JSON value. Headers are left out. A JSON number keeps its literal text instead of becoming an `int` or `float`, and an object keeps its member order instead of the sorted key order `jsonify` may send.
- `App.Analyze` assumes the request's `ingredients` field is a JSON list and `user_profile` is a string. The decorators `handle_json_output` and `validate_json_input` in `libs/utils` are not part of this model. A string or object `ingredients` would be iterated by characters or keys, and a number would raise `TypeError` outside the `try`. Neither case is modelled. A non-string profile would be rendered by `str()` and is not modelled either.
