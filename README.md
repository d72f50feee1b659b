# Deal-pricing pipeline of AlPrecio, modelled in Dafny

AlPrecio watches RSS feeds for deals and tells the user about a product that
is sold well below its estimated price. This project models the decision logic
of one run of that pipeline:

- **The scanner** (`AgenteScanner`). It drops listings whose url is already
  remembered. It builds the prompt for the structured-output model. It keeps
  only the selected deals with a positive price.
- **The ensemble** (`AgenteEnsamblador.price`). It builds the five-column row
  `[specialist, frontier, random forest, min, max]` from the three estimates.
  It hands the row to the regression model and clamps the answer at 0.
- **The frontier estimator** (`AgenteFrontera`). It builds an estimate from
  similar products and a chat model.
  - `make_context` and `messages_for` build the prompt.
  - `get_price` reads the first number of the reply.
- **The notebook-checkpoint copy of the frontier estimator.** Its `get_price`
  is the same. Its prompt builders use two English texts.
- **The planner** (`AgentePlaneador`).
  - It prices at most the first five selected deals.
  - It sorts them by discount, decreasing and stable.
  - It alerts about the head and returns it only when the discount is strictly
    above `DEAL_THRESHOLD` (50).

Every service the pipeline calls from outside is a function parameter: the
chat and structured-output models, the vector store, the three price models and
the regression model. The properties are proved for every choice of those
functions. Prices are `real`, and the `:.2f` rendering of a price is an
abstract `fmt` function.

Files:

- `wrappers.dfy`: `Option`.
- `seqs.dfy`: filter, subsequence, `str.join` and concatenation helpers.
- `chat.dfy`: a chat message.
- `deals.dfy`: the records `Deal`, `Opportunity`, `DealSelection` and `ScrapedDeal`.
- `price_parser.dfy`: `get_price` and the pattern `[-+]?\d*\.\d+|\d+`.
- `price_examples.dfy`: replies worked through `get_price`.
- `frontier.dfy`: `make_context`, `messages_for` and `price` of the frontier agent.
- `frontier_checkpoint.dfy`: the checkpoint copy.
- `ensemble.dfy`: the ensemble.
- `scanner.dfy`: the scanner.
- `planner.dfy`: the planner, as a class with a ghost log.

How each source construct is represented:

- **`re.search`.** A scanner tries the two alternatives at each position, from
  left to right. The first alternative wins when both match. Each alternative is
  greedy. The result is proved to be what a backtracking engine reports
  (`PriceParser.SearchIsLeftmostMatch`):
  - no word of the pattern starts further left;
  - at that start the decimal alternative is taken whenever it can match;
  - the alternative taken matches as much as it can.

  The token's parts are digits only, so its sign is the one written in the
  text. The match is also the longest word of the whole pattern at its start
  (`PriceParser.MatchIsLongestWord`).
- **`float(match.group())`.** It is read exactly, as a `real`.
- **`plan`.** It is a method of the class `Planner.Planner`. The class has a
  ghost `log` that records two kinds of event:
  - each deal the ensemble prices (`Evaluated`);
  - the alert (`Alert`).

  The method is proved equal to the functions `PlanOutcome` and `PlanEvents`.
  Those functions are in turn the subject of the `Plan*` lemmas.
- **`make_context`.** It accumulates `message` in a loop, so it is a method with
  a loop invariant. The method is proved equal to the function `Context`.
- **Scanner texts.** The system prompt, prefix and suffix are a `Prompts` value
  (`Scanner.AgentPrompts`).
- **Frontier texts.** The header, system message, question, block title and
  price prefix are a `Wording` value (`Frontier.SpanishWording`,
  `FrontierCheckpoint.EnglishWording`). The lemmas hold for those texts and for
  any others.

One error path is modelled explicitly:

- **Empty selection.** When no selected deal has a positive price, `scan`
  returns a `DealSelection` whose `deals` list is empty, not `None`. That value
  is truthy, so `plan` goes on and `opportunities[0]` raises `IndexError`. The
  model returns `EmptySelectionError` in exactly that case
  (`Planner.PlanFailsOnEmptySelection`).

## Model

| member | source | states |
|---|---|---|
| Planner.Run | src/agentes/agente_planeador.py:25-35 | the opportunity holds the input deal unchanged, the ensemble's estimate for its description, and the discount estimate − price |
| Planner.Batch | src/agentes/agente_planeador.py:49 | `deals[:5]`: the first min(5, \|deals\|) deals, in order |
| Planner.Opportunities | src/agentes/agente_planeador.py:49 | one opportunity per deal, each equal to `run` of that deal, in order |
| Planner.SortIsDescendingPermutation | src/agentes/agente_planeador.py:50 | the sort by discount with `reverse=True` yields a permutation of its input in decreasing order of discount |
| Planner.SortIsStable | src/agentes/agente_planeador.py:50 | opportunities with equal discounts keep their relative order through the sort |
| Planner.InsertKeepsDescending | src/agentes/agente_planeador.py:50 | inserting into a list sorted by decreasing discount keeps it sorted |
| Planner.InsertIsPermutation | src/agentes/agente_planeador.py:50 | inserting adds exactly the one element |
| Planner.FirstMaxIndex | src/agentes/agente_planeador.py:50-51 | the index of the largest discount, earlier than which every discount is strictly smaller |
| Planner.SortHead | src/agentes/agente_planeador.py:50-51 | `opportunities[0]` after the sort is the first opportunity with the largest discount |
| Planner.PlanWithoutSelection | src/agentes/agente_planeador.py:47-57 | when the scan returns None, the run returns None, prices no deal and sends no alert |
| Planner.PlanPricesFirstFive | src/agentes/agente_planeador.py:49 | the first min(5, \|deals\|) selected deals are priced, each exactly once and in selection order, before any alert |
| Planner.PlanChoosesFirstLargestDiscount | src/agentes/agente_planeador.py:50-56 | the returned opportunity is the earliest one with the maximum discount of those priced, returned exactly when that discount is above the threshold; no priced deal means the IndexError |
| Planner.PlanAlertsIffFound | src/agentes/agente_planeador.py:53-56 | an alert about o is sent iff the run returns o; it is the last event and the only alert |
| Planner.PlanThresholdIsStrict | src/agentes/agente_planeador.py:53-56 | a returned opportunity has a discount strictly above 50; one with discount exactly 50 is never returned |
| Planner.PlanFailsOnEmptySelection | src/agentes/agente_planeador.py:48-51 | `opportunities[0]` fails exactly when the scan returns a selection with no deals |
| Planner.Planner.PriceBatch | src/agentes/agente_planeador.py:49 | the opportunities of the batch, in order, with one ensemble call logged per deal |
| Planner.Planner.Plan | src/agentes/agente_planeador.py:37-57 | the outcome and the events logged are those of PlanOutcome and PlanEvents |
| Ensemble.Min3 | src/agentes/agente_ensamblador.py:43 | the minimum is at most each estimate and is one of them |
| Ensemble.Max3 | src/agentes/agente_ensamblador.py:44 | the maximum is at least each estimate and is one of them |
| Ensemble.Row | src/agentes/agente_ensamblador.py:39-45 | the row is specialist, frontier, random forest, then Min ≤ each estimate ≤ Max, with Min and Max among the three |
| Ensemble.Clamp | src/agentes/agente_ensamblador.py:46 | `max(0, y)`: y when y ≥ 0, else 0, and never negative |
| Ensemble.Price | src/agentes/agente_ensamblador.py:27-48 | the result is ≥ 0 and equals the prediction on the row of the three estimates when that prediction is ≥ 0, else 0 |
| Ensemble.BoundsSymmetric | src/agentes/agente_ensamblador.py:43-44 | Min and Max do not depend on the order of the estimates, and Min ≤ Max |
| Ensemble.PriceDependsOnEstimatesOnly | src/agentes/agente_ensamblador.py:36-46 | two descriptions whose three estimates agree get the same price |
| Scanner.MemoryUrls | src/agentes/agente_scanner.py:53 | the url of each remembered opportunity, in order |
| Scanner.MemoryUrlsMembership | src/agentes/agente_scanner.py:53 | a url is in the list iff some remembered opportunity has it |
| Scanner.FetchDealsAreNew | src/agentes/agente_scanner.py:53-55 | no returned listing has the url of a remembered opportunity |
| Scanner.FetchDealsKeepsNew | src/agentes/agente_scanner.py:55 | a fetched listing is returned iff no remembered opportunity has its url |
| Scanner.FetchDealsCounts | src/agentes/agente_scanner.py:55 | every copy of a fetched listing with a new url is returned, and no copy of one whose url is remembered |
| Scanner.FetchDealsInOrder | src/agentes/agente_scanner.py:55 | the returned listings are a subsequence of the fetched ones |
| Scanner.FetchDealsWithoutMemory | src/agentes/agente_scanner.py:53-55 | with nothing remembered, every fetched listing is returned |
| Scanner.Descriptions | src/agentes/agente_scanner.py:64 | the description of each listing, in order |
| Scanner.UserPromptFrame | src/agentes/agente_scanner.py:59-66 | the prompt is the prefix, the descriptions joined by blank lines, then the suffix |
| Scanner.UserPromptAppend | src/agentes/agente_scanner.py:63-65 | one more listing inserts a blank line and its description before the suffix |
| Scanner.ScanNothingNew | src/agentes/agente_scanner.py:75-91 | the scan returns None iff no new listing was fetched |
| Scanner.ScanNothingNewSkipsModel | src/agentes/agente_scanner.py:75-91 | when nothing new was fetched, the result does not depend on the services, so the model is not consulted |
| Scanner.ScanKeepsPositivePrices | src/agentes/agente_scanner.py:88-90 | the deals returned are the model's picks with a positive price, each as many times as the model picked it, in the model's order, and no others |
| Scanner.ScanKeepsPositiveSelection | src/agentes/agente_scanner.py:79-90 | a selection whose picks all have positive prices is returned unchanged |
| Frontier.PairCount | src/agentes/agente_frontera.py:46 | `zip` stops at the shorter list |
| Frontier.MakeContext | src/agentes/agente_frontera.py:44-48 | the header followed by one block per zipped pair, in order |
| Frontier.ContextTruncates | src/agentes/agente_frontera.py:46 | entries beyond the shorter list do not reach the context |
| Frontier.ContextAppend | src/agentes/agente_frontera.py:46-47 | one more pair appends exactly its "Producto potencialmente relacionado" block |
| Frontier.ContextOfNothing | src/agentes/agente_frontera.py:45-48 | with no similar products or no prices the context is the header alone |
| Frontier.MessagesFor | src/agentes/agente_frontera.py:50-58 | three messages: the system message, the user message, and the assistant message "Precio $" |
| Frontier.UserMessage | src/agentes/agente_frontera.py:52-53 | the user message is the context, then the question, and ends with the description |
| Frontier.PriceOfReply | src/agentes/agente_frontera.py:74-92 | the estimate is the value of the leftmost match in the reply once `$` and `,` are deleted, with the decimal alternative preferred, each alternative greedy, the token's parts digits only and the match the longest word at its start, and 0 when there is none |
| Frontier.PriceWithoutDigits | src/agentes/agente_frontera.py:89-90 | a reply without digits gives the estimate 0 |
| FrontierCheckpoint.MakeContext | src/agentes/.ipynb_checkpoints/frontier_agent-checkpoint.py:45-49 | the header followed by one English block per zipped pair, in order |
| FrontierCheckpoint.EnglishBlocks | src/agentes/.ipynb_checkpoints/frontier_agent-checkpoint.py:47-48 | each block is "Potentially related product:", the product, then "Price is $" and the rendered price |
| FrontierCheckpoint.MessagesFor | src/agentes/.ipynb_checkpoints/frontier_agent-checkpoint.py:51-59 | three messages: the system message, the user message, and the assistant message "Price is $" |
| FrontierCheckpoint.SameConversationShape | src/agentes/.ipynb_checkpoints/frontier_agent-checkpoint.py:51-59 | the two copies send the same system message and roles, and the same user message when there is no context block |
| FrontierCheckpoint.PriceOfReply | src/agentes/.ipynb_checkpoints/frontier_agent-checkpoint.py:70-73 | the copy's estimate is the value of the leftmost match in the reply after deleting `$` and `,`, with the decimal alternative preferred, each alternative greedy and the match the longest word at its start, and 0 when there is none |
| FrontierCheckpoint.SameReadingOfReplies | src/agentes/.ipynb_checkpoints/frontier_agent-checkpoint.py:70-73 | the copy's `get_price` reads every reply exactly as agente_frontera.py's does |
| PriceParser.StripIsTwoReplaces | src/agentes/agente_frontera.py:70 | the one-pass deletion equals `.replace('$', '')` followed by `.replace(',', '')` |
| PriceParser.StripKeeps | src/agentes/agente_frontera.py:70 | every `$` and `,` is deleted and every other character kept |
| PriceParser.StripConcat | src/agentes/agente_frontera.py:70 | the deletion works piece by piece |
| PriceParser.NoiseIgnored | src/agentes/agente_frontera.py:70-72 | a `$` or `,` anywhere in the reply does not change the price |
| PriceParser.PriceOfStripped | src/agentes/agente_frontera.py:70-72 | the price depends on the reply only through the reply without `$` and `,` |
| PriceParser.DecimalAtCorrect | src/agentes/agente_frontera.py:71 | the first alternative finds the longest word of `[-+]?\d*\.\d+` at a position, and finds one iff one exists |
| PriceParser.IntegerAtCorrect | src/agentes/agente_frontera.py:71 | the second alternative finds the longest word of `\d+` at a position, and finds one iff one exists |
| PriceParser.MatchAtCorrect | src/agentes/agente_frontera.py:71 | at one position the first alternative wins when both match |
| PriceParser.SearchCorrect | src/agentes/agente_frontera.py:71 | the search from a position finds the leftmost match at or after it, or reports that no word starts there |
| PriceParser.SearchIsLeftmostMatch | src/agentes/agente_frontera.py:71 | `re.search` finds no match iff no word of the pattern occurs; otherwise it finds the leftmost one, with the first alternative preferred, the token's parts digits only, and no longer word of the pattern at that start |
| PriceParser.MatchIsLongestWord | src/agentes/agente_frontera.py:71 | the alternative the engine takes is also the longest word of the whole pattern at that position |
| PriceParser.MatchSign | src/agentes/agente_frontera.py:71-72 | the token carries a `-` or `+` exactly when the match starts with it, so a decimal keeps its sign |
| PriceParser.SearchFindsDigit | src/agentes/agente_frontera.py:71 | the match found from a position lies at or after it and contains a digit |
| PriceParser.NoDigitNoPrice | src/agentes/agente_frontera.py:70-72 | a reply with no digit is read as 0.0 |
| PriceParser.SearchSkipsPlain | src/agentes/agente_frontera.py:71 | text without digits, signs or points is passed over |
| PriceParser.PriceOfPlainReply | src/agentes/agente_frontera.py:71-72 | without `$` and `,`, the price is the value of the match the search finds |
| PriceExamples.PlainDecimal | src/agentes/agente_frontera.py:71-72 | "3.14" is read as 3.14 |
| PriceExamples.LeadingPoint | src/agentes/agente_frontera.py:71-72 | ".5" is read as 0.5 |
| PriceExamples.TrailingPoint | src/agentes/agente_frontera.py:71-72 | "12." is read as 12, since the decimal alternative needs a digit after the point |
| PriceExamples.NegativeDecimal | src/agentes/agente_frontera.py:71-72 | "-5.5" is read as −5.5: the sign is kept and nothing is clamped |
| PriceExamples.SignDroppedOnInteger | src/agentes/agente_frontera.py:71-72 | "-5" is read as 5: the integer alternative has no sign |
| PriceExamples.FirstNumberWins | src/agentes/agente_frontera.py:71-72 | "5 or 6.7" is read as 5: the leftmost number wins over a later decimal |
| PriceExamples.WordsBeforeThePrice | src/agentes/agente_frontera.py:70-72 | "Price is $0" is read as 0 |
| PriceExamples.DollarZero | src/agentes/agente_frontera.py:70-72 | "$0" is read as 0 |
| PriceExamples.NoPriceMentioned | src/agentes/agente_frontera.py:72 | "no price mentioned" is read as 0.0 |
| PriceExamples.ThousandsSeparator | src/agentes/agente_frontera.py:70-72 | "$1,234.56 approx" is read as 1234.56 |

## Left out

- **External services.** They are function parameters with no properties
  assumed:
  - the OpenAI structured-output call of `scan`;
  - the Groq/OpenAI chat call of the frontier `price`;
  - the Chroma query and SentenceTransformer encoding of `find_similars`;
  - the specialist, frontier and random-forest estimators of the ensemble;
  - `model.predict`;
  - `ScrapedDeal.fetch` and `describe`, which live in a `deals.py` that is not
    part of this model.
- **Chat-call settings.** The model name, `max_tokens` and `temperature` of the
  chat calls have no effect on an abstract `complete`.
- Ensemble.Price: does not state that each of the three estimators is called
  once per call, in the order specialist, frontier, random forest. The
  estimators are pure function parameters, so their calls are not observable.
  The contract states only how the price depends on their results.
- **`:.2f` and floating point.** `:.2f` is an abstract `fmt` function. Floats
  are exact `real` numbers, so no rounding or overflow is modelled.
- **`\d` and Unicode digits.** Python's `\d` also matches non-ASCII Unicode
  digits. The model matches only `0`-`9`.
- **Logging and construction.** The `self.log` calls, the constructors of the
  agents and `joblib.load` are left out.
- **The messenger** (agente_mensajero.py) is not part of this model. Its push
  I/O and its `DO_PUSH` gate are left out. An alert is an `Alert` event in the ghost
  log.
- **The specialist and random-forest agents** (agente_especialista.py,
  agente_random_forest.py) are not part of this model. The random forest's
  `max(0, …)` clamp is not assumed of the estimator parameter.
- **`opportunities.sort`** sorts a list that only `plan` holds. It is modelled as
  a stable insertion sort on a local `seq`, so nothing else can observe it
  happening in place.
- **`result.deals = [...]`** in `scan` overwrites a field of a result object
  that no one else holds. It is modelled as a datatype update.
- **Failures of the services** are not modelled: their exceptions and their
  timeouts.
- **The `memory: List[str]` annotation** of `scan` and `plan` does not match the
  code. Memory is a sequence of opportunities, as the code reads
  `opp.deal.url`.
