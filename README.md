# Support chat turn router — Dafny model

This project models the turn-processing core of a single-user support chat
bot for an online shop (`app.py`). Each line the user types goes through
these checks, in order:

1. A blank line is ignored.
2. An exit keyword (`выход`, `quit`, `exit`, in any case) ends the session.
3. A line whose lower-cased form starts with `/order` is answered by the order lookup.
4. A line that exactly matches a FAQ question, ignoring case and surrounding
   whitespace, gets the stored answer.
5. Anything else goes to a remote language model. The model is sent a
   prompt that holds the whole FAQ and then the user's line.

Every answered turn writes two records to the session log: a user record and
an assistant record. Only a successful model call extends the conversation
memory.

Files and modules:

- `common.dfy`, module `Common`: the `Option` type.
- `text.dfy`, module `Text`: the Python string methods the loop uses.
  These are `str.isspace` (Python's full whitespace set), `lower` (ASCII
  capitals, Latin-1 capitals and the capitals U+0400–U+042F), `strip`, `split()` and `startswith`, with
  their characterising lemmas.
- `orders.dfy`, module `OrderLookup`: `get_order_status` over a
  `map<string, Order>`.
- `faq.dfy`, module `FaqMatcher`: the scan in `find_in_faq` (a method with a
  loop, proved equal to the first-match function `FaqAnswer`), and the FAQ
  context and prompt built for the model.
- `chat.dfy`, module `SupportChat`:
  - messages, usage counters and log records;
  - `Step`, the specification of one pass of the `while True` body;
  - `Run`, a whole session;
  - `WellFormed`, the session invariant;
  - the class `SupportBot`. Its fields are `memory`, `log` and `running`.
    Its constructor performs the session start. Its methods are `LogEntry`
    (`log_entry`) and `HandleTurn` (one loop pass), and `HandleTurn` is
    proved equal to `Step`.

The remote model is an oracle `(memory, prompt) -> Ok(reply, usage) | Err(cause)`.
A session takes one oracle per turn, so the model may answer differently
each time. Console input is `Line(raw)` or `Interrupt`
(KeyboardInterrupt).

Some behaviours of the code that a reader might not expect, all modelled as written:

- A KeyboardInterrupt at the prompt ends the loop and logs nothing (app.py:146-148).
- `startswith("/order")` also accepts `/orders x`. That input then looks up `x` (app.py:164-166).
- An empty FAQ answer counts as no answer, so the line goes to the model (app.py:172).
- Memory grows only when the model call succeeds. A failed call adds nothing (app.py:189, 196-197).

## Model

| member | source | states |
|---|---|---|
| Text.IsSpace | app.py:145 | space, tab, newline and carriage return are whitespace; no digit, ASCII letter or `/` is |
| Text.Lower | app.py:87 | lower-casing keeps the length and keeps every position's whitespace-ness |
| Text.Strip | app.py:145 | the result has no whitespace at either end and is no longer than the input |
| Text.Split | app.py:165 | `split()` gives no parts exactly when the text is blank, and never more parts than characters (SplitTwoParts and SplitPair below relate two parts to the line's two words, in both directions) |
| Text.TrimStartShape | app.py:145 | stripping the front removes exactly the leading whitespace, and the rest starts with a non-space |
| Text.TrimEndShape | app.py:145 | stripping the end removes exactly the trailing whitespace, and the rest ends with a non-space |
| Text.StripShape | app.py:150 | the stripped line has no whitespace at either end, and it is empty exactly when the raw line is blank |
| Text.StripUnique | app.py:145 | whatever whitespace surrounds an already-trimmed text, stripping gives back exactly that text |
| Text.StripIdempotent | app.py:200 | stripping twice is the same as stripping once |
| Text.LowerIdempotent | app.py:87 | lower-casing twice is the same as lower-casing once |
| Text.LowerStripCommute | app.py:87 | lower-casing and stripping commute, because lower-casing never creates or removes whitespace |
| Text.NormalizeIgnoresPadding | app.py:87 | surrounding whitespace never changes the `lower().strip()` matching key |
| Text.NormalizeIdempotent | app.py:87 | normalising the key again changes nothing |
| Text.WordShape | app.py:165 | a word is a whitespace-free prefix that stops at whitespace or at the end |
| Text.SplitShape | app.py:165 | every part of `split()` is non-empty and holds no whitespace |
| Text.Normalize | app.py:87 | the matching key `lower().strip()` (no contract of its own; NormalizeIgnoresPadding and NormalizeIdempotent state its properties) |
| Text.SplitOneParts | app.py:165 | a text that splits into one part is that part with only whitespace before and after it |
| Text.SplitTwoParts | app.py:165-167 | a text that splits into exactly two parts is whitespace, the first part, non-empty whitespace, the second part, then whitespace: the two parts are the line's words in order |
| Text.SplitPair | app.py:165 | two words separated by whitespace split into exactly those two words |
| OrderLookup.GetOrderStatus | app.py:65-81 | the not-found sentence is returned exactly when the id is missing or its record is empty; every sentence ends with a full stop |
| OrderLookup.IsEmptyRecord | app.py:68 | an empty JSON object, the only present record `not order` treats as missing (no contract of its own; GetOrderStatusCases states its use) |
| OrderLookup.Known | app.py:67-68 | the id is present with a non-empty record (no contract of its own; GetOrderStatus and GetOrderStatusCases state its use) |
| OrderLookup.GetOrderStatusCases | app.py:65-81 | exactly one sentence shape per record: not-found iff the id is missing or its record is empty; each known status iff its own head is present; unknown-status iff any other status |
| OrderLookup.GetOrderStatusMentions | app.py:65-81 | every sentence quotes the id verbatim at a fixed position; each known status quotes its own fields (ETA and carrier, delivery date, note) |
| OrderLookup.MissingOrderNotFound | app.py:67-69 | an absent id, or one whose record is empty, gives the not-found sentence with the id verbatim |
| OrderLookup.GetOrderStatusTrimmed | app.py:69-81 | every lookup sentence is already stripped, so the logged reply is the sentence itself |
| OrderLookup.InTransitShape | app.py:72-75 | an in-transit sentence starts with its own head and with neither of the other two |
| OrderLookup.NotFoundShape | app.py:69 | the not-found sentence starts with no status head and differs from the unknown-status sentence |
| FaqMatcher.FaqAnswer | app.py:84-89 | the first-match answer (no contract of its own; FindInFaq and the FaqAnswer lemmas below state its properties) |
| FaqMatcher.Matches | app.py:87 | the entry's question and the input have equal `lower().strip()` keys (no contract of its own; FaqAnswerDependsOnKey states its use) |
| FaqMatcher.Block | app.py:179 | the `Вопрос: q\nОтвет: a` text of one entry (no contract of its own; ContextHoldsEveryBlock places it) |
| FaqMatcher.Context | app.py:179 | the blocks joined by newlines (no contract of its own; ContextHoldsEveryBlock states its layout) |
| FaqMatcher.Prompt | app.py:181-185 | banner, context, closing banner, then the line (no contract of its own; PromptLayout states its layout) |
| FaqMatcher.FindInFaq | app.py:84-89 | the scan returns the answer of the first entry whose normalised question equals the normalised input, or None |
| FaqMatcher.FaqAnswerIsFirstMatch | app.py:86-88 | when entry i matches and no earlier one does, the answer is entry i's answer |
| FaqMatcher.FaqAnswerNoneIffNoMatch | app.py:86-89 | the result is None exactly when no entry matches |
| FaqMatcher.FaqAnswerDependsOnKey | app.py:87 | the result depends on the input only through `lower(strip(input))` |
| FaqMatcher.FaqAnswerIgnoresCaseAndPadding | app.py:87 | adding surrounding whitespace or changing letter case leaves the result unchanged |
| FaqMatcher.FaqFindsStoredQuestion | app.py:84-89 | a stored question, padded and in any case, returns its own answer unless an earlier entry has the same key |
| FaqMatcher.ContextHoldsEveryBlock | app.py:179 | each `Вопрос: q\nОтвет: a` block sits at its offset in the context; a newline follows every block but the last, and the last block ends the context |
| FaqMatcher.PromptLayout | app.py:181-185 | for any FAQ, empty or not, the prompt opens with the fixed banner, then holds the whole context (every FAQ block in order), then the closing banner, and ends with the user's line |
| SupportChat.SupportBot.constructor | app.py:126-137 | memory holds just the system prompt, the log holds just the system-prompt record, and the loop is running |
| SupportChat.SupportBot.LogEntry | app.py:92-101 | appends exactly one record (role, content, optional usage) and changes nothing else |
| SupportChat.SupportBot.Respond | app.py:160-197 | the order branch, the FAQ branch or the model branch computes the reply and usage, and only the model branch may extend memory |
| SupportChat.SupportBot.HandleTurn | app.py:143-202 | one loop pass changes memory, log and loop flag exactly as `Step` says, and keeps the session invariant |
| SupportChat.StepBlankIsNoop | app.py:145-151 | a blank or whitespace-only line changes nothing, and the loop keeps running |
| SupportChat.StepInterruptStops | app.py:144-148 | an interrupt stops the loop and logs nothing |
| SupportChat.StepExitStops | app.py:153-156 | an exit keyword, in any case and with any padding, appends the exit notice as the only new record (no user record), leaves memory alone and stops the loop |
| SupportChat.StepLogsOneExchange | app.py:158-202 | every other turn appends exactly a user record with the stripped line, then an assistant record with the stripped reply and usage; the loop keeps running; usage is zero unless the model answered |
| SupportChat.StepOrderCommand | app.py:164-167 | an order command leaves memory alone, logs zero usage, and replies with the lookup of the second word when the line has exactly two words, and with the format error otherwise |
| SupportChat.StepOrderIgnoresFaqAndModel | app.py:164-170 | an order-command turn gives the same result whatever the FAQ and the model are, so neither is consulted |
| SupportChat.SystemPrompt | app.py:126-131 | the system prompt naming the brand (no contract of its own; Init and SessionStartsWithSystemPrompt state where it goes) |
| SupportChat.IsExitCommand | app.py:153 | the lower-cased line is `выход`, `quit` or `exit` (no contract of its own; StepExitStops and OrderLineIsNotExit state its use) |
| SupportChat.IsOrderCommand | app.py:164 | the lower-cased line starts with `/order` (no contract of its own; StepOrderCommand and OrderCommandLooksUp state its use) |
| SupportChat.OrderReply | app.py:165-167 | the reply is the format error exactly when the line does not split into two words (StepOrderCommand states that the reply is then the lookup of the second word) |
| SupportChat.Answer | app.py:160-197 | memory changes only on the model branch, when the model answers, and then by the prompt and the reply; non-zero usage comes only from that answer |
| SupportChat.Step | app.py:143-202 | one pass never removes or rewrites memory or log, adds at most two records and one exchange, and a stopping pass leaves memory alone and leaves the log as it was or adds just the exit record |
| SupportChat.OrderReplyArity | app.py:165-167 | with a word count other than two, the reply is the format error whatever the order store holds |
| SupportChat.OrderCommandLooksUp | app.py:164-166 | any first word starting with `/order` (so also `/orders`), followed by one more word, looks up that word |
| SupportChat.StepOrderLooksUp | app.py:158-202 | `<cmd> <id>` logs the line, then the lookup sentence for the id unchanged, and leaves memory alone |
| SupportChat.ExampleOrderInTransit | app.py:72-75 | `/order A100` for an in-transit order logs a sentence that contains `A100`, `2` and `FastShip` |
| SupportChat.StepFaqHit | app.py:170-173 | a non-empty FAQ answer is logged stripped with zero usage, memory is unchanged, and the result is the same for any model |
| SupportChat.StepFallback | app.py:176-197 | with no answer or an empty one, the line goes to the model with the FAQ prompt: a reply extends memory by the prompt and the reply and is logged with its usage; a failure logs the error text with zero usage; the session continues |
| SupportChat.StepMemory | app.py:188-189 | memory changes only when the model answers, and then by exactly one user/assistant exchange |
| SupportChat.FallbackPromptLayout | app.py:179-185 | for any FAQ, the prompt sent to the model ends with the user's line, and it carries every FAQ pair in order |
| SupportChat.Init | app.py:126-137 | the starting state is running and satisfies the session invariant: memory and log hold just the system prompt |
| SupportChat.StepWellFormed | app.py:143-202 | every loop pass keeps the session invariant: memory and log start with the system prompt and hold whole turns after it |
| SupportChat.RunWellFormed | app.py:143-202 | a whole session keeps the invariant, whatever the inputs and the model do |
| SupportChat.Run | app.py:143-202 | over a session, memory and log only grow: the starting memory and log are prefixes of the final ones |
| SupportChat.SessionStartsWithSystemPrompt | app.py:133-137 | after any session, the first memory message and the first log record are still the system prompt |

## Left out

- Environment configuration and the abort on missing keys (app.py:17-28): process configuration. The brand name is a constructor parameter.
- Log directory, file name and handler setup (app.py:31-41): file I/O. The log is a `seq<LogRecord>`.
- Loading the two JSON files and exiting when one is missing (app.py:46-60): file I/O and parsing. The FAQ and the orders are given values (`Store`).
- The LangChain model, chain and buffer memory, the 30-second timeout, the temperature, and token counting (app.py:110-123, 188-194): foreign network and library code. They are replaced by the per-turn oracle. Memory is modelled as it ends up: on success the prompt and the raw reply are appended; on failure nothing is. The memory's replay to the model shows only as the oracle's memory argument.
- Timestamps, `json.dumps` and the console prints (app.py:95, 101, 139-141, 147, 154, 201): clock and I/O. Log records keep role, content and usage in emission order.
- A `KeyboardInterrupt` (or any other exception that is not an `Exception`) raised during a turn, after the user record is written (app.py:158), is not modelled. An example is an interrupt during the model call (app.py:189); `except Exception` (app.py:196) does not catch it. The program would then crash, leaving a user record with no assistant record. The model delivers an interrupt only at the prompt (app.py:144-148).
- FaqMatcher.FaqAnswer, FaqMatcher.Context and FaqMatcher.Prompt carry no contract of their own. Their properties are stated in FindInFaq, the FaqAnswer lemmas, ContextHoldsEveryBlock and PromptLayout. A contract on one of these functions is assumed at every use of it, and the chat proofs use them often; with such contracts those proofs exceed the resource limit.
- An `EOFError` from `input()` is not caught by the source and would crash the loop. It is not modelled: the console delivers either a line or an interrupt.
- Text.LowerChar: maps only the ASCII capitals, the Latin-1 capitals and the capitals U+0400–U+042F. Python's full Unicode case mapping, including the mappings that change length, is library behaviour and is not modelled.
- OrderLookup.Order: each JSON field is kept as the text Python prints for it. The number formatting of `eta_days` is taken as given. A JSON order value that is not an object is not modelled: a falsy one would read as not found, and a truthy one would crash on `.get`.
- FAQ entries without a `q` or `a` key would raise `KeyError`. This is not modelled: entries are `(q, a)` pairs of strings.
