/**
 * The turn router and conversation state of the support chat loop: one
 * `SupportBot` object holds the conversation memory, the session log and the
 * loop flag; `HandleTurn` runs one pass of the loop body. `Step` is the
 * specification of that pass, and `Run` chains it over a whole session.
 */
module SupportChat {
  import opened Common
  import opened Text
  import opened OrderLookup
  import opened FaqMatcher

  datatype Role = System | User | Assistant

  /** One entry of the conversation memory replayed to the model. */
  datatype Message = Message(role: Role, content: string)

  /** Token counters reported for one model call. */
  datatype Usage = Usage(promptTokens: nat, completionTokens: nat, totalTokens: nat)

  const NoUsage: Usage := Usage(0, 0, 0)

  /** One line of the session log; the timestamp and JSON encoding are not modelled. */
  datatype LogRecord = LogRecord(role: Role, content: string, usage: Option<Usage>)

  /** What one model call returns: a reply and its usage, or the text of the failure. */
  datatype ModelResult = Ok(reply: string, usage: Usage) | Err(cause: string)

  /** The remote model, seen as an oracle over the memory so far and the new input. */
  type Model = (seq<Message>, string) -> ModelResult

  /** What the console delivers for one pass of the loop. */
  datatype Input = Line(raw: string) | Interrupt

  /** The read-only knowledge store: FAQ entries in file order and orders by id. */
  datatype Store = Store(faq: seq<FaqEntry>, orders: map<string, Order>)

  datatype Session = Session(memory: seq<Message>, log: seq<LogRecord>, running: bool)

  /** One turn of a session: the console input and the model's behaviour on that turn. */
  datatype TurnInput = TurnInput(input: Input, model: Model)

  function SystemPrompt(brand: string): string {
    "Ты — ассистент поддержки магазина «" + brand + "». "
    + "Отвечай кратко, вежливо и по делу. "
    + "Не придумывай информацию, которой нет в предоставленном контексте. "
    + "Используй FAQ для ответов на общие вопросы."
  }

  const ExitNotice: string := "User initiated exit. Session ended."
  const ExitRecord: LogRecord := LogRecord(System, ExitNotice, None)
  const FormatError: string := "Неверный формат команды. " + "Используйте: /order <номер заказа>"
  const ModelErrorPrefix: string := "[Ошибка] Не удалось получить ответ от модели: "
  const OrderPrefix: string := "/order"

  predicate IsExitCommand(line: string) {
    var l := Lower(line);
    l == "выход" || l == "quit" || l == "exit"
  }

  /** `startswith("/order")` on the lower-cased line, so `/orders x` qualifies too. */
  predicate IsOrderCommand(line: string) {
    StartsWith(Lower(line), OrderPrefix)
  }

  /** The reply to an order command: a lookup when the line splits into exactly two words. */
  function OrderReply(orders: map<string, Order>, line: string): (r: string)
    ensures r == FormatError <==> |Split(line)| != 2
  {
    var parts := Split(line);
    if |parts| == 2 then
      assert FormatError[|FormatError| - 1] == '>';
      GetOrderStatus(orders, parts[1])
    else FormatError
  }

  /** The reply text before stripping, its usage, and the memory after answering. */
  datatype Reply = Reply(text: string, usage: Usage, memory: seq<Message>)

  /** Steps 3 to 5 of the router for a line that is neither blank nor an exit keyword. */
  function Answer(store: Store, memory: seq<Message>, line: string, model: Model): (r: Reply)
    ensures r.memory != memory ==>
      && !IsOrderCommand(line)
      && var prompt := Prompt(store.faq, line);
      && model(memory, prompt) == Ok(r.text, r.usage)
      && r.memory == memory + [Message(User, prompt), Message(Assistant, r.text)]
    ensures r.usage != NoUsage ==> !IsOrderCommand(line) && model(memory, Prompt(store.faq, line)) == Ok(r.text, r.usage)
  {
    if IsOrderCommand(line) then Reply(OrderReply(store.orders, line), NoUsage, memory)
    else
      var hit := FaqAnswer(store.faq, line);
      if hit.Some? && hit.value != [] then Reply(hit.value, NoUsage, memory)
      else
        var prompt := Prompt(store.faq, line);
        match model(memory, prompt)
        case Ok(text, usage) => Reply(text, usage, memory + [Message(User, prompt), Message(Assistant, text)])
        case Err(cause) => Reply(ModelErrorPrefix + cause, NoUsage, memory)
  }

  /** The state before the first turn: the system prompt in memory and as the first log record. */
  function Init(brand: string): (r: Session)
    ensures r.running && WellFormed(SystemPrompt(brand), r)
  {
    var r := Session([Message(System, SystemPrompt(brand))], [LogRecord(System, SystemPrompt(brand), None)], true);
    assert r.log[1..] == [] && r.memory[1..] == [];
    r
  }

  /** One pass of the loop body. */
  function Step(store: Store, s: Session, input: Input, model: Model): (r: Session)
    requires s.running
    ensures s.log <= r.log && |r.log| <= |s.log| + 2
    ensures s.memory <= r.memory && |r.memory| <= |s.memory| + 2
    ensures !r.running ==> r.memory == s.memory && (r.log == s.log || r.log == s.log + [ExitRecord])
  {
    match input
    case Interrupt => s.(running := false)
    case Line(raw) =>
      var line := Strip(raw);
      if line == [] then s
      else if IsExitCommand(line) then s.(log := s.log + [ExitRecord], running := false)
      else
        var r := Answer(store, s.memory, line, model);
        s.(memory := r.memory,
           log := s.log + [LogRecord(User, line, None), LogRecord(Assistant, Strip(r.text), Some(r.usage))])
  }

  /** A whole session: turns are consumed until the loop stops. */
  function Run(store: Store, s: Session, turns: seq<TurnInput>): (r: Session)
    ensures s.log <= r.log && s.memory <= r.memory
    decreases |turns|
  {
    if turns == [] || !s.running then s
    else Run(store, Step(store, s, turns[0].input, turns[0].model), turns[1..])
  }

  // ------------------------------------------------------ session shape

  /** Memory after the system prompt: (user, assistant) exchanges. */
  predicate Exchanges(ms: seq<Message>)
    decreases |ms|
  {
    ms == [] || (|ms| >= 2 && ms[0].role == User && ms[1].role == Assistant && Exchanges(ms[2..]))
  }

  /** A user record of a stripped, non-empty line, without usage. */
  predicate UserRecord(r: LogRecord) {
    r.role == User && r.usage.None? && r.content != [] && Trimmed(r.content)
  }

  /** An assistant record of a stripped reply, with usage. */
  predicate AssistantRecord(r: LogRecord) {
    r.role == Assistant && r.usage.Some? && Trimmed(r.content)
  }

  /** Log records after the first: (user, assistant) pairs. */
  predicate Paired(log: seq<LogRecord>)
    decreases |log|
  {
    log == [] || (|log| >= 2 && UserRecord(log[0]) && AssistantRecord(log[1]) && Paired(log[2..]))
  }

  /**
   * The session invariant: memory and log both start with the system prompt
   * and hold nothing but whole turns after it; a stopped session may end
   * its log with the exit notice.
   */
  predicate WellFormed(prompt: string, s: Session) {
    && |s.memory| >= 1 && s.memory[0] == Message(System, prompt) && Exchanges(s.memory[1..])
    && |s.log| >= 1 && s.log[0] == LogRecord(System, prompt, None)
    && (Paired(s.log[1..])
        || (!s.running && |s.log| >= 2 && s.log[|s.log| - 1] == ExitRecord && Paired(s.log[1..|s.log| - 1])))
  }

  lemma {:induction false} ExchangesAppend(ms: seq<Message>, u: Message, a: Message)
    requires Exchanges(ms) && u.role == User && a.role == Assistant
    ensures Exchanges(ms + [u, a])
    decreases |ms|
  {
    if ms == [] {
      assert ([] + [u, a])[2..] == [];
    } else {
      assert (ms + [u, a])[2..] == ms[2..] + [u, a];
      ExchangesAppend(ms[2..], u, a);
    }
  }

  lemma {:induction false} PairedAppend(log: seq<LogRecord>, u: LogRecord, a: LogRecord)
    requires Paired(log) && UserRecord(u) && AssistantRecord(a)
    ensures Paired(log + [u, a])
    decreases |log|
  {
    if log == [] {
      assert ([] + [u, a])[2..] == [];
    } else {
      assert (log + [u, a])[2..] == log[2..] + [u, a];
      PairedAppend(log[2..], u, a);
    }
  }

  // ------------------------------------------------------- routing lemmas

  lemma OrderLineIsNotExit(line: string)
    requires IsOrderCommand(line)
    ensures line != [] && !IsExitCommand(line)
  {
    var l := Lower(line);
    assert l[0] == '/';
  }

  /** A blank or whitespace-only line changes nothing and keeps the loop running. */
  lemma StepBlankIsNoop(store: Store, s: Session, raw: string, model: Model)
    requires s.running && AllSpace(raw)
    ensures Step(store, s, Line(raw), model) == s
  {
    StripShape(raw);
  }

  /** An interrupt stops the loop and writes nothing. */
  lemma StepInterruptStops(store: Store, s: Session, model: Model)
    requires s.running
    ensures var t := Step(store, s, Interrupt, model);
      !t.running && t.memory == s.memory && t.log == s.log
  {
  }

  /**
   * An exit keyword, in any letter case and with any padding, appends the
   * exit notice as the only new record, leaves memory alone and stops the loop.
   */
  lemma StepExitStops(store: Store, s: Session, w1: string, word: string, w2: string, model: Model)
    requires s.running && AllSpace(w1) && AllSpace(w2)
    requires Lower(word) in {"выход", "quit", "exit"}
    ensures var t := Step(store, s, Line(w1 + word + w2), model);
      !t.running && t.memory == s.memory && t.log == s.log + [ExitRecord]
  {
    var l := Lower(word);
    assert l != [] && !IsSpace(l[0]) && !IsSpace(l[|l| - 1]);
    assert l[0] == LowerChar(word[0]) && l[|l| - 1] == LowerChar(word[|word| - 1]);
    LowerCharKeepsSpace(word[0]);
    LowerCharKeepsSpace(word[|word| - 1]);
    StripUnique(w1, word, w2);
  }

  /**
   * Every turn that is neither blank nor an exit keyword appends exactly two
   * log records, a user record holding the stripped line and then an
   * assistant record holding the stripped reply with usage, and keeps the
   * loop running; that usage is zero unless the model answered.
   */
  lemma StepLogsOneExchange(store: Store, s: Session, raw: string, model: Model)
    requires s.running && !AllSpace(raw) && !IsExitCommand(Strip(raw))
    ensures var t := Step(store, s, Line(raw), model);
      && t.running
      && |t.log| == |s.log| + 2 && t.log[..|s.log|] == s.log
      && t.log[|s.log|] == LogRecord(User, Strip(raw), None)
      && UserRecord(t.log[|s.log|]) && AssistantRecord(t.log[|s.log| + 1])
      && (t.log[|s.log| + 1].usage != Some(NoUsage) ==>
            && !IsOrderCommand(Strip(raw))
            && FaqAnswer(store.faq, Strip(raw)) in {None, Some("")}
            && model(s.memory, Prompt(store.faq, Strip(raw))).Ok?)
  {
    StripShape(raw);
    var line := Strip(raw);
    var r := Answer(store, s.memory, line, model);
    StripShape(r.text);
    var t := Step(store, s, Line(raw), model);
    assert t.log == s.log + [LogRecord(User, line, None), LogRecord(Assistant, Strip(r.text), Some(r.usage))];
  }

  lemma FormatErrorTrimmed()
    ensures Strip(FormatError) == FormatError
  {
    assert FormatError[0] == 'Н' && FormatError[|FormatError| - 1] == '>';
    assert [] + FormatError + [] == FormatError;
    StripUnique([], FormatError, []);
  }

  /**
   * An order command never reaches the FAQ or the model: memory is left
   * alone, usage is zero, and the logged reply is the lookup for the second
   * word when the line has exactly two words, the format error otherwise.
   */
  lemma StepOrderCommand(store: Store, s: Session, raw: string, model: Model)
    requires s.running && IsOrderCommand(Strip(raw))
    ensures var t := Step(store, s, Line(raw), model);
      && t.running && t.memory == s.memory
      && t.log[|t.log| - 1].usage == Some(NoUsage)
      && t.log[|t.log| - 1].content ==
           (if |Split(Strip(raw))| == 2 then Strip(GetOrderStatus(store.orders, Split(Strip(raw))[1])) else FormatError)
  {
    OrderLineIsNotExit(Strip(raw));
    FormatErrorTrimmed();
  }

  /** What an order-command turn does depends on neither the FAQ nor the model. */
  lemma StepOrderIgnoresFaqAndModel(store: Store, other: Store, s: Session, raw: string, model: Model, model': Model)
    requires s.running && IsOrderCommand(Strip(raw)) && other.orders == store.orders
    ensures Step(store, s, Line(raw), model) == Step(other, s, Line(raw), model')
  {
    OrderLineIsNotExit(Strip(raw));
  }

  /** With too few or too many words the reply is the format error and no order is read. */
  lemma OrderReplyArity(orders: map<string, Order>, other: map<string, Order>, line: string)
    requires |Split(line)| != 2
    ensures OrderReply(orders, line) == FormatError == OrderReply(other, line)
  {
  }

  /**
   * Any first word whose lower-cased form starts with `/order` followed by
   * exactly one more word looks up that word: `/order A100`, and also
   * `/orders A100`.
   */
  lemma OrderCommandLooksUp(orders: map<string, Order>, cmd: string, ws: string, id: string)
    requires IsOrderCommand(cmd) && NoSpace(cmd)
    requires ws != [] && AllSpace(ws) && id != [] && NoSpace(id)
    ensures IsOrderCommand(cmd + ws + id)
    ensures OrderReply(orders, cmd + ws + id) == GetOrderStatus(orders, id)
  {
    OrderLineIsNotExit(cmd);
    SplitPair(cmd, ws, id);
    LowerAppend(cmd, ws + id);
    assert cmd + ws + id == cmd + (ws + id);
    SliceBefore(Lower(cmd), Lower(ws + id));
    assert Lower(cmd + ws + id)[..|OrderPrefix|] == Lower(cmd)[..|OrderPrefix|];
  }

  /**
   * A line the FAQ answers with a non-empty answer is answered from the FAQ:
   * memory is left alone, usage is zero, and the model is not consulted.
   */
  lemma StepFaqHit(store: Store, s: Session, raw: string, model: Model, model': Model)
    requires s.running && !AllSpace(raw) && !IsExitCommand(Strip(raw)) && !IsOrderCommand(Strip(raw))
    requires FaqAnswer(store.faq, Strip(raw)).Some? && FaqAnswer(store.faq, Strip(raw)).value != []
    ensures var t := Step(store, s, Line(raw), model);
      && t.running && t.memory == s.memory && |t.log| == |s.log| + 2
      && t.log[|t.log| - 1] == LogRecord(Assistant, Strip(FaqAnswer(store.faq, Strip(raw)).value), Some(NoUsage))
      && t == Step(store, s, Line(raw), model')
  {
    StripShape(raw);
  }

  /**
   * Every other line goes to the model with the FAQ prompt: a reply extends
   * memory by the prompt and the reply and is logged with its usage; a
   * failure leaves memory alone and logs the error text with zero usage. An
   * empty FAQ answer counts as no answer. The session continues either way.
   */
  lemma StepFallback(store: Store, s: Session, raw: string, model: Model)
    requires s.running && !AllSpace(raw) && !IsExitCommand(Strip(raw)) && !IsOrderCommand(Strip(raw))
    requires FaqAnswer(store.faq, Strip(raw)) in {None, Some("")}
    ensures var t := Step(store, s, Line(raw), model);
      var prompt := Prompt(store.faq, Strip(raw));
      && t.running && |t.log| == |s.log| + 2
      && match model(s.memory, prompt)
         case Ok(text, usage) =>
           && t.memory == s.memory + [Message(User, prompt), Message(Assistant, text)]
           && t.log[|t.log| - 1] == LogRecord(Assistant, Strip(text), Some(usage))
         case Err(cause) =>
           && t.memory == s.memory
           && t.log[|t.log| - 1] == LogRecord(Assistant, Strip(ModelErrorPrefix + cause), Some(NoUsage))
  {
    StripShape(raw);
  }

  /** Only a successful model call changes memory, and then by exactly one exchange. */
  lemma StepMemory(store: Store, s: Session, input: Input, model: Model)
    requires s.running
    ensures var t := Step(store, s, input, model);
      t.memory != s.memory ==>
        && input.Line?
        && var prompt := Prompt(store.faq, Strip(input.raw));
        && model(s.memory, prompt).Ok?
        && t.memory == s.memory + [Message(User, prompt), Message(Assistant, model(s.memory, prompt).reply)]
  {
  }

  /** The fallback prompt ends with the user's line and carries every FAQ pair in order. */
  lemma FallbackPromptLayout(store: Store, line: string, i: nat)
    ensures var p := Prompt(store.faq, line);
      && p[|p| - |line|..] == line
      && (i < |store.faq| ==> ContainsAt(p, Block(store.faq[i]), |PromptHead| + Offset(store.faq, i)))
  {
    PromptLayout(store.faq, line, i);
  }

  /**
   * `<cmd> <id>` with a command word starting with `/order` logs the line
   * itself and then the lookup sentence for `id`, unchanged by stripping.
   */
  lemma StepOrderLooksUp(store: Store, s: Session, model: Model, cmd: string, ws: string, id: string)
    requires s.running && IsOrderCommand(cmd) && NoSpace(cmd)
    requires ws != [] && AllSpace(ws) && id != [] && NoSpace(id)
    ensures var t := Step(store, s, Line(cmd + ws + id), model);
      && t.memory == s.memory && |t.log| == |s.log| + 2
      && t.log[|s.log|] == LogRecord(User, cmd + ws + id, None)
      && t.log[|s.log| + 1] == LogRecord(Assistant, GetOrderStatus(store.orders, id), Some(NoUsage))
  {
    var line := cmd + ws + id;
    OrderLineStripped(cmd, ws, id);
    OrderCommandLooksUp(store.orders, cmd, ws, id);
    OrderLineIsNotExit(line);
    GetOrderStatusTrimmed(store.orders, id);
  }

  /** `<cmd> <id>` has no surrounding whitespace, so `strip` leaves it alone. */
  lemma OrderLineStripped(cmd: string, ws: string, id: string)
    requires IsOrderCommand(cmd) && NoSpace(cmd) && id != [] && NoSpace(id)
    ensures Strip(cmd + ws + id) == cmd + ws + id
  {
    var line := cmd + ws + id;
    OrderLineIsNotExit(cmd);
    assert line[0] == cmd[0] && line[|line| - 1] == id[|id| - 1];
    assert [] + line + [] == line;
    StripUnique([], line, []);
  }

  /**
   * `/order A100` for an order in transit with a two-day estimate and carrier
   * FastShip logs the in-transit sentence, which names all three.
   */
  lemma ExampleOrderInTransit(faq: seq<FaqEntry>, s: Session, model: Model)
    requires s.running
    ensures var order := Order(Some("in_transit"), Some("2"), Some("FastShip"), None, None, false);
      var t := Step(Store(faq, map["A100" := order]), s, Line("/order A100"), model);
      && t.memory == s.memory && |t.log| == |s.log| + 2
      && t.log[|s.log| + 1] == LogRecord(Assistant, InTransitText("A100", "2", "FastShip"), Some(NoUsage))
      && Contains(t.log[|s.log| + 1].content, "A100")
      && Contains(t.log[|s.log| + 1].content, "2")
      && Contains(t.log[|s.log| + 1].content, "FastShip")
  {
    var orders := map["A100" := Order(Some("in_transit"), Some("2"), Some("FastShip"), None, None, false)];
    assert Lower("/order") == "/order";
    assert "/order" + " " + "A100" == "/order A100";
    StepOrderLooksUp(Store(faq, orders), s, model, "/order", " ", "A100");
    GetOrderStatusMentions(orders, "A100");
  }

  // ------------------------------------------------------ session lemmas

  /** The exit branch keeps the invariant: the exit notice may close the log of a stopped session. */
  lemma ExitWellFormed(prompt: string, s: Session)
    requires s.running && WellFormed(prompt, s)
    ensures WellFormed(prompt, s.(log := s.log + [ExitRecord], running := false))
  {
    var t := s.(log := s.log + [ExitRecord], running := false);
    assert Paired(s.log[1..]);
    assert t.log[1..|t.log| - 1] == s.log[1..];
  }

  /** An answered turn keeps the invariant: one record pair in the log, at most one exchange in memory. */
  lemma AnswerWellFormed(store: Store, prompt: string, s: Session, line: string, model: Model)
    requires s.running && WellFormed(prompt, s) && line != [] && Trimmed(line)
    ensures var r := Answer(store, s.memory, line, model);
      WellFormed(prompt, s.(memory := r.memory,
        log := s.log + [LogRecord(User, line, None), LogRecord(Assistant, Strip(r.text), Some(r.usage))]))
  {
    var r := Answer(store, s.memory, line, model);
    var u, a := LogRecord(User, line, None), LogRecord(Assistant, Strip(r.text), Some(r.usage));
    var t := s.(memory := r.memory, log := s.log + [u, a]);
    assert Paired(s.log[1..]);
    PairedAppend(s.log[1..], u, a);
    assert t.log[1..] == s.log[1..] + [u, a];
    if r.memory != s.memory {
      var m := Message(User, Prompt(store.faq, line));
      ExchangesAppend(s.memory[1..], m, Message(Assistant, r.text));
      assert t.memory[1..] == s.memory[1..] + [m, Message(Assistant, r.text)];
    }
  }

  /** Every pass of the loop keeps the session invariant. */
  lemma StepWellFormed(store: Store, prompt: string, s: Session, input: Input, model: Model)
    requires s.running && WellFormed(prompt, s)
    ensures WellFormed(prompt, Step(store, s, input, model))
  {
    if input.Line? && Strip(input.raw) != [] {
      var line := Strip(input.raw);
      if IsExitCommand(line) {
        ExitWellFormed(prompt, s);
      } else {
        AnswerWellFormed(store, prompt, s, line, model);
      }
    }
  }

  /** Every session that starts from `Init` stays well formed, whatever the inputs and the model do. */
  lemma {:induction false} RunWellFormed(store: Store, prompt: string, s: Session, turns: seq<TurnInput>)
    requires WellFormed(prompt, s)
    ensures WellFormed(prompt, Run(store, s, turns))
    decreases |turns|
  {
    if turns != [] && s.running {
      StepWellFormed(store, prompt, s, turns[0].input, turns[0].model);
      RunWellFormed(store, prompt, Step(store, s, turns[0].input, turns[0].model), turns[1..]);
    }
  }

  /** A whole session from start: the first record and first message are the system prompt. */
  lemma SessionStartsWithSystemPrompt(store: Store, brand: string, turns: seq<TurnInput>)
    ensures var t := Run(store, Init(brand), turns);
      && |t.memory| >= 1 && |t.log| >= 1
      && t.memory[0] == Message(System, SystemPrompt(brand))
      && t.log[0] == LogRecord(System, SystemPrompt(brand), None)
  {
    RunWellFormed(store, SystemPrompt(brand), Init(brand), turns);
  }

  // ------------------------------------------------------------- the bot

  class SupportBot {
    const store: Store
    const systemPrompt: string
    var memory: seq<Message>
    var log: seq<LogRecord>
    var running: bool

    function State(): Session
      reads this
    {
      Session(memory, log, running)
    }

    ghost predicate Valid()
      reads this
    {
      WellFormed(systemPrompt, State())
    }

    /** Session start: the system prompt enters memory once and is logged as the first record. */
    constructor (store: Store, brand: string)
      ensures this.store == store && systemPrompt == SystemPrompt(brand)
      ensures State() == Init(brand) && Valid()
    {
      this.store := store;
      systemPrompt := SystemPrompt(brand);
      memory := [Message(System, SystemPrompt(brand))];
      log := [];
      running := true;
      new;
      LogEntry(System, systemPrompt, None);
    }

    /** `log_entry`: appends exactly one record. */
    method LogEntry(role: Role, content: string, usage: Option<Usage>)
      modifies this`log
      ensures log == old(log) + [LogRecord(role, content, usage)]
    {
      log := log + [LogRecord(role, content, usage)];
    }

    /**
     * Steps 3 to 5 of the loop body for a line that is neither blank nor an
     * exit keyword: the order command, then the FAQ, then the model, which
     * alone may extend memory.
     */
    method Respond(line: string, model: Model) returns (reply: string, usage: Usage)
      modifies this`memory
      ensures Answer(store, old(memory), line, model) == Reply(reply, usage, memory)
    {
      reply := "";
      usage := NoUsage;
      if IsOrderCommand(line) {
        var parts := Split(line);
        reply := if |parts| == 2 then GetOrderStatus(store.orders, parts[1]) else FormatError;
      } else {
        var answer := FindInFaq(store.faq, line);
        if answer.Some? && answer.value != [] {
          reply := answer.value;
        } else {
          var prompt := Prompt(store.faq, line);
          match model(memory, prompt) {
            case Ok(text, used) =>
              memory := memory + [Message(User, prompt), Message(Assistant, text)];
              reply := text;
              usage := used;
            case Err(cause) =>
              reply := ModelErrorPrefix + cause;
          }
        }
      }
    }

    /** One pass of the `while True` loop body. */
    method HandleTurn(input: Input, model: Model)
      requires Valid() && running
      modifies this`memory, this`log, this`running
      ensures Valid()
      ensures State() == Step(store, old(State()), input, model)
    {
      ghost var before := State();
      StepWellFormed(store, systemPrompt, before, input, model);
      match input {
        case Interrupt =>
          running := false;
        case Line(raw) =>
          var line := Strip(raw);
          if line == [] {
            return;
          }
          if IsExitCommand(line) {
            LogEntry(System, ExitNotice, None);
            running := false;
            return;
          }
          LogEntry(User, line, None);
          var text, usage := Respond(line, model);
          var reply := Strip(text);
          LogEntry(Assistant, reply, Some(usage));
          assert log == before.log + [LogRecord(User, line, None), LogRecord(Assistant, reply, Some(usage))];
          assert Answer(store, before.memory, line, model) == Reply(text, usage, memory);
      }
    }
  }
}
