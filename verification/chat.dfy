/** The interactive chat: build the chain once, then read lines until an exit
    command, end of input or an interrupt; blank lines are skipped, every
    other line is a question answered by the chain, and an error from the
    chain is reported without ending the session. Console input is a
    sequence of input events; console output is a sequence of events. */
module Chat {
  import opened Wrappers
  import opened Text
  import opened Errors
  import opened Config
  import opened Search

  /** `EXIT_COMMANDS`. */
  const ExitCommands: set<string> := {":q", ":quit", ":exit", ":sair"}

  /** `str.lower()` on one character, for the ASCII letters (the only
      characters whose lower-case form can occur in an exit command). */
  function LowerChar(c: char): char {
    if 'A' <= c <= 'Z' then (c as int + 32) as char else c
  }

  /** `s.lower()` on ASCII letters. */
  function Lower(s: string): string
  {
    seq(|s|, i requires 0 <= i < |s| => LowerChar(s[i]))
  }

  /** Lower-casing twice is lower-casing once, and the exit commands are
      already in lower case, so comparing `Lower(q)` with them is comparing
      up to case. */
  lemma LowerFixesExitCommands(s: string)
    ensures Lower(Lower(s)) == Lower(s)
    ensures forall c :: c in ExitCommands ==> Lower(c) == c
  {
    forall c | c in ExitCommands
      ensures Lower(c) == c
    {
    }
  }

  /** What one input line asks the loop to do. */
  datatype Command = Skip | Exit | Ask(question: string)

  /** The body of the `while True` loop for one line: strip it, skip it when
      empty, stop on an exit command, otherwise ask it. */
  function Classify(raw: string): (c: Command)
    ensures c.Ask? ==> c.question == Strip(raw) && c.question != ""
  {
    var q := Strip(raw);
    if q == "" then Skip
    else if Lower(q) in ExitCommands then Exit
    else Ask(q)
  }

  /** Two strings that differ at most in the case of ASCII letters. */
  predicate SameIgnoringCase(a: string, b: string) {
    |a| == |b| && forall i :: 0 <= i < |a| ==> LowerChar(a[i]) == LowerChar(b[i])
  }

  /** Whitespace-only lines, and only they, are skipped. */
  lemma ClassifySkipIffBlank(raw: string)
    ensures Classify(raw) == Skip <==> AllSpace(raw)
  {
    BlankIffAllSpace(raw);
  }

  /** A line exits exactly when, stripped, it spells one of the exit commands
      in any mix of upper and lower case. */
  lemma ClassifyExitIgnoresCase(raw: string)
    ensures Classify(raw) == Exit <==> exists cmd :: cmd in ExitCommands && SameIgnoringCase(Strip(raw), cmd)
  {
    var q := Strip(raw);
    forall cmd | cmd in ExitCommands
      ensures Lower(q) == cmd <==> SameIgnoringCase(q, cmd)
    {
      assert Lower(cmd) == cmd;
      if SameIgnoringCase(q, cmd) {
        assert Lower(q) == Lower(cmd);
      }
    }
    if Classify(raw) == Exit {
      assert Lower(q) in ExitCommands;
    }
  }

  /** One console input: a line, or an interrupt (Ctrl-C) while waiting for
      one. End of input is the end of the sequence. */
  datatype Input = Line(text: string) | Interrupt

  /** What the session prints: an answer, an error report (`[erro] …`), the
      goodbye after an exit command (`Tchau!`), or the closing message after
      end of input or an interrupt (`Encerrando...`). */
  datatype Event =
    | Answered(question: string, answer: string)
    | Reported(question: string, error: Failure)
    | Goodbye
    | Closing

  /** `chain(q, k=topk)` as the loop sees it: an answer or an exception. */
  type Asker = (string, int) -> Result<string, Failure>

  function Respond(q: string, r: Result<string, Failure>): Event {
    match r
    case Success(a) => Answered(q, a)
    case Failure(e) => Reported(q, e)
  }

  /** The `while True` loop of `main`, one input at a time. */
  function Session(inputs: seq<Input>, ask: Asker, topk: int): (events: seq<Event>)
    ensures 1 <= |events|
    ensures events[|events| - 1] == Goodbye || events[|events| - 1] == Closing
    ensures forall i :: 0 <= i < |events| - 1 ==> events[i].Answered? || events[i].Reported?
    decreases |inputs|
  {
    if |inputs| == 0 then [Closing]
    else
      match inputs[0]
      case Interrupt => [Closing]
      case Line(text) =>
        match Classify(text)
        case Skip => Session(inputs[1..], ask, topk)
        case Exit => [Goodbye]
        case Ask(q) => [Respond(q, ask(q, topk))] + Session(inputs[1..], ask, topk)
  }

  // ---------------------------------------------------------------------------
  // Reference description of the session

  /** Whether an input ends the loop. */
  predicate Stops(x: Input) {
    x.Interrupt? || Classify(x.text) == Exit
  }

  /** Position of the input that ends the loop, or `|inputs|` when only the
      end of input does. */
  function StopAt(inputs: seq<Input>): (n: nat)
    ensures n <= |inputs|
    ensures forall i :: 0 <= i < n ==> !Stops(inputs[i])
    ensures n < |inputs| ==> Stops(inputs[n])
  {
    if |inputs| == 0 || Stops(inputs[0]) then 0 else 1 + StopAt(inputs[1..])
  }

  /** The questions a run of non-stopping inputs holds: each non-blank line,
      stripped, in order. */
  function Questions(inputs: seq<Input>): seq<string> {
    if |inputs| == 0 then []
    else
      var rest := Questions(inputs[1..]);
      if inputs[0].Line? && Classify(inputs[0].text).Ask?
      then [Classify(inputs[0].text).question] + rest
      else rest
  }

  /** The questions the session put to the chain, in order. */
  function Asked(events: seq<Event>): seq<string> {
    if |events| == 0 then []
    else if events[0].Answered? || events[0].Reported? then [events[0].question] + Asked(events[1..])
    else Asked(events[1..])
  }

  lemma AskedAppend(a: seq<Event>, b: seq<Event>)
    ensures Asked(a + b) == Asked(a) + Asked(b)
  {
    if |a| == 0 {
      assert a + b == b;
    } else {
      assert (a + b)[0] == a[0];
      assert (a + b)[1..] == a[1..] + b;
      AskedAppend(a[1..], b);
    }
  }

  lemma StopAtStep(inputs: seq<Input>)
    requires 0 < |inputs| && !Stops(inputs[0])
    ensures StopAt(inputs) == 1 + StopAt(inputs[1..])
  {
  }

  /** Past a non-stopping first input, the inputs before the stop are that
      input followed by the rest's inputs before the stop. */
  lemma StopPrefixStep(inputs: seq<Input>)
    requires 0 < |inputs| && !Stops(inputs[0])
    ensures inputs[..StopAt(inputs)][1..] == inputs[1..][..StopAt(inputs[1..])]
  {
    StopAtStep(inputs);
  }

  /** The chain is called exactly once for each non-blank line before the one
      that ends the session, with that line stripped, in input order; an
      error from the chain does not end the session. */
  lemma {:induction false} SessionAsksEachQuestion(inputs: seq<Input>, ask: Asker, topk: int)
    ensures Asked(Session(inputs, ask, topk)) == Questions(inputs[..StopAt(inputs)])
    decreases |inputs|
  {
    if |inputs| == 0 || Stops(inputs[0]) {
      SessionStops(inputs, ask, topk);
      assert inputs[..StopAt(inputs)] == [];
    } else {
      StopAtStep(inputs);
      StopPrefixStep(inputs);
      SessionStep(inputs, ask, topk);
      SessionAsksEachQuestion(inputs[1..], ask, topk);
      AskedAppend(StepEvents(inputs[0], ask, topk), Session(inputs[1..], ask, topk));
    }
  }

  /** What a non-stopping input adds to the session: one response for a
      question, nothing for a blank line. */
  function StepEvents(x: Input, ask: Asker, topk: int): seq<Event>
    requires !Stops(x)
  {
    match Classify(x.text)
    case Ask(q) => [Respond(q, ask(q, topk))]
    case _ => []
  }

  /** One step of the loop over an input that does not end it. */
  lemma SessionStep(inputs: seq<Input>, ask: Asker, topk: int)
    requires 0 < |inputs| && !Stops(inputs[0])
    ensures Session(inputs, ask, topk) == StepEvents(inputs[0], ask, topk) + Session(inputs[1..], ask, topk)
  {
    if !Classify(inputs[0].text).Ask? {
      assert StepEvents(inputs[0], ask, topk) + Session(inputs[1..], ask, topk) == Session(inputs[1..], ask, topk);
    }
  }

  lemma LastOfAppend(front: seq<Event>, tail: seq<Event>)
    requires 0 < |tail|
    ensures (front + tail)[|front + tail| - 1] == tail[|tail| - 1]
  {
  }

  /** The loop ends at an exit command, an interrupt or the end of input. */
  lemma SessionStops(inputs: seq<Input>, ask: Asker, topk: int)
    requires |inputs| == 0 || Stops(inputs[0])
    ensures StopAt(inputs) == 0
    ensures Session(inputs, ask, topk) == if 0 < |inputs| && inputs[0].Line? then [Goodbye] else [Closing]
  {
  }

  /** The session ends with the goodbye exactly when an exit command ended it,
      and with the closing message on end of input or an interrupt. */
  lemma {:induction false} SessionEnding(inputs: seq<Input>, ask: Asker, topk: int)
    ensures
      var events := Session(inputs, ask, topk);
      events[|events| - 1] == Goodbye <==> StopAt(inputs) < |inputs| && inputs[StopAt(inputs)].Line?
    decreases |inputs|
  {
    if |inputs| == 0 || Stops(inputs[0]) {
      SessionStops(inputs, ask, topk);
    } else {
      var rest := inputs[1..];
      var later := Session(rest, ask, topk);
      SessionEnding(rest, ask, topk);
      StopAtStep(inputs);
      SessionStep(inputs, ask, topk);
      LastOfAppend(StepEvents(inputs[0], ask, topk), later);
      assert StopAt(rest) < |rest| ==> inputs[StopAt(inputs)] == rest[StopAt(rest)];
    }
  }

  /** Every printed answer or error report is what the chain gave for that
      question with the session's `topk`. */
  lemma {:induction false} SessionReportsChainOutcome(inputs: seq<Input>, ask: Asker, topk: int)
    ensures forall e :: e in Session(inputs, ask, topk) && e.Answered? ==> ask(e.question, topk) == Success(e.answer)
    ensures forall e :: e in Session(inputs, ask, topk) && e.Reported? ==> ask(e.question, topk) == Failure(e.error)
    decreases |inputs|
  {
    if |inputs| > 0 && inputs[0].Line? {
      SessionReportsChainOutcome(inputs[1..], ask, topk);
    }
  }

  /** How `main` ended: initialisation raised (message with details), the
      chain came back falsy (message without details), or the loop ran. */
  datatype ChatRun = StartFailed(error: Failure) | NoChain | Ran(events: seq<Event>)

  /** `main()`. The result is a failure when `int(TOPK)` raised, which `main`
      does not catch. */
  function Main(env: Env, inputs: seq<Input>, parse: IntParser, search: Retriever, llm: ChatModel): Result<ChatRun, Failure> {
    match SearchPrompt(None, env, parse, search, llm)
    case Failure(e) => Success(StartFailed(e))
    case Success(d) =>
      if !d.ChainReady? then Success(NoChain)
      else
        match TopK(env, parse)
        case Failure(e) => Failure(e)
        case Success(k) =>
          Success(Ran(Session(inputs, (q: string, n: int) => Chain(q, n, search, llm).result, k)))
  }

  /** If the chain cannot be built the loop never starts: no input is read and
      no question is asked; the falsy-chain branch is never taken. */
  lemma MainStart(env: Env, inputs: seq<Input>, parse: IntParser, search: Retriever, llm: ChatModel)
    ensures LoadClients(env).Failure? ==> Main(env, inputs, parse, search, llm) == Success(StartFailed(LoadClients(env).error))
    ensures Main(env, inputs, parse, search, llm) != Success(NoChain)
    ensures LoadClients(env).Success? && "TOPK" !in env ==>
      Main(env, inputs, parse, search, llm)
        == Success(Ran(Session(inputs, (q: string, n: int) => Chain(q, n, search, llm).result, 10)))
  {
  }

  /** No answer the chat prints is empty. */
  lemma MainAnswersNonEmpty(env: Env, inputs: seq<Input>, parse: IntParser, search: Retriever, llm: ChatModel)
    requires Main(env, inputs, parse, search, llm).Success?
    requires Main(env, inputs, parse, search, llm).value.Ran?
    ensures forall e :: e in Main(env, inputs, parse, search, llm).value.events && e.Answered? ==> e.answer != ""
  {
    var k := TopK(env, parse).value;
    var ask := (q: string, n: int) => Chain(q, n, search, llm).result;
    SessionReportsChainOutcome(inputs, ask, k);
  }
}
