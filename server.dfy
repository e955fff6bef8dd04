/** The `/quiz` request handler: a validation gate (JSON body, shared secret,
    start URL) followed by the chained-submission loop that fetches, parses,
    solves and submits one quiz page per round until a submission response
    names no next URL or the clock reaches the deadline.

    The four collaborators (renderer, parser, solver, submitter) are opaque:
    each is a total function of the round number and of its arguments that
    either returns a value or raises. The wall clock is the sequence of its
    readings: reading 0 fixes the deadline and each evaluation of the loop
    guard with a truthy `current` takes the next one. */
module Server {
  import opened JsonValues

  /** The time budget of one request, in seconds. */
  const QuizTimeoutSeconds: int := 180

  /** The configured student credentials sent with every submission. */
  datatype Settings = Settings(email: string, secret: string)

  /** The request body: it either fails to decode as JSON or decodes to a value. */
  datatype Body = Malformed | Parsed(payload: Json)

  /** The dict a round posts: {"email", "secret", "url", "answer"}. */
  datatype Submission = Submission(email: string, secret: string, url: Json, answer: Json)

  datatype Collaborators = Collaborators(
    fetch: (nat, Json) -> Attempt<string>,         // rendered markup of a page
    parse: (nat, string, Json) -> Attempt<Json>,   // task descriptor of that markup
    solve: (nat, Json, int) -> Attempt<Json>,      // answer to a task within a deadline
    submit: (nat, Json, Submission) -> Attempt<Json>)  // result of posting a submission

  /** The statement of a round that raised. */
  datatype Step =
    | Fetch       // fetch_rendered_html
    | Parse       // parse_quiz_page
    | Solve       // solve_quiz_task
    | SubmitUrl   // task["submit_url"]
    | Submit      // submit_answer_to_url
    | NextUrl     // result.get("url")

  /** An exception nothing in the handler catches. */
  datatype Fault =
    | GetOnNonObject                       // the decoded body is not a dict
    | RoundFailed(round: nat, step: Step)

  datatype Response =
    | Reply(body: Json)                        // the returned dict
    | Rejected(status: int, detail: string)    // an HTTPException
    | Failed(fault: Fault)                     // an unhandled exception

  /** Everything one completed round computed. */
  datatype Round = Round(
    page: Json, markup: string, task: Json, deadline: int, answer: Json,
    target: Json, submission: Submission, response: Json)

  datatype RoundOutcome = Completed(round: Round) | Aborted(step: Step)

  /** Why the loop stopped. */
  datatype Stop = ChainEnded | DeadlineReached | Crashed(fault: Fault)

  datatype LoopEnd = LoopEnd(rounds: seq<Round>, ticks: nat, stop: Stop)

  /** The handler's response, the rounds it completed and the number of clock
      readings it took. */
  datatype Handled = Handled(response: Response, rounds: seq<Round>, ticks: nat)

  /** The record returned when no truthy submission result exists. */
  const TimeoutRecord: Json := JObj(map["correct" := JBool(false), "reason" := JStr("Timeout")])

  /** The clock eventually reaches the deadline fixed by its first reading. */
  predicate ClockPasses(clock: seq<int>) {
    |clock| > 0 && clock[|clock| - 1] >= clock[0] + QuizTimeoutSeconds
  }

  /** The page the loop visits after `rounds` from `start`. */
  function NextPage(start: Json, rounds: seq<Round>): Json {
    if rounds == [] then start else Field(rounds[|rounds| - 1].response, "url")
  }

  /** The value of `last` after `rounds`. */
  function LastResult(rounds: seq<Round>): Json {
    if rounds == [] then JNull else rounds[|rounds| - 1].response
  }

  /** `last or {"correct": False, "reason": "Timeout"}` */
  function FinalBody(last: Json): (r: Json)
    ensures Truthy(r)
    ensures r == last || r == TimeoutRecord
    ensures Truthy(last) <==> r == last
  {
    if Truthy(last) then last else assert "correct" in TimeoutRecord.fields; TimeoutRecord
  }

  /** `r` is what round `k` computes from its page when no step raises. */
  ghost predicate RoundOk(env: Collaborators, cfg: Settings, k: nat, deadline: int, r: Round) {
    Truthy(r.page)
    && env.fetch(k, r.page) == Returned(r.markup)
    && env.parse(k, r.markup, r.page) == Returned(r.task)
    && r.deadline == deadline
    && env.solve(k, r.task, deadline) == Returned(r.answer)
    && r.submission == Submission(cfg.email, cfg.secret, r.page, r.answer)
    && Index(r.task, "submit_url") == Returned(r.target)
    && env.submit(k, r.target, r.submission) == Returned(r.response)
    && r.response.JObj?
  }

  /** Round k, run on r.page, completed and computed r. */
  ghost predicate Ran(env: Collaborators, cfg: Settings, k: nat, deadline: int, r: Round) {
    Truthy(r.page) && RoundStep(env, cfg, k, r.page, deadline) == Completed(r)
  }

  /** Round j of `rounds` is what round number j computes from its page, and
      visits the start page or the URL its predecessor's response named. */
  ghost predicate Linked(env: Collaborators, cfg: Settings, deadline: int, start: Json,
                         rounds: seq<Round>, j: nat)
    requires j < |rounds|
  {
    && Ran(env, cfg, j, deadline, rounds[j])
    && rounds[j].page == (if j == 0 then start else Field(rounds[j - 1].response, "url"))
  }

  /** Every round of `rounds` is linked to the start page or to its predecessor. */
  ghost predicate Chain(env: Collaborators, cfg: Settings, deadline: int, start: Json, rounds: seq<Round>) {
    forall j: nat | j < |rounds| :: Linked(env, cfg, deadline, start, rounds, j)
  }

  /** One round on a truthy page: fetch, parse, solve, build the submission,
      look up the submit URL, submit, read the next URL. */
  function RoundStep(env: Collaborators, cfg: Settings, k: nat, page: Json, deadline: int): (o: RoundOutcome)
    requires Truthy(page)
    ensures o.Completed? ==> o.round.page == page && o.round.deadline == deadline && o.round.response.JObj?
  {
    match env.fetch(k, page)
    case Raised => Aborted(Fetch)
    case Returned(markup) =>
      match env.parse(k, markup, page)
      case Raised => Aborted(Parse)
      case Returned(task) =>
        match env.solve(k, task, deadline)
        case Raised => Aborted(Solve)
        case Returned(answer) =>
          var submission := Submission(cfg.email, cfg.secret, page, answer);
          match Index(task, "submit_url")
          case Raised => Aborted(SubmitUrl)
          case Returned(target) =>
            match env.submit(k, target, submission)
            case Raised => Aborted(Submit)
            case Returned(response) =>
              if GetKey(response, "url").Raised? then Aborted(NextUrl)
              else Completed(Round(page, markup, task, deadline, answer, target, submission, response))
  }

  /** The loop from guard reading `i` on, with `current` still to visit and
      `done` the rounds completed so far. */
  function Loop(env: Collaborators, cfg: Settings, clock: seq<int>, deadline: int,
                i: nat, current: Json, done: seq<Round>): (e: LoopEnd)
    requires i < |clock| && clock[|clock| - 1] >= deadline
    decreases |clock| - i
  {
    if !Truthy(current) then LoopEnd(done, i, ChainEnded)
    else if clock[i] >= deadline then LoopEnd(done, i + 1, DeadlineReached)
    else match RoundStep(env, cfg, |done|, current, deadline)
      case Aborted(step) => LoopEnd(done, i + 1, Crashed(RoundFailed(|done|, step)))
      case Completed(r) => Loop(env, cfg, clock, deadline, i + 1, Field(r.response, "url"), done + [r])
  }

  /** The body passes the gate: a dict with the configured secret and a truthy url. */
  predicate Accepted(body: Body, cfg: Settings) {
    body.Parsed? && body.payload.JObj?
    && Field(body.payload, "secret") == JStr(cfg.secret)
    && Truthy(Field(body.payload, "url"))
  }

  /** The loop controller from the deadline on: run the chain from `url` and
      answer with the last result, the timeout record, or the failure. */
  function Run(env: Collaborators, cfg: Settings, clock: seq<int>, url: Json): Handled
    requires ClockPasses(clock)
  {
    var e := Loop(env, cfg, clock, clock[0] + QuizTimeoutSeconds, 1, url, []);
    var response := if e.stop.Crashed? then Failed(e.stop.fault) else Reply(FinalBody(LastResult(e.rounds)));
    Handled(response, e.rounds, e.ticks)
  }

  /** The whole handler, as a function of its inputs. */
  function Handle(body: Body, cfg: Settings, env: Collaborators, clock: seq<int>): Handled
    requires ClockPasses(clock)
  {
    match body
    case Malformed => Handled(Rejected(400, "Invalid JSON"), [], 0)
    case Parsed(payload) =>
      match GetKey(payload, "secret")
      case Raised => Handled(Failed(GetOnNonObject), [], 0)
      case Returned(secret) =>
        if secret != JStr(cfg.secret) then Handled(Rejected(403, "Invalid Secret"), [], 0)
        else
          var url := Field(payload, "url");
          if !Truthy(url) then Handled(Rejected(400, "url missing"), [], 0)
          else Run(env, cfg, clock, url)
  }

  /** The handler: the three checks in order, then the loop. Besides the
      response it reports the rounds it completed and how many clock readings
      it took. */
  method Quiz(body: Body, cfg: Settings, env: Collaborators, clock: seq<int>)
    returns (response: Response, rounds: seq<Round>, ticks: nat)
    requires ClockPasses(clock)
    ensures Handled(response, rounds, ticks) == Handle(body, cfg, env, clock)
    ensures response.Rejected? ==> rounds == [] && ticks == 0
    ensures response.Rejected? <==> body.Malformed? || (body.payload.JObj? && !Accepted(body, cfg))
    ensures response == Rejected(400, "Invalid JSON") <==> body.Malformed?
    ensures response == Failed(GetOnNonObject) <==> body.Parsed? && !body.payload.JObj?
    ensures response == Rejected(403, "Invalid Secret") <==>
      body.Parsed? && body.payload.JObj? && Field(body.payload, "secret") != JStr(cfg.secret)
    ensures response == Rejected(400, "url missing") <==>
      body.Parsed? && body.payload.JObj? && Field(body.payload, "secret") == JStr(cfg.secret)
      && !Truthy(Field(body.payload, "url"))
  {
    if body.Malformed? {
      return Rejected(400, "Invalid JSON"), [], 0;
    }
    var secret := GetKey(body.payload, "secret");
    if secret.Raised? {
      return Failed(GetOnNonObject), [], 0;
    }
    if secret.value != JStr(cfg.secret) {
      return Rejected(403, "Invalid Secret"), [], 0;
    }
    var url := GetKey(body.payload, "url").value;
    if !Truthy(url) {
      return Rejected(400, "url missing"), [], 0;
    }
    response, rounds, ticks := RunChain(env, cfg, clock, url);
  }

  /** The loop controller: fix the deadline, then run rounds while `current`
      is truthy and the clock reads before the deadline, each round replacing
      `last` and `current`; answer with `last`, or the timeout record when
      `last` is falsy. */
  method RunChain(env: Collaborators, cfg: Settings, clock: seq<int>, url: Json)
    returns (response: Response, rounds: seq<Round>, ticks: nat)
    requires ClockPasses(clock)
    ensures Handled(response, rounds, ticks) == Run(env, cfg, clock, url)
    ensures response.Reply? || (response.Failed? && response.fault.RoundFailed?)
  {
    rounds := [];
    var deadline := clock[0] + QuizTimeoutSeconds;
    ticks := 1;
    var current := url;
    var last := JNull;
    while true
      invariant ticks < |clock|
      invariant last == LastResult(rounds)
      invariant Loop(env, cfg, clock, deadline, ticks, current, rounds)
             == Loop(env, cfg, clock, deadline, 1, url, [])
      decreases |clock| - ticks
    {
      if !Truthy(current) {
        break;
      }
      var now := clock[ticks];
      ticks := ticks + 1;
      if now >= deadline {
        break;
      }
      var k := |rounds|;
      var outcome := PlayRound(env, cfg, k, current, deadline);
      if outcome.Aborted? {
        return Failed(RoundFailed(k, outcome.step)), rounds, ticks;
      }
      last := outcome.round.response;
      rounds := rounds + [outcome.round];
      current := Field(last, "url");
    }
    response := Reply(FinalBody(last));
  }

  /** One pass of the loop body on page `current`: fetch, parse, solve, build
      the submission, look up the submit URL, submit, read the next URL. The
      first step that raises ends the round. */
  method PlayRound(env: Collaborators, cfg: Settings, k: nat, current: Json, deadline: int)
    returns (outcome: RoundOutcome)
    requires Truthy(current)
    ensures outcome == RoundStep(env, cfg, k, current, deadline)
  {
    var html := env.fetch(k, current);
    if html.Raised? {
      return Aborted(Fetch);
    }
    var task := env.parse(k, html.value, current);
    if task.Raised? {
      return Aborted(Parse);
    }
    var answer := env.solve(k, task.value, deadline);
    if answer.Raised? {
      return Aborted(Solve);
    }
    var submission := Submission(cfg.email, cfg.secret, current, answer.value);
    var target := Index(task.value, "submit_url");
    if target.Raised? {
      return Aborted(SubmitUrl);
    }
    var result := env.submit(k, target.value, submission);
    if result.Raised? {
      return Aborted(Submit);
    }
    var next := GetKey(result.value, "url");
    if next.Raised? {
      return Aborted(NextUrl);
    }
    outcome := Completed(Round(current, html.value, task.value, deadline, answer.value,
                               target.value, submission, result.value));
  }
}
