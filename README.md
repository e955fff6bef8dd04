# Quiz request handler

This project models the `/quiz` handler of the LLM quiz server (`quiz()` in
`server.py`) and proves what it guarantees. The handler has two parts.

- **A validation gate.** The body must decode as JSON. Its `secret` must equal the
  configured student secret. Its `url` must be truthy. Each check has its own
  HTTP rejection, and the checks run in that order.
- **A chained-submission loop.** The deadline is fixed once, at the first clock
  reading plus 180 seconds. While the page still to visit (`current`) is truthy
  and the clock reads before the deadline, one round runs:
  1. the page is rendered, parsed into a task and solved;
  2. a submission made of the email, the secret, the page and the answer is
     posted to the task's `submit_url`;
  3. `last` becomes the submission response, and `current` becomes that
     response's `url` field.

  The handler returns `last`, or `{"correct": False, "reason": "Timeout"}` when
  `last` is falsy.

Modules:

- `JsonValues` (`json_values.dfy`) holds decoded JSON values and three Python
  operations on them: truthiness, `d.get(key)` and `d[key]`. The last two raise
  on values that are not dicts, and `d[key]` also raises on a missing key.
- `Server` (`server.dfy`) holds the handler itself.
  - `Quiz` is the gate. `RunChain` is the loop, with its invariants.
    `PlayRound` is one pass of the loop body.
  - Each is proved equal to a specification function of its inputs: `Handle`,
    `Run` and `RoundStep`, together with the recursive `Loop`.
- `ServerProperties` (`server_properties.dfy`) holds the lemmas about those
  functions.
  - `LoopExplained` characterises every way the loop can end. It says which
    rounds ran, which clock readings were taken, and why the loop stopped.
  - The per-round and whole-chain properties follow from it.

External effects are inputs of the model:

- **The four collaborators.** The renderer, parser, solver and submitter are
  opaque. Each is a total function of the round number and of its arguments, and
  each either returns a value or raises. Any raise aborts the request, because
  nothing in the handler catches it.
- **The wall clock.** It is the sequence of its readings. Reading 0 fixes the
  deadline. Each evaluation of the loop guard with a truthy `current` takes the
  next reading, because Python's `and` does not read the clock when `current` is
  falsy.
- **The clock assumption.** The handler requires that the last reading reaches
  the deadline (`ClockPasses`). This is what bounds the loop. The source has no
  other bound and no cycle detection.

Besides its response, `Quiz` reports the rounds it completed and how many clock
readings it took. This makes the properties about rounds and readings
statable.

## Model

| member | source | states |
|---|---|---|
| JsonValues.GetKey | server.py:47-50 | `.get` raises exactly on a value that is not a dict; otherwise it returns the key's value, or None when the key is absent |
| JsonValues.Index | server.py:70 | `task["submit_url"]` returns exactly when the task is a dict holding that key, and then returns the value stored under it; it raises otherwise |
| Server.FinalBody | server.py:74 | the returned body is always truthy; it is `last` itself exactly when `last` is truthy, and otherwise the Timeout record |
| Server.RoundStep | server.py:59-72 | a completed round visited the given page, handed the solver the given deadline, and got a dict as its submission response |
| Server.Quiz | server.py:41-52 | the handler equals `Handle`. Each rejection holds exactly when its own condition holds in gate order: 400 "Invalid JSON" for a malformed body; 403 for a wrong secret, whatever the url; 400 "url missing" for a right secret and a falsy url. A body that is not a dict raises at `.get`. A rejection takes no clock reading and runs no round, so the deadline is never computed and no collaborator is called |
| Server.RunChain | server.py:54-74 | the loop with its invariants equals `Run`: the loop from reading 1 with the deadline of reading 0, answering with `FinalBody` of the last response or with the failure; it never rejects, and a failure always names a round |
| Server.PlayRound | server.py:59-72 | one pass of the loop body equals `RoundStep`: the first of fetch, parse, solve, `submit_url` lookup, submit and `result.get` that raises ends the round |
| ServerProperties.LoopGrows | server.py:58-72 | the loop only appends rounds to those already done, never reads past the clock, and takes at least one guard reading per round |
| ServerProperties.RanIsRoundOk | server.py:59-72 | a round completes with record r exactly when every step returned what r holds: page truthy, markup, task, shared deadline, answer, submission of email, secret, page and answer, target from `submit_url`, a dict response |
| ServerProperties.LoopExplained | server.py:58-72 | from any reachable loop state, the loop ends with its rounds forming a chain, one reading before the deadline per round, and exactly one stop reason: falsy next page (no further reading), a reading at or past the deadline, or a raise in the next round, named with its step |
| ServerProperties.AcceptedExplained | server.py:54-74 | an accepted request's rounds, readings and response are those of a loop end satisfying that characterisation |
| ServerProperties.GuardPrecedesEveryRound | server.py:58 | every round j ran on a truthy page after guard reading j+1 found the clock strictly before the deadline; the handler never reads past its clock |
| ServerProperties.ReplyOnlyWhenGuardFails | server.py:58-74 | a reply comes only when the guard failed: the next page is falsy and no reading was taken for it, or it is truthy and the reading after the last round reached the deadline; a started round is never cut short |
| ServerProperties.SolverSharesOneDeadline | server.py:54-61 | every round hands the solver the same deadline, reading 0 plus 180 |
| ServerProperties.RoundSubmitsItsAnswer | server.py:59-70 | each round fetches its page, parses that markup, posts to the task's `submit_url` a submission with the configured email and secret, its own page and its own answer, and keeps the submitter's response unmerged |
| ServerProperties.ChainExtends | server.py:71-72 | a round run on the page the chain leads to extends the chain |
| ServerProperties.ChainLinks | server.py:55-72 | in a chain the first round visits the start page and each later round the `url` field of the previous response |
| ServerProperties.ChainContinuesOnTruthyUrl | server.py:58-72 | a round follows another only when the earlier response named a truthy `url` |
| ServerProperties.ChainFollowsResponses | server.py:55-72 | the first round visits the request's `url` and every later one the previous response's `url`, repeated URLs included |
| ServerProperties.ReplyIsLastResponse | server.py:71-74 | with no round run, the reply is the Timeout record; otherwise the last response is a dict and is returned unmodified when non-empty, with the Timeout record returned when it is empty |
| ServerProperties.FailureEndsRequest | server.py:59-72 | a failure aborts in the round after the last completed one, which started on a truthy page before the deadline; it names that round and the step at which `RoundStep` raised |
| ServerProperties.CooperativeRoundCompletes | server.py:59-72 | with collaborators that return and a dict response, a round completes with that response |
| ServerProperties.SubmitterAnswers | server.py:70-71 | round k's recorded response is what the submitter returned for round k |
| ServerProperties.ChainOfN | server.py:58-74 | for N ≥ 1 responses where only the last has no next `url` and all guard readings are before the deadline: exactly N rounds, N+1 readings, round k gets response k, and the reply is the Nth response, or the Timeout record if that is empty; URLs need not be distinct |
| ServerProperties.DeadlineEndsEndlessChain | server.py:58-74 | in a chain that never ends, a deadline first reached at reading m+1 gives exactly m rounds and m+2 readings, and the reply is response m, or the Timeout record when m = 0 |

## Left out

- FastAPI wiring is left out: the `app` object, the route decorators and the `root()` status endpoint (server.py:31-37). Rejections are the outcome `Rejected(status, detail)`. An uncaught exception is the outcome `Failed(fault)` rather than an HTTP 500 response.
- Settings loading is left out: the environment file and `OPENAI_API_KEY` (server.py:19-29). The email and secret are an input, `Settings`.
- Logging setup (server.py:15-16) is left out because it has no behaviour.
- `async`/`await` is left out. The collaborators are ordinary sequential calls.
- The internals of the renderer, parser, solver and submitter are left out (server.py:10-13). Each is an opaque function of the round number and its arguments. The solver's `settings` argument is the same every round, so it is absorbed into that function.
- JSON decoding of the request body (server.py:43) is reduced to its outcome: `Malformed`, or `Parsed` with a value.
- Floating-point `time.time()` is left out (server.py:54, 58). Clock readings are integers and the timeout is the integer 180 (server.py:32).
- A clock that never reaches the deadline is outside the model. Every operation requires `ClockPasses`, because an unbounded run cannot be stated without an unbounded loop.
- The submission dict is the record `Submission`, with the fields `email`, `secret`, `url` and `answer`.
- Python's numbers are modelled as reals. Integer and float JSON numbers are not distinguished, since only their truthiness matters here. NaN and ±Infinity, which Python's `json` decoder accepts and which are truthy, cannot be written as `JNum` values.
- Collaborator calls that never return are outside the model. Each renderer, parser, solver or submitter call either returns a value or raises, so every modelled request ends. In the source, how long a round takes is up to the collaborators (server.py:59-70), and a call that hangs keeps the request open past the deadline.
- `quiz()` is one function in the source. The model splits it into the gate `Quiz`, the loop `RunChain` and the loop body `PlayRound`. Their composition is the handler.
