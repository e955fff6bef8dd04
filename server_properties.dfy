/** What the `/quiz` handler guarantees once a request passes the gate: which
    rounds run, what each round sends, what the handler returns, and how the
    chain of submission responses and the deadline decide the number of rounds. */
module ServerProperties {
  import opened JsonValues
  import opened Server

  /** The deadline fixed by the first clock reading. */
  function Deadline(clock: seq<int>): int
    requires |clock| > 0
  {
    clock[0] + QuizTimeoutSeconds
  }

  /** The `url` field of an accepted request. */
  function StartUrl(body: Body): Json
    requires body.Parsed?
  {
    Field(body.payload, "url")
  }

  /** A declarative account of a loop run from `start`: the guard reading taken
      before round j is clock[j + 1] and lay before the deadline, the rounds
      form a chain, and the loop stopped for exactly one of three reasons. */
  ghost predicate Explains(env: Collaborators, cfg: Settings, clock: seq<int>, deadline: int,
                           start: Json, e: LoopEnd)
  {
    var m := |e.rounds|;
    var next := NextPage(start, e.rounds);
    && m < e.ticks <= |clock|
    && (forall j :: 1 <= j <= m ==> clock[j] < deadline)
    && Chain(env, cfg, deadline, start, e.rounds)
    && match e.stop
       case ChainEnded => e.ticks == m + 1 && !Truthy(next)
       case DeadlineReached => e.ticks == m + 2 && Truthy(next) && clock[m + 1] >= deadline
       case Crashed(f) =>
         e.ticks == m + 2 && Truthy(next) && clock[m + 1] < deadline
         && f.RoundFailed? && f.round == m && RoundStep(env, cfg, m, next, deadline) == Aborted(f.step)
  }

  /** The loop, run on from any state the handler can reach, ends as Explains says. */
  lemma {:induction false} LoopExplained(env: Collaborators, cfg: Settings, clock: seq<int>, deadline: int,
                                         i: nat, current: Json, done: seq<Round>, start: Json)
    requires i < |clock| && clock[|clock| - 1] >= deadline
    requires i == |done| + 1
    requires forall j :: 1 <= j <= |done| ==> clock[j] < deadline
    requires Chain(env, cfg, deadline, start, done)
    requires current == NextPage(start, done)
    ensures Explains(env, cfg, clock, deadline, start, Loop(env, cfg, clock, deadline, i, current, done))
    decreases |clock| - i
  {
    var e := Loop(env, cfg, clock, deadline, i, current, done);
    if !Truthy(current) {
      assert e == LoopEnd(done, i, ChainEnded);
    } else if clock[i] >= deadline {
      assert e == LoopEnd(done, i + 1, DeadlineReached);
    } else {
      var o := RoundStep(env, cfg, |done|, current, deadline);
      if o.Aborted? {
        assert e == LoopEnd(done, i + 1, Crashed(RoundFailed(|done|, o.step)));
      } else {
        ChainExtends(env, cfg, deadline, start, done, o.round);
        LoopExplained(env, cfg, clock, deadline, i + 1, Field(o.round.response, "url"), done + [o.round], start);
      }
    }
  }

  /** The loop only appends rounds, never reads past its clock, and takes at
      least one guard reading per round it runs. */
  lemma {:induction false} LoopGrows(env: Collaborators, cfg: Settings, clock: seq<int>, deadline: int,
                                     i: nat, current: Json, done: seq<Round>)
    requires i < |clock| && clock[|clock| - 1] >= deadline
    ensures var e := Loop(env, cfg, clock, deadline, i, current, done);
      done <= e.rounds && i <= e.ticks <= |clock| && |e.rounds| - |done| <= e.ticks - i
    decreases |clock| - i
  {
    if Truthy(current) && clock[i] < deadline {
      var o := RoundStep(env, cfg, |done|, current, deadline);
      if o.Completed? {
        LoopGrows(env, cfg, clock, deadline, i + 1, Field(o.round.response, "url"), done + [o.round]);
      }
    }
  }

  /** A round completes exactly when every step returned and its record holds
      what each step computed. */
  lemma RanIsRoundOk(env: Collaborators, cfg: Settings, k: nat, deadline: int, r: Round)
    ensures Ran(env, cfg, k, deadline, r) <==> RoundOk(env, cfg, k, deadline, r)
  {
  }

  /** A round run on the chain's next page extends the chain. */
  lemma ChainExtends(env: Collaborators, cfg: Settings, deadline: int, start: Json, done: seq<Round>, r: Round)
    requires Chain(env, cfg, deadline, start, done)
    requires Ran(env, cfg, |done|, deadline, r) && r.page == NextPage(start, done)
    ensures Chain(env, cfg, deadline, start, done + [r])
  {
    var rounds := done + [r];
    forall j: nat | j < |rounds| ensures Linked(env, cfg, deadline, start, rounds, j) {
      if j < |done| {
        assert Linked(env, cfg, deadline, start, done, j);
        assert rounds[j] == done[j];
        if j > 0 {
          assert rounds[j - 1] == done[j - 1];
        }
      } else if j > 0 {
        assert rounds[j - 1] == done[j - 1];
      }
    }
  }

  /** An accepted request runs the loop from its url with the deadline of clock[0]. */
  lemma AcceptedExplained(body: Body, cfg: Settings, env: Collaborators, clock: seq<int>)
    returns (e: LoopEnd)
    requires ClockPasses(clock) && Accepted(body, cfg)
    ensures Explains(env, cfg, clock, Deadline(clock), StartUrl(body), e)
    ensures Handle(body, cfg, env, clock).rounds == e.rounds
    ensures Handle(body, cfg, env, clock).ticks == e.ticks
    ensures Handle(body, cfg, env, clock).response ==
      if e.stop.Crashed? then Failed(e.stop.fault) else Reply(FinalBody(LastResult(e.rounds)))
  {
    e := Loop(env, cfg, clock, Deadline(clock), 1, StartUrl(body), []);
    LoopExplained(env, cfg, clock, Deadline(clock), 1, StartUrl(body), [], StartUrl(body));
  }

  /** Round j starts only after guard reading clock[j + 1] found a truthy page
      and a time before the deadline; the handler never reads past its clock. */
  lemma GuardPrecedesEveryRound(body: Body, cfg: Settings, env: Collaborators, clock: seq<int>)
    requires ClockPasses(clock) && Accepted(body, cfg)
    ensures var h := Handle(body, cfg, env, clock);
      |h.rounds| < h.ticks <= |clock|
      && forall j :: 0 <= j < |h.rounds| ==> clock[j + 1] < Deadline(clock) && Truthy(h.rounds[j].page)
  {
    var e := AcceptedExplained(body, cfg, env, clock);
    forall j | 0 <= j < |e.rounds| ensures clock[j + 1] < Deadline(clock) && Truthy(e.rounds[j].page) {
      assert Linked(env, cfg, Deadline(clock), StartUrl(body), e.rounds, j);
      RanIsRoundOk(env, cfg, j, Deadline(clock), e.rounds[j]);
    }
  }

  /** A reply means the guard failed: either the page to visit is falsy (no
      reading taken for it) or the reading after the last round reached the
      deadline. A round in progress is never cut short. */
  lemma ReplyOnlyWhenGuardFails(body: Body, cfg: Settings, env: Collaborators, clock: seq<int>)
    requires ClockPasses(clock) && Accepted(body, cfg)
    ensures var h := Handle(body, cfg, env, clock); var m := |h.rounds|;
      h.response.Reply? ==>
        (h.ticks == m + 1 && !Truthy(NextPage(StartUrl(body), h.rounds)))
        || (h.ticks == m + 2 && m + 1 < |clock| && Truthy(NextPage(StartUrl(body), h.rounds))
            && clock[m + 1] >= Deadline(clock))
  {
    var e := AcceptedExplained(body, cfg, env, clock);
  }

  /** Every round hands the solver the one deadline computed before the loop. */
  lemma SolverSharesOneDeadline(body: Body, cfg: Settings, env: Collaborators, clock: seq<int>)
    requires ClockPasses(clock) && Accepted(body, cfg)
    ensures var h := Handle(body, cfg, env, clock);
      forall j :: 0 <= j < |h.rounds| ==>
        h.rounds[j].deadline == clock[0] + QuizTimeoutSeconds
        && env.solve(j, h.rounds[j].task, clock[0] + QuizTimeoutSeconds) == Returned(h.rounds[j].answer)
  {
    var e := AcceptedExplained(body, cfg, env, clock);
    forall j | 0 <= j < |e.rounds|
      ensures e.rounds[j].deadline == Deadline(clock)
      ensures env.solve(j, e.rounds[j].task, Deadline(clock)) == Returned(e.rounds[j].answer)
    {
      assert Linked(env, cfg, Deadline(clock), StartUrl(body), e.rounds, j);
      RanIsRoundOk(env, cfg, j, Deadline(clock), e.rounds[j]);
    }
  }

  /** Round j posts, to its task's submit_url, the configured email and secret,
      its page and its own answer, and its response is what the submitter
      returned, unmerged. */
  lemma RoundSubmitsItsAnswer(body: Body, cfg: Settings, env: Collaborators, clock: seq<int>)
    requires ClockPasses(clock) && Accepted(body, cfg)
    ensures var h := Handle(body, cfg, env, clock);
      forall j :: 0 <= j < |h.rounds| ==>
        var r := h.rounds[j];
        env.fetch(j, r.page) == Returned(r.markup)
        && env.parse(j, r.markup, r.page) == Returned(r.task)
        && Index(r.task, "submit_url") == Returned(r.target)
        && r.submission.email == cfg.email && r.submission.secret == cfg.secret
        && r.submission.url == r.page && r.submission.answer == r.answer
        && env.submit(j, r.target, r.submission) == Returned(r.response)
  {
    var e := AcceptedExplained(body, cfg, env, clock);
    forall j | 0 <= j < |e.rounds|
      ensures env.fetch(j, e.rounds[j].page) == Returned(e.rounds[j].markup)
      ensures env.parse(j, e.rounds[j].markup, e.rounds[j].page) == Returned(e.rounds[j].task)
      ensures Index(e.rounds[j].task, "submit_url") == Returned(e.rounds[j].target)
      ensures e.rounds[j].submission == Submission(cfg.email, cfg.secret, e.rounds[j].page, e.rounds[j].answer)
      ensures env.submit(j, e.rounds[j].target, e.rounds[j].submission) == Returned(e.rounds[j].response)
    {
      assert Linked(env, cfg, Deadline(clock), StartUrl(body), e.rounds, j);
      RanIsRoundOk(env, cfg, j, Deadline(clock), e.rounds[j]);
    }
  }

  /** The links of a chain, one round to the next. */
  lemma ChainLinks(env: Collaborators, cfg: Settings, deadline: int, start: Json, rounds: seq<Round>)
    requires Chain(env, cfg, deadline, start, rounds)
    ensures rounds != [] ==> rounds[0].page == start
    ensures forall j :: 0 < j < |rounds| ==> rounds[j].page == Field(rounds[j - 1].response, "url")
  {
    if rounds != [] {
      assert Linked(env, cfg, deadline, start, rounds, 0);
    }
    forall j | 0 < j < |rounds| ensures rounds[j].page == Field(rounds[j - 1].response, "url") {
      assert Linked(env, cfg, deadline, start, rounds, j);
    }
  }

  /** A round follows another only when the earlier response named a truthy url. */
  lemma ChainContinuesOnTruthyUrl(env: Collaborators, cfg: Settings, deadline: int, start: Json,
                                  rounds: seq<Round>, j: nat)
    requires Chain(env, cfg, deadline, start, rounds)
    requires 0 < j < |rounds|
    ensures Truthy(Field(rounds[j - 1].response, "url"))
  {
    assert Linked(env, cfg, deadline, start, rounds, j);
  }

  /** The first round visits the request's url and every later one the `url`
      field of the previous response; a repeated URL is visited again. */
  lemma ChainFollowsResponses(body: Body, cfg: Settings, env: Collaborators, clock: seq<int>)
    requires ClockPasses(clock) && Accepted(body, cfg)
    ensures var h := Handle(body, cfg, env, clock);
      (h.rounds != [] ==> h.rounds[0].page == Field(body.payload, "url"))
      && forall j :: 0 < j < |h.rounds| ==> h.rounds[j].page == Field(h.rounds[j - 1].response, "url")
  {
    var e := AcceptedExplained(body, cfg, env, clock);
    ChainLinks(env, cfg, Deadline(clock), StartUrl(body), e.rounds);
  }

  /** A reply is the last round's response, unmodified, when it is a non-empty
      dict; with no round run, or an empty last response, it is the timeout record. */
  lemma ReplyIsLastResponse(body: Body, cfg: Settings, env: Collaborators, clock: seq<int>)
    requires ClockPasses(clock) && Accepted(body, cfg)
    ensures var h := Handle(body, cfg, env, clock);
      h.response.Reply? ==>
        (h.rounds == [] ==> h.response.body == TimeoutRecord)
        && (h.rounds != [] ==>
              var last := h.rounds[|h.rounds| - 1].response;
              last.JObj?
              && (last.fields != map[] ==> h.response.body == last)
              && (last.fields == map[] ==> h.response.body == TimeoutRecord))
  {
    var e := AcceptedExplained(body, cfg, env, clock);
    if e.rounds != [] {
      assert Linked(env, cfg, Deadline(clock), StartUrl(body), e.rounds, |e.rounds| - 1);
      RanIsRoundOk(env, cfg, |e.rounds| - 1, Deadline(clock), e.rounds[|e.rounds| - 1]);
    }
  }

  /** A failure aborts the whole request in the round that raised it: no
      response, no later round, and it names that round and its failing step. */
  lemma FailureEndsRequest(body: Body, cfg: Settings, env: Collaborators, clock: seq<int>)
    requires ClockPasses(clock) && Accepted(body, cfg)
    ensures var h := Handle(body, cfg, env, clock); var m := |h.rounds|;
      h.response.Failed? ==>
        h.ticks == m + 2 && m + 1 < |clock| && clock[m + 1] < Deadline(clock)
        && Truthy(NextPage(StartUrl(body), h.rounds))
        && h.response.fault.RoundFailed? && h.response.fault.round == m
        && RoundStep(env, cfg, m, NextPage(StartUrl(body), h.rounds), Deadline(clock))
           == Aborted(h.response.fault.step)
  {
    var e := AcceptedExplained(body, cfg, env, clock);
  }

  /** For the first n rounds the renderer, parser and solver return a value on
      every input and every task names a submit_url. */
  ghost predicate Cooperative(env: Collaborators, n: nat) {
    && (forall k: nat, page: Json :: k < n ==> env.fetch(k, page).Returned?)
    && (forall k: nat, markup: string, page: Json :: k < n ==>
          env.parse(k, markup, page).Returned? && Index(env.parse(k, markup, page).value, "submit_url").Returned?)
    && (forall k: nat, task: Json, deadline: int :: k < n ==> env.solve(k, task, deadline).Returned?)
  }

  /** The submitter answers round k with responses[k], whatever is posted. */
  ghost predicate AnswersWith(env: Collaborators, responses: seq<Json>) {
    forall k: nat, target: Json, submission: Submission :: k < |responses| ==>
      env.submit(k, target, submission) == Returned(responses[k])
  }

  /** With cooperative collaborators, a round whose response is a dict completes. */
  lemma CooperativeRoundCompletes(env: Collaborators, cfg: Settings, responses: seq<Json>,
                                  k: nat, page: Json, deadline: int)
    requires Cooperative(env, |responses|) && AnswersWith(env, responses)
    requires k < |responses| && responses[k].JObj? && Truthy(page)
    ensures RoundStep(env, cfg, k, page, deadline).Completed?
    ensures RoundStep(env, cfg, k, page, deadline).round.response == responses[k]
  {
    var markup := env.fetch(k, page).value;
    var task := env.parse(k, markup, page).value;
    assert Index(task, "submit_url").Returned?;
    var answer := env.solve(k, task, deadline).value;
    assert env.submit(k, Index(task, "submit_url").value, Submission(cfg.email, cfg.secret, page, answer)) == Returned(responses[k]);
  }

  /** Round k of a chain got responses[k] from a submitter that answers with them. */
  lemma SubmitterAnswers(env: Collaborators, cfg: Settings, deadline: int, start: Json,
                         rounds: seq<Round>, responses: seq<Json>)
    requires Chain(env, cfg, deadline, start, rounds) && AnswersWith(env, responses)
    ensures forall k :: 0 <= k < |rounds| && k < |responses| ==> rounds[k].response == responses[k]
  {
    forall k | 0 <= k < |rounds| && k < |responses| ensures rounds[k].response == responses[k] {
      assert Linked(env, cfg, deadline, start, rounds, k);
      RanIsRoundOk(env, cfg, k, deadline, rounds[k]);
    }
  }

  /** A chain of N responses in which only the last names no next URL, every
      guard reading before the deadline: exactly N rounds run, round k gets
      response k, and the handler returns the Nth response (the timeout record
      if it is an empty dict). Nothing requires the URLs to be distinct. */
  lemma {:induction false} ChainOfN(body: Body, cfg: Settings, env: Collaborators, clock: seq<int>,
                                    responses: seq<Json>)
    requires ClockPasses(clock) && Accepted(body, cfg)
    requires |responses| >= 1
    requires Cooperative(env, |responses|) && AnswersWith(env, responses)
    requires forall k :: 0 <= k < |responses| ==> responses[k].JObj?
    requires forall k :: 0 <= k < |responses| - 1 ==> Truthy(Field(responses[k], "url"))
    requires !Truthy(Field(responses[|responses| - 1], "url"))
    requires |responses| < |clock|
    requires forall j :: 1 <= j <= |responses| ==> clock[j] < Deadline(clock)
    ensures var h := Handle(body, cfg, env, clock); var n := |responses|;
      |h.rounds| == n && h.ticks == n + 1
      && (forall k :: 0 <= k < n ==> h.rounds[k].response == responses[k])
      && h.response == Reply(if responses[n - 1].fields != map[] then responses[n - 1] else TimeoutRecord)
  {
    var n := |responses|;
    var start := StartUrl(body);
    var d := Deadline(clock);
    var e := AcceptedExplained(body, cfg, env, clock);
    var m := |e.rounds|;
    SubmitterAnswers(env, cfg, d, start, e.rounds, responses);
    ChainLinks(env, cfg, d, start, e.rounds);
    if m > n {
      ChainContinuesOnTruthyUrl(env, cfg, d, start, e.rounds, n);
      assert false;
    }
    if m < n {
      assert Truthy(NextPage(start, e.rounds));
      if e.stop.Crashed? {
        CooperativeRoundCompletes(env, cfg, responses, m, NextPage(start, e.rounds), d);
      }
      assert false;
    }
  }

  /** A chain that never ends, every response naming a next URL (possibly one
      already visited), is cut by the deadline alone: when the first m guard
      readings lie before it and reading m + 1 does not, exactly m rounds run and
      the reply is the m-th response unmodified, or the timeout record when m = 0. */
  lemma {:induction false} DeadlineEndsEndlessChain(body: Body, cfg: Settings, env: Collaborators,
                                                    clock: seq<int>, responses: seq<Json>, m: nat)
    requires ClockPasses(clock) && Accepted(body, cfg)
    requires Cooperative(env, |responses|) && AnswersWith(env, responses)
    requires forall k :: 0 <= k < |responses| ==> responses[k].JObj? && Truthy(Field(responses[k], "url"))
    requires m <= |responses| && m + 1 < |clock|
    requires forall j :: 1 <= j <= m ==> clock[j] < Deadline(clock)
    requires clock[m + 1] >= Deadline(clock)
    ensures var h := Handle(body, cfg, env, clock);
      |h.rounds| == m && h.ticks == m + 2
      && (forall k :: 0 <= k < m ==> h.rounds[k].response == responses[k])
      && h.response == Reply(if m == 0 then TimeoutRecord else responses[m - 1])
  {
    var start := StartUrl(body);
    var e := AcceptedExplained(body, cfg, env, clock);
    var c := |e.rounds|;
    SubmitterAnswers(env, cfg, Deadline(clock), start, e.rounds, responses);
    if c > m {
      assert false;
    }
    if c > 0 {
      assert e.rounds[c - 1].response == responses[c - 1];
    }
    assert Truthy(NextPage(start, e.rounds));
    if c < m {
      if e.stop.Crashed? {
        CooperativeRoundCompletes(env, cfg, responses, c, NextPage(start, e.rounds), Deadline(clock));
      }
      assert false;
    }
    if e.stop.Crashed? {
      assert false;
    }
  }
}
