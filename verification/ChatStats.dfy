/** internal/server/handler.go, chatCompletions: one chat request from the first attempt to the answer, and what it adds
    to the statistics. */
module ChatStats {
  import opened Options
  import opened Json
  import opened Text
  import opened Rotation
  import opened Stats
  import opened StatsLaws
  import opened UsageLines
  import AccountPool
  import Folds
  import Int64
  import Lines
  import Sse
  import Stream
  import Tap

  datatype Request = Request(model: string, stream: bool)

  /** What the serving account sends: the pieces read, and whether reading fails after them. */
  datatype Body = Body(pieces: seq<string>, broken: bool)

  /** The error object of writeOpenAIError, by its status and code. */
  datatype Problem = Problem(status: int, code: string)

  const STREAM_PROBLEM := Problem(502, "upstream_stream")
  const PARSE_PROBLEM := Problem(502, "upstream_parse")
  const NO_ACCOUNT := Problem(503, "no_healthy_account")

  /** The answer: a forwarded stream, with an error object written after it if it broke off; one response; or an error,
      with the way the last attempt ended. */
  datatype Answer =
    | Forwarded(text: string, trailer: Option<Problem>)
    | Whole(response: Sse.Response)
    | Rejected(problem: Problem, last: Option<Outcome>)

  // ---- the answer ------------------------------------------------------------

  /** A count in the response's usage object: a number, towards zero, or 0. */
  function TokenCount(usage: Fields, key: string): int {
    match NumAt(usage, key) case None => 0 case Some(n) => Truncate(n)
  }

  /** extractUsageTokens. */
  function UsageOf(usage: Option<Fields>): Tap.Usage {
    match usage
    case None => Tap.Usage(0, 0)
    case Some(u) => Tap.Usage(TokenCount(u, "prompt_tokens"), TokenCount(u, "completion_tokens"))
  }

  /** The usage reported while a body is answered. */
  function UsageReports(req: Request, body: Body, parse: string -> Option<Fields>): seq<Tap.Usage> {
    if req.stream then Tap.FeedAll(body.pieces).1
    else if body.broken then []
    else [UsageOf(Sse.LastObject(Folds.Sub(Sse.ChunksOf(Concat(body.pieces), parse), "usage")))]
  }

  function TokenEvents(us: seq<Tap.Usage>, model: string, now: int): seq<Event>
  {
    if us == [] then []
    else TokenEvents(us[..|us| - 1], model, now)
         + [Tokens(model, us[|us| - 1].prompt, us[|us| - 1].completion, now)]
  }

  /** The callback of a streamed answer: every usage report is recorded as it is found. */
  method RecordReports(rec: Recorder, us: seq<Tap.Usage>, model: string, now: int)
    requires rec.Valid()
    modifies rec, rec.byModel.Values
    ensures rec.Valid() && fresh(rec.byModel.Values - old(rec.byModel.Values))
    ensures rec.View() == Run(old(rec.View()), TokenEvents(us, model, now))
  {
    hide After, Run, TokenEvents, Recorder.Valid, Recorder.View;
    ghost var before := rec.View();
    NoTokenEvents(before, model, now);
    for i := 0 to |us|
      invariant rec.Valid() && fresh(rec.byModel.Values - old(rec.byModel.Values))
      invariant rec.View() == Run(before, TokenEvents(us[..i], model, now))
    {
      assert us[..i + 1] == us[..i] + [us[i]];
      TokenEventsMore(us[..i], us[i], before, model, now);
      rec.RecordTokens(model, us[i].prompt, us[i].completion, now);
    }
    assert us[..|us|] == us;
  }

  lemma NoTokenEvents(s: State, model: string, now: int)
    ensures Run(s, TokenEvents([], model, now)) == s
  {
  }

  lemma TokenEventsMore(us: seq<Tap.Usage>, u: Tap.Usage, s: State, model: string, now: int)
    ensures Run(s, TokenEvents(us + [u], model, now))
         == After(Run(s, TokenEvents(us, model, now)), Tokens(model, u.prompt, u.completion, now))
  {
    hide After;
    assert (us + [u])[..|us|] == us;
    var es := TokenEvents(us, model, now);
    assert (es + [Tokens(model, u.prompt, u.completion, now)])[..|es|] == es;
  }

  /** What the client gets for a body. */
  ghost predicate IsAnswer(req: Request, body: Body, parse: string -> Option<Fields>, freshId: string, now: int,
                           client: Stream.Client, answer: Answer) {
    var data := Concat(body.pieces);
    if req.stream then
      var writes := Stream.Writes(data, body.broken);
      var complete := !body.broken && Stream.FirstRefused(client, |writes|) == |writes|;
      answer == Forwarded(Stream.Received(client, writes), if complete then None else Some(STREAM_PROBLEM))
    else if body.broken then answer == Rejected(PARSE_PROBLEM, None)
    else answer.Whole? && Sse.IsResponse(Sse.ChunksOf(data, parse), freshId, now, answer.response)
  }

  /** A body is forwarded through the tap or aggregated, and its usage is recorded. */
  method AnswerWith(rec: Recorder, req: Request, body: Body, parse: string -> Option<Fields>, freshId: string, now: int,
                    client: Stream.Client) returns (answer: Answer)
    requires rec.Valid()
    modifies rec, rec.byModel.Values
    ensures rec.Valid() && fresh(rec.byModel.Values - old(rec.byModel.Values))
    ensures IsAnswer(req, body, parse, freshId, now, client, answer)
    ensures rec.View() == Run(old(rec.View()), TokenEvents(UsageReports(req, body, parse), req.model, now))
  {
    hide Run, TokenEvents, Tap.FeedAll, Concat, Sse.ChunksOf, Sse.IsResponse, UsageOf;
    hide Stream.Writes, Stream.FirstRefused, Stream.Received, Stream.Wanted;
    if req.stream {
      var data, reports := Tapped(body.pieces);
      var text, ok := Stream.Forward(data, body.broken, client);
      RecordReports(rec, reports, req.model, now);
      return Forwarded(text, if ok then None else Some(STREAM_PROBLEM));
    }
    var data := Together(body.pieces);
    var r := Sse.Aggregate(data, body.broken, parse, freshId, now);
    if r.None? {
      RecordReports(rec, [], req.model, now);
      return Rejected(PARSE_PROBLEM, None);
    }
    UsageOfResponse(Sse.ChunksOf(data, parse), freshId, now, r.value);
    RecordReports(rec, [UsageOf(r.value.usage)], req.model, now);
    answer := Whole(r.value);
  }

  /** A client that accepts every write gets the whole stream with its terminator, and no error object unless the body
      broke off; any client gets a beginning of it. */
  lemma StreamedAnswer(req: Request, body: Body, parse: string -> Option<Fields>, freshId: string, now: int,
                       client: Stream.Client, answer: Answer)
    requires req.stream && IsAnswer(req, body, parse, freshId, now, client, answer)
    ensures answer.text <= Stream.Wanted(Concat(body.pieces), body.broken)
    ensures answer.trailer == None ==> !body.broken && answer.text == Stream.Streamed(Concat(body.pieces))
    ensures Stream.AcceptsAll(client) ==>
              && answer.text == Stream.Wanted(Concat(body.pieces), body.broken)
              && (answer.trailer == None <==> !body.broken)
  {
    hide Concat, Stream.Writes, Stream.FirstRefused, Stream.Received, Stream.Streamed;
    Stream.ReceivedWithin(client, Concat(body.pieces), body.broken);
  }

  /** The body as it passes through the tap, and the calls the tap makes. */
  method Tapped(pieces: seq<string>) returns (data: string, reports: seq<Tap.Usage>)
    ensures data == Concat(pieces) && reports == Tap.FeedAll(pieces).1
  {
    hide Tap.FeedAll, Concat;
    var tap := new Tap.TapReader(true);
    data := tap.ReadAll(pieces);
    reports := tap.calls;
  }

  lemma UsageOfResponse(chunks: seq<Fields>, freshId: string, now: int, r: Sse.Response)
    requires Sse.IsResponse(chunks, freshId, now, r)
    ensures r.usage == Sse.LastObject(Folds.Sub(chunks, "usage"))
  {
  }

  method Together(pieces: seq<string>) returns (data: string)
    ensures data == Concat(pieces)
  {
    data := "";
    for i := 0 to |pieces|
      invariant data == Concat(pieces[..i])
    {
      assert pieces[..i + 1][..i] == pieces[..i];
      data := data + pieces[i];
    }
    assert pieces[..|pieces|] == pieces;
  }

  // ---- the request --------------------------------------------------------------

  function ServedBody(rotated: Reply, bodies: string -> Body): Option<Body> {
    match rotated case Served(uid) => Some(bodies(uid)) case Unavailable(_) => None
  }

  /** Everything recorded from the first attempt to the answer, by the request and by everybody else. */
  function RequestEvents(env: Surroundings, req: Request, log: seq<Attempt>, served: Option<Body>,
                         parse: string -> Option<Fields>): seq<Event> {
    Recorded(env, log, req.model)
    + match served
      case None => []
      case Some(b) => env.recorded(|log|) + TokenEvents(UsageReports(req, b, parse), req.model, env.clock(2 * |log|))
  }

  /** The whole request, whatever the upstream answers and whatever happens around it. */
  method ChatCompletions(p: AccountPool.Pool, rec: Recorder, c: Config, req: Request, env: Surroundings,
                         upstream: (nat, AccountPool.Auth) -> Outcome, bodies: string -> Body,
                         parse: string -> Option<Fields>, freshId: string, client: Stream.Client)
    returns (answer: Answer, ghost rotated: Reply, ghost log: seq<Attempt>)
    requires p.Valid() && AccountPool.KeyedByUid(p.View().accounts) && rec.Valid()
    modifies p, p.byUID.Values, rec, rec.byModel.Values
    ensures p.Valid() && AccountPool.KeyedByUid(p.View().accounts) && rec.Valid()
    ensures Legal(c, log) && Connected(old(p.View().accounts), env, log) && Asked(upstream, log)
    ensures |log| <= if c.maxRotate < 0 then 0 else c.maxRotate
    ensures Answers(c, env, old(p.View().accounts), log, rotated, p.View().accounts)
    ensures match rotated
            case Unavailable(last) => answer == Rejected(NO_ACCOUNT, last)
            case Served(uid) => IsAnswer(req, bodies(uid), parse, freshId, env.clock(2 * |log|), client, answer)
    ensures rec.View() == Run(old(rec.View()), RequestEvents(env, req, log, ServedBody(rotated, bodies), parse))
  {
    hide *;
    var reply, made;
    ghost var before := rec.View();
    reply, made, log := Rotate(p, rec, c, req.model, env, upstream);
    rotated := reply;
    match reply {
      case Unavailable(last) =>
        NothingServed(env, req, log, parse, reply, bodies);
        answer := Rejected(NO_ACCOUNT, last);
      case Served(uid) =>
        answer := Serve(rec, req, bodies(uid), env.recorded(made), parse, freshId, env.clock(2 * made), client);
        ServedEvents(before, env, req, log, bodies(uid), parse, reply, bodies);
    }
  }

  lemma NothingServed(env: Surroundings, req: Request, log: seq<Attempt>, parse: string -> Option<Fields>,
                      rotated: Reply, bodies: string -> Body)
    requires rotated.Unavailable?
    ensures RequestEvents(env, req, log, ServedBody(rotated, bodies), parse) == Recorded(env, log, req.model)
  {
    hide Recorded;
  }

  /** What is recorded, by everybody else and then by the request, once an account serves. */
  function ServingEvents(others: seq<Event>, req: Request, body: Body, parse: string -> Option<Fields>, now: int)
    : seq<Event>
  {
    others + TokenEvents(UsageReports(req, body, parse), req.model, now)
  }

  method Serve(rec: Recorder, req: Request, body: Body, others: seq<Event>, parse: string -> Option<Fields>,
               freshId: string, now: int, client: Stream.Client) returns (answer: Answer)
    requires rec.Valid()
    modifies rec, rec.byModel.Values
    ensures rec.Valid() && fresh(rec.byModel.Values - old(rec.byModel.Values))
    ensures IsAnswer(req, body, parse, freshId, now, client, answer)
    ensures rec.View() == Run(old(rec.View()), ServingEvents(others, req, body, parse, now))
  {
    hide Run, TokenEvents, UsageReports, IsAnswer;
    RecordAll(rec, others);
    answer := AnswerWith(rec, req, body, parse, freshId, now, client);
    RunAppend(old(rec.View()), others, TokenEvents(UsageReports(req, body, parse), req.model, now));
  }

  lemma ServedEvents(before: State, env: Surroundings, req: Request, log: seq<Attempt>, body: Body,
                     parse: string -> Option<Fields>, rotated: Reply, bodies: string -> Body)
    requires rotated.Served? && body == bodies(rotated.uid)
    ensures Run(before, RequestEvents(env, req, log, ServedBody(rotated, bodies), parse))
         == Run(Run(before, Recorded(env, log, req.model)),
                ServingEvents(env.recorded(|log|), req, body, parse, env.clock(2 * |log|)))
  {
    hide Run, Recorded, TokenEvents, UsageReports;
    RunAppend(before, Recorded(env, log, req.model),
              ServingEvents(env.recorded(|log|), req, body, parse, env.clock(2 * |log|)));
  }

  // ---- what a request adds to the counters ---------------------------------------

  /** What a list of reports adds to each counter. */
  function TokenShare(us: seq<Tap.Usage>, c: Counter): int {
    match c
    case Total => |us|
    case Succeeded => |us|
    case Failed => 0
    case Prompt => PromptSum(us)
    case Completion => CompletionSum(us)
  }

  /** What a number of failures adds to each counter. */
  function FailureShare(n: nat, c: Counter): int {
    match c
    case Total => n
    case Failed => n
    case _ => 0
  }

  lemma AddedMore(es: seq<Event>, e: Event, model: string, c: Counter)
    ensures Added(es + [e], model, c) == Added(es, model, c) + if Name(e.model) == model then Adds(e, c) else 0
  {
    hide Adds, Name;
    assert (es + [e])[..|es|] == es;
  }

  lemma {:induction false} TokensAdd(us: seq<Tap.Usage>, model: string, now: int, c: Counter)
    requires Natural(us)
    ensures Added(TokenEvents(us, model, now), Name(model), c) == TokenShare(us, c)
  {
    if us != [] {
      hide Added, Name;
      var init, u := us[..|us| - 1], us[|us| - 1];
      assert us == init + [u];
      TokensAdd(init, model, now, c);
      SumsMore(init, u);
      AddedMore(TokenEvents(init, model, now), Tokens(model, u.prompt, u.completion, now), Name(model), c);
    }
  }

  lemma {:induction false} AddedAppend(es: seq<Event>, fs: seq<Event>, model: string, c: Counter)
    ensures Added(es + fs, model, c) == Added(es, model, c) + Added(fs, model, c)
  {
    if fs == [] {
      assert es + fs == es;
    } else {
      var n := |fs| - 1;
      AddedAppend(es, fs[..n], model, c);
      assert (es + fs)[..|es + fs| - 1] == es + fs[..n];
    }
  }

  /** The attempts that reached the upstream in vain. */
  ghost function FailedAttempts(log: seq<Attempt>): set<nat> {
    set i: nat | i < |log| && (log[i].outcome.TransportError? || log[i].outcome.Refused?)
  }

  lemma FailedAttemptsMore(log: seq<Attempt>, a: Attempt)
    ensures |FailedAttempts(log + [a])| == |FailedAttempts(log)| + if CountsAsFailure(a.outcome) then 1 else 0
  {
    var all, before := log + [a], FailedAttempts(log);
    assert forall i: nat :: i < |log| ==> all[i] == log[i];
    assert FailedAttempts(all) == if CountsAsFailure(a.outcome) then before + {|log|} else before;
  }

  lemma FailureAdds(o: Outcome, model: string, now: int, c: Counter)
    ensures Added(FailureOf(o, model, now), Name(model), c)
         == FailureShare(if CountsAsFailure(o) then 1 else 0, c)
  {
    assert [Failure(model, now)][..0] == [];
  }

  /** What everybody else adds before the n-th attempt is settled. */
  function Theirs(env: Surroundings, n: nat): seq<Event> {
    if n == 0 then [] else Theirs(env, n - 1) + env.recorded(n - 1)
  }

  /** The attempts add one failure for each that reached the upstream in vain, to whatever everybody else adds. */
  lemma {:induction false} AttemptsAdd(env: Surroundings, log: seq<Attempt>, model: string, c: Counter)
    ensures Added(Recorded(env, log, model), Name(model), c)
         == Added(Theirs(env, |log|), Name(model), c) + FailureShare(|FailedAttempts(log)|, c)
  {
    if log == [] {
      assert FailedAttempts(log) == {};
    } else {
      hide Added, FailureOf, Name, FailedAttempts, CountsAsFailure;
      var n := |log| - 1;
      var init, a := log[..n], log[n];
      assert init + [a] == log;
      AttemptsAdd(env, init, model, c);
      FailedAttemptsMore(init, a);
      FailureAdds(a.outcome, model, a.settledAt, c);
      var own := FailureOf(a.outcome, model, a.settledAt);
      AddedAppend(Recorded(env, init, model) + env.recorded(n), own, Name(model), c);
      AddedAppend(Recorded(env, init, model), env.recorded(n), Name(model), c);
      AddedAppend(Theirs(env, n), env.recorded(n), Name(model), c);
    }
  }

  /** One success for each usage line of a stream, or for a response that could be read. */
  function Successes(req: Request, served: Option<Body>): nat {
    match served
    case None => 0
    case Some(b) =>
      if req.stream then |Tap.Reports(Lines.Complete(Concat(b.pieces)))| else if b.broken then 0 else 1
  }

  /** Everything everybody else records from the first attempt to the answer. */
  function AllTheirs(env: Surroundings, log: seq<Attempt>, served: Option<Body>): seq<Event> {
    Theirs(env, if served.Some? then |log| + 1 else |log|)
  }

  /** The cuts of a streamed body do not change what the tap reports. */
  ghost predicate CutsHarmless(req: Request, served: Option<Body>) {
    req.stream && served.Some? ==> Tap.ClipsHarmless(Concat(served.value.pieces))
  }

  lemma StreamedReports(req: Request, body: Body, parse: string -> Option<Fields>)
    requires req.stream && CutsHarmless(req, Some(body))
    ensures UsageReports(req, body, parse) == Tap.Reports(Lines.Complete(Concat(body.pieces)))
  {
    hide Tap.Reports, Tap.FeedAll, Concat, Lines.Complete, Tap.ClipsHarmless;
    Tap.ChunkIndependenceExactly(Concat(body.pieces));
  }

  /** The reports of the answer, if there is one. */
  function ServedReports(req: Request, served: Option<Body>, parse: string -> Option<Fields>): seq<Tap.Usage> {
    match served case None => [] case Some(b) => UsageReports(req, b, parse)
  }

  lemma EventsAdd(env: Surroundings, req: Request, log: seq<Attempt>, served: Option<Body>,
                  parse: string -> Option<Fields>, c: Counter)
    requires c.Prompt? || c.Completion? ==> Natural(ServedReports(req, served, parse))
    ensures var es, theirs := RequestEvents(env, req, log, served, parse), AllTheirs(env, log, served);
            Added(es, Name(req.model), c) == Added(theirs, Name(req.model), c)
                                             + FailureShare(|FailedAttempts(log)|, c)
                                             + TokenShare(ServedReports(req, served, parse), c)
  {
    hide Added, FailedAttempts, Recorded, TokenEvents, UsageReports, Name, Natural, PromptSum, CompletionSum;
    AttemptsAdd(env, log, req.model, c);
    var own, model := Recorded(env, log, req.model), Name(req.model);
    match served {
      case None =>
        assert own + [] == own;
        NothingSummed();
      case Some(b) =>
        var us, now := UsageReports(req, b, parse), env.clock(2 * |log|);
        var tokens := TokenEvents(us, req.model, now);
        if c.Prompt? || c.Completion? {
          TokensAdd(us, req.model, now, c);
        } else {
          ReportsAdd(us, req.model, now, c);
        }
        AddedAppend(own, env.recorded(|log|) + tokens, model, c);
        AddedAppend(env.recorded(|log|), tokens, model, c);
        AddedAppend(Theirs(env, |log|), env.recorded(|log|), model, c);
    }
  }

  lemma NothingSummed()
    ensures PromptSum([]) == 0 && CompletionSum([]) == 0
  {
  }

  lemma {:induction false} ReportsAdd(us: seq<Tap.Usage>, model: string, now: int, c: Counter)
    requires !c.Prompt? && !c.Completion?
    ensures Added(TokenEvents(us, model, now), Name(model), c) == TokenShare(us, c)
  {
    if us != [] {
      hide Added, Name;
      var init, u := us[..|us| - 1], us[|us| - 1];
      ReportsAdd(init, model, now, c);
      AddedMore(TokenEvents(init, model, now), Tokens(model, u.prompt, u.completion, now), Name(model), c);
    }
  }

  lemma CounterMoves(s: State, env: Surroundings, req: Request, log: seq<Attempt>, served: Option<Body>,
                     parse: string -> Option<Fields>, c: Counter)
    requires Consistent(s)
    requires c.Prompt? || c.Completion? ==> Natural(ServedReports(req, served, parse))
    ensures var model := if req.model == "" then "unknown" else req.model;
            var theirs := AllTheirs(env, log, served);
            Read(c)(RowOf(Run(s, RequestEvents(env, req, log, served, parse)).rows, model))
            == Int64.Wrap(Read(c)(RowOf(s.rows, model)) + Added(theirs, model, c)
                          + FailureShare(|FailedAttempts(log)|, c) + TokenShare(ServedReports(req, served, parse), c))
  {
    hide Added, FailedAttempts, RequestEvents, Run, AllTheirs, RowOf, ServedReports, TokenShare, FailureShare, Read;
    RowOfFits(s, Name(req.model), c);
    EventsAdd(env, req, log, served, parse, c);
    RowsMove(s, RequestEvents(env, req, log, served, parse), Name(req.model), c);
  }

  /** From the state before the request to the state ChatCompletions leaves, the model's row counts, beside what
      everybody else adds, one failure per attempt that reached the upstream in vain, and one success if the response
      could be read, or one per usage line streamed. */
  lemma RequestCounts(s: State, env: Surroundings, req: Request, log: seq<Attempt>, served: Option<Body>,
                      parse: string -> Option<Fields>)
    requires CutsHarmless(req, served) && Consistent(s)
    ensures var model := if req.model == "" then "unknown" else req.model;
            var theirs := AllTheirs(env, log, served);
            var before := RowOf(s.rows, model);
            var after := RowOf(Run(s, RequestEvents(env, req, log, served, parse)).rows, model);
            var failures, successes := |FailedAttempts(log)|, Successes(req, served);
            && after.failed == Int64.Wrap(before.failed + Added(theirs, model, Failed) + failures)
            && after.success == Int64.Wrap(before.success + Added(theirs, model, Succeeded) + successes)
            && after.total == Int64.Wrap(before.total + Added(theirs, model, Total) + failures + successes)
  {
    hide Added, FailedAttempts, RequestEvents, Run, AllTheirs, RowOf, CutsHarmless, Int64.Wrap, ServedReports,
      Successes;
    ReportsCount(req, served, parse);
    CounterMoves(s, env, req, log, served, parse, Failed);
    CounterMoves(s, env, req, log, served, parse, Succeeded);
    CounterMoves(s, env, req, log, served, parse, Total);
  }

  lemma ReportsCount(req: Request, served: Option<Body>, parse: string -> Option<Fields>)
    requires CutsHarmless(req, served)
    ensures |ServedReports(req, served, parse)| == Successes(req, served)
  {
    hide Tap.Reports, Tap.FeedAll, Concat, Lines.Complete, CutsHarmless, UsageOf;
    if served.Some? && req.stream {
      StreamedReports(req, served.value, parse);
    }
  }

  // ---- which tokens a request adds --------------------------------------------------

  /** The last usage object among the chunks names these counts, or there is none and they are 0. */
  ghost predicate LastUsage(chunks: seq<Fields>, p: nat, q: nat) {
    || (exists i :: 0 <= i < |chunks| && NamesCounts(chunks[i], p, q) &&
                    forall j :: i < j < |chunks| ==> NoUsage(chunks[j]))
    || (p == q == 0 && forall j :: 0 <= j < |chunks| ==> NoUsage(chunks[j]))
  }

  predicate NamesCounts(chunk: Fields, p: nat, q: nat) {
    && "usage" in chunk && chunk["usage"].Obj?
    && NamesCount(chunk["usage"].fields, "prompt_tokens", p)
    && NamesCount(chunk["usage"].fields, "completion_tokens", q)
  }

  /** The number under a key; 0 when there is none. */
  predicate NamesCount(u: Fields, key: string, n: nat) {
    if key in u && u[key].Num? then u[key] == Num(n as real) else n == 0
  }

  predicate NoUsage(chunk: Fields) {
    "usage" in chunk ==> !chunk["usage"].Obj?
  }

  lemma WholeNumber(n: nat)
    ensures Truncate(n as real) == n
  {
  }

  lemma CountsAreRead(chunk: Fields, p: nat, q: nat)
    requires NamesCounts(chunk, p, q)
    ensures ObjAt(chunk, "usage").Some? && UsageOf(ObjAt(chunk, "usage")) == Tap.Usage(p, q)
  {
    WholeNumber(p);
    WholeNumber(q);
    hide Truncate;
  }

  lemma {:induction false} LastUsageIsRead(chunks: seq<Fields>, p: nat, q: nat)
    requires LastUsage(chunks, p, q)
    ensures UsageOf(Sse.LastObject(Folds.Sub(chunks, "usage"))) == Tap.Usage(p, q)
  {
    if chunks != [] {
      hide UsageOf, NamesCounts;
      var n := |chunks| - 1;
      if NoUsage(chunks[n]) {
        LastUsageBefore(chunks, p, q);
        LastUsageIsRead(chunks[..n], p, q);
        assert Folds.Sub(chunks, "usage") == Folds.Sub(chunks[..n], "usage");
      } else {
        UsageIsLast(chunks, p, q);
        CountsAreRead(chunks[n], p, q);
      }
    }
  }

  lemma LastUsageBefore(chunks: seq<Fields>, p: nat, q: nat)
    requires chunks != [] && LastUsage(chunks, p, q) && NoUsage(chunks[|chunks| - 1])
    ensures LastUsage(chunks[..|chunks| - 1], p, q)
  {
    var n := |chunks| - 1;
    if i :| 0 <= i < |chunks| && NamesCounts(chunks[i], p, q) && forall j :: i < j < |chunks| ==> NoUsage(chunks[j]) {
      assert i < n && chunks[..n][i] == chunks[i];
    }
  }

  lemma UsageIsLast(chunks: seq<Fields>, p: nat, q: nat)
    requires chunks != [] && LastUsage(chunks, p, q) && !NoUsage(chunks[|chunks| - 1])
    ensures NamesCounts(chunks[|chunks| - 1], p, q)
  {
    hide NamesCounts, NoUsage;
  }

  lemma OneReport(u: Tap.Usage)
    requires u.prompt >= 0 && u.completion >= 0
    ensures Natural([u]) && PromptSum([u]) == u.prompt && CompletionSum([u]) == u.completion
  {
    assert [u][1..] == [];
  }

  /** An aggregated answer adds just the counts its last usage object names to the model's row, beside what everybody
      else adds. */
  lemma AggregatedTokens(s: State, env: Surroundings, req: Request, log: seq<Attempt>, body: Body,
                         parse: string -> Option<Fields>, p: nat, q: nat)
    requires Consistent(s) && !req.stream && !body.broken
    requires LastUsage(Sse.ChunksOf(Concat(body.pieces), parse), p, q)
    ensures var model := if req.model == "" then "unknown" else req.model;
            var theirs := AllTheirs(env, log, Some(body));
            var before := RowOf(s.rows, model);
            var after := RowOf(Run(s, RequestEvents(env, req, log, Some(body), parse)).rows, model);
            && after.prompt == Int64.Wrap(before.prompt + Added(theirs, model, Prompt) + p)
            && after.completion == Int64.Wrap(before.completion + Added(theirs, model, Completion) + q)
  {
    hide Added, FailedAttempts, RequestEvents, Run, AllTheirs, RowOf, Int64.Wrap, UsageOf, LastUsage, PromptSum,
      CompletionSum, Natural;
    LastUsageIsRead(Sse.ChunksOf(Concat(body.pieces), parse), p, q);
    OneReport(Tap.Usage(p, q));
    CounterMoves(s, env, req, log, Some(body), parse, Prompt);
    CounterMoves(s, env, req, log, Some(body), parse, Completion);
  }

  /** A streamed answer adds just the counts its lines show, and counts one success for each line that shows any. */
  lemma StreamedTokens(s: State, env: Surroundings, req: Request, log: seq<Attempt>, body: Body,
                       parse: string -> Option<Fields>, shown: seq<Option<Counts>>)
    requires Consistent(s) && req.stream && CutsHarmless(req, Some(body))
    requires Show(Lines.Complete(Concat(body.pieces)), shown)
    ensures var model := if req.model == "" then "unknown" else req.model;
            var theirs := AllTheirs(env, log, Some(body));
            var before := RowOf(s.rows, model);
            var after := RowOf(Run(s, RequestEvents(env, req, log, Some(body), parse)).rows, model);
            var prompt, completion := PromptTotal(shown), CompletionTotal(shown);
            && after.success == Int64.Wrap(before.success + Added(theirs, model, Succeeded) + HowMany(shown))
            && after.prompt == Int64.Wrap(before.prompt + Added(theirs, model, Prompt) + prompt)
            && after.completion == Int64.Wrap(before.completion + Added(theirs, model, Completion) + completion)
  {
    hide Added, FailedAttempts, RequestEvents, Run, AllTheirs, RowOf, Int64.Wrap, CutsHarmless, Show, PromptSum,
      CompletionSum, Natural, UsageReports, HowMany, PromptTotal, CompletionTotal, Lines.Complete, Tap.Reports;
    StreamedReports(req, body, parse);
    ShownAreReported(Lines.Complete(Concat(body.pieces)), shown);
    CounterMoves(s, env, req, log, Some(body), parse, Succeeded);
    CounterMoves(s, env, req, log, Some(body), parse, Prompt);
    CounterMoves(s, env, req, log, Some(body), parse, Completion);
  }

  // ---- a served request that is not counted ------------------------------------------

  lemma KeyStartsWithQuote(line: string, i: int)
    ensures OccursAt(line, Tap.USAGE_KEY, i) ==> 0 <= i < |line| && line[i] == '\"'
  {
    if OccursAt(line, Tap.USAGE_KEY, i) {
      assert line[i..i + |Tap.USAGE_KEY|][0] == line[i];
    }
  }

  lemma NoQuoteNoUsage(line: string)
    requires line != "" && Visible(line[0]) && Visible(line[|line| - 1])
    requires forall i :: 0 <= i < |line| ==> line[i] != '\"'
    ensures Tap.ReportOf(line) == []
  {
    TrimIdentity(line);
    IndexIsFirst(line, Tap.USAGE_KEY);
    forall i
      ensures OccursAt(line, Tap.USAGE_KEY, i) ==> 0 <= i < |line| && line[i] == '\"'
    {
      KeyStartsWithQuote(line, i);
    }
  }

  /** A stream that ends properly but names no usage: the client gets all of it, and no success is counted. */
  lemma StreamWithoutUsage(model: string)
    ensures var body := Body([Stream.MARK + ['\n']], false);
            && Successes(Request(model, true), Some(body)) == 0
            && Stream.HasDone(Concat(body.pieces))
            && CutsHarmless(Request(model, true), Some(body))
  {
    var line := Stream.MARK;
    var data := line + ['\n'];
    assert [data][..0] == [] && Concat([data]) == "" + data == data;
    assert Free(line, '\n');
    Lines.CompleteOne(line, "");
    assert data + "" == data;
    NoQuoteNoUsage(line);
    Stream.MarkIsDone();
    assert Lines.Complete(data) == [line];
    hide Lines.Complete, Tap.ReportOf, Sse.IsDone, Tap.ClipsHarmless;
    assert [line][1..] == [];
    assert Tap.Reports([line]) == [];
    assert Stream.LinesOf(data)[0] == line;
    Tap.FittingIsHarmless(data);
  }
}
