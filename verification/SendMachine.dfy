/** One outbound request with its retries and redirects: a machine that the answers to
    its own attempts and the steps it schedules drive to one report. */
module SendMachine {
  import opened Basics

  datatype Method = Get | Head | Post | Put | Delete | Options | Patch

  datatype Err = Ok | BadResponse | NetworkFailure | BadServerAddress | Timeout | Handshake

  datatype Failure = Plain | Cancelled | LocalFile

  /** An address as parsed: whether it can be used, and the target it names. */
  datatype Url = Url(text: string, ok: bool, key: string)

  datatype Conf = Conf(verb: Method, url: Url, json: Option<string>, raw: string, rawProvided: bool, prelude: bool,
                       follow: bool, idempotent: bool, maxRedirects: int, retryCount: int, retryMax: int,
                       maxTotalAttempts: int)

  datatype Result = Result(err: Err, status: int, failure: Failure, retries: nat, redirected: bool, finalUrl: string)

  datatype Why = First | Retry | Redirect

  /** A request as it goes out; `sensitive` says whether the credentials went with it. */
  datatype Request = Request(why: Why, verb: Method, key: string, sensitive: bool, body: Option<string>)

  /** `waiting` counts the scheduled attempts, `armed` says of each request sent whether
      its answer was taken; `body`, `requests` and `heard` are history. */
  datatype State = State(
    conf: Conf, started: bool, preparing: bool, waiting: nat, armed: seq<bool>, cancelled: bool, finished: bool,
    verb: Method, url: Url, json: Option<string>, raw: string, rawProvided: bool, retryBudget: int, totalBudget: int,
    attempts: nat, retries: nat, redirects: nat, redirected: bool, strip: bool, lastKey: string,
    lastErr: Err, lastStatus: int, done: seq<Result>, why: Why, body: Option<string>, requests: seq<Request>,
    heard: seq<Reply>)

  function Fresh(conf: Conf): State {
    State(conf, false, false, 0, [], false, false, conf.verb, conf.url, conf.json, conf.raw, conf.rawProvided, 0, 0,
          0, 0, 0, false, false, "", Ok, 0, [], First, None, [], [])
  }

  /** What comes back from an attempt; `loop` is whether a loop is there to schedule on. */
  datatype Reply =
    | Nothing(err: Err, loop: bool)
    | Response(status: int, tooLarge: bool, location: Option<Url>, loop: bool)

  /** Where the handling of a reply throws, if it does. */
  datatype Fault = Smooth | ThrowsFirst | ThrowsLast

  datatype Prelude = Built(raw: string) | Failed

  datatype Event =
    | Begin(where: bool)
    | Prepare(outcome: Prelude, ready: bool, client: bool)
    | Attempt(ready: bool, client: bool)
    | Respond(attempt: nat, reply: Reply, fault: Fault)
    | Cancel

  predicate Idempotent(m: Method) { m.Get? || m.Head? || m.Put? || m.Options? || m.Delete? }

  /** The body that goes with a verb. */
  function SentBody(m: Method, json: Option<string>, raw: string, rawProvided: bool): Option<string> {
    if m.Get? || m.Head? then None else if rawProvided then Some(raw) else json
  }

  /** Reports are only added, and none after the first. */
  predicate ReportsOn(s: State, r: State) {
    if s.finished then r.finished && r.done == s.done else s.done <= r.done
  }

  /** What the handling of an answer leaves alone. */
  predicate SamePlace(s: State, r: State) {
    && r.requests == s.requests && ReportsOn(s, r)
    && r.started == s.started && r.armed == s.armed && r.preparing == s.preparing
    && r.attempts == s.attempts && r.totalBudget == s.totalBudget
  }

  function Finish(s: State, err: Err, status: int, failure: Failure): (r: State)
    ensures SamePlace(s, r) && r.finished
  {
    if s.finished then s
    else s.(finished := true,
            done := s.done + [Result(err, status, failure, s.retries, s.redirected, s.url.text)])
  }

  function FinishErr(s: State, err: Err): (r: State)
    ensures SamePlace(s, r) && r.finished
  {
    Finish(s, err, 0, Plain)
  }

  function FinishCancelled(s: State): (r: State)
    ensures SamePlace(s, r) && r.finished
  {
    Finish(s, NetworkFailure, 0, Cancelled)
  }

  /** A negative count leaves the number of retries to the defaults. */
  function RetryBudget(c: Conf): int { if c.retryCount >= 0 then c.retryCount else c.retryMax }

  function TotalBudget(c: Conf): int { if c.maxTotalAttempts > 0 then c.maxTotalAttempts else 8 }

  function Budgeted(s: State): State {
    s.(started := true,
       retryBudget := RetryBudget(s.conf), totalBudget := TotalBudget(s.conf),
       body := SentBody(s.verb, s.json, s.raw, s.rawProvided))
  }

  /** The first attempt is scheduled, after the preparation if there is one. */
  function Launch(s: State, somewhere: bool): State {
    var t := Budgeted(s);
    if !somewhere then FinishErr(t, NetworkFailure)
    else if s.conf.prelude then t.(preparing := true)
    else t.(waiting := 1)
  }

  /** At most one request goes out. */
  predicate OneMore(s: State, r: State) {
    s.requests <= r.requests && |r.requests| <= |s.requests| + 1 && s.armed <= r.armed && ReportsOn(s, r)
  }

  function SendIt(s: State): (r: State)
    ensures OneMore(s, r) && r.started == s.started && r.attempts == s.attempts
    ensures r.totalBudget == s.totalBudget && r.waiting == s.waiting
  {
    var request := Request(s.why, s.verb, s.url.key, !s.strip, SentBody(s.verb, s.json, s.raw, s.rawProvided));
    s.(requests := s.requests + [request], armed := s.armed + [false])
  }

  /** Why no attempt is made. */
  function NoAttempt(s: State, ready: bool): (r: State)
    ensures r.started == s.started && r.finished && r.requests == s.requests && ReportsOn(s, r) && r.armed == s.armed
  {
    if s.cancelled then FinishCancelled(s)
    else if !ready then FinishErr(s, NetworkFailure)
    else Finish(s, s.lastErr, s.lastStatus, Plain)
  }

  /** One attempt of the budget is used, on the target of the address. */
  function Aim(s: State): (r: State)
    ensures Spent(s, r)
  {
    s.(attempts := s.attempts + 1, lastKey := s.url.key)
  }

  predicate Spent(s: State, r: State) {
    && r.attempts == s.attempts + 1 && r.started == s.started && r.totalBudget == s.totalBudget
    && r.waiting == s.waiting && r.requests == s.requests && r.finished == s.finished && r.done == s.done
    && r.armed == s.armed
  }

  function NoAddress(s: State): (r: State)
    ensures r.started == s.started && r.finished && r.requests == s.requests && ReportsOn(s, r) && r.armed == s.armed
  {
    FinishErr(s.(attempts := s.attempts + 1), BadServerAddress)
  }

  function UseAttempt(s: State, client: bool): (r: State)
    ensures r.started == s.started && OneMore(s, r)
    ensures r.finished || (r.attempts == s.attempts + 1 && r.totalBudget == s.totalBudget && r.waiting == s.waiting)
  {
    if !s.url.ok then NoAddress(s)
    else
      var t := Aim(s);
      if client then SendIt(t) else FinishErr(t, NetworkFailure)
  }

  function NextAttempt(s: State, ready: bool, client: bool): (r: State)
    ensures r.started == s.started && OneMore(s, r) && (s.finished ==> r == s)
    ensures r.finished || (r.attempts == s.attempts + 1 <= s.totalBudget == r.totalBudget && r.waiting == s.waiting)
  {
    if s.finished then s
    else if s.cancelled || !ready || s.attempts >= s.totalBudget then NoAttempt(s, ready)
    else UseAttempt(s, client)
  }

  /** The body is ready. */
  function Build(s: State, raw: string): State {
    s.(preparing := false, raw := raw, body := SentBody(s.verb, s.json, raw, s.rawProvided))
  }

  function Prepared(s: State, outcome: Prelude, ready: bool, client: bool): State {
    match outcome
    case Failed => Finish(s.(preparing := false), NetworkFailure, 0, LocalFile)
    case Built(raw) => NextAttempt(Build(s, raw), ready, client)
  }

  function Record(s: State, reply: Reply): (r: State)
    ensures SamePlace(s, r) && r.waiting == s.waiting
  {
    var t := s.(heard := s.heard + [reply]);
    match reply
    case Nothing(err, _) => t.(lastErr := err, lastStatus := 0)
    case Response(status, tooLarge, _, _) => t.(lastErr := if tooLarge then BadResponse else Ok, lastStatus := status)
  }

  predicate Retriable(s: State) {
    && (s.lastErr.Timeout? || s.lastErr.NetworkFailure?
        || (s.lastErr.Ok? && (500 <= s.lastStatus <= 599 || s.lastStatus == 429)))
    && (Idempotent(s.verb) || s.conf.idempotent)
    && s.retries < s.retryBudget
  }

  /** Where a redirect leads, when it is to be followed. */
  function Redirection(s: State, reply: Reply): Option<Url> {
    if s.lastErr.Ok? && 300 < s.lastStatus <= 399 && s.conf.follow && s.redirects < s.conf.maxRedirects
       && reply.Response?
    then reply.location else None
  }

  predicate BecomesGet(status: int, m: Method) {
    status == 303 || ((status == 301 || status == 302) && !m.Get? && !m.Head?)
  }

  /** The request becomes one without a body. */
  function ToGet(s: State): (r: State)
    ensures SamePlace(s, r) && r.waiting == s.waiting
  {
    s.(verb := Get, json := None, raw := "", rawProvided := false)
  }

  function Follow(s: State, next: Url): (r: State)
    ensures SamePlace(s, r) && r.waiting == s.waiting
  {
    s.(strip := s.strip || (next.ok && next.key != s.lastKey), redirects := s.redirects + 1, redirected := true,
       url := next)
  }

  /** The machine turns to the next address. */
  function Turn(s: State, next: Url): (r: State)
    ensures SamePlace(s, r) && r.waiting == s.waiting
  {
    if BecomesGet(s.lastStatus, s.verb) then ToGet(Follow(s, next)) else Follow(s, next)
  }

  function Schedule(s: State, why: Why, loop: bool): (r: State)
    ensures SamePlace(s, r) && (r.finished || r.waiting == s.waiting + 1)
  {
    if !loop then FinishErr(s, NetworkFailure) else s.(waiting := s.waiting + 1, why := why)
  }

  function Again(s: State, loop: bool): (r: State)
    ensures SamePlace(s, r) && (r.finished || r.waiting == s.waiting + 1)
  {
    Schedule(s.(retries := s.retries + 1), Retry, loop)
  }

  function Elsewhere(s: State, next: Url, loop: bool): (r: State)
    ensures SamePlace(s, r) && (r.finished || r.waiting == s.waiting + 1)
  {
    Schedule(Turn(s, next), Redirect, loop)
  }

  /** Again, elsewhere, or enough. */
  function Decide(s: State, reply: Reply): (r: State)
    ensures SamePlace(s, r) && (r.finished || r.waiting == s.waiting + 1)
  {
    if Retriable(s) then Again(s, reply.loop)
    else
      var next := Redirection(s, reply);
      if next.Some? then Elsewhere(s, next.value, reply.loop)
      else Finish(s, s.lastErr, s.lastStatus, Plain)
  }

  function OnResponse(s: State, reply: Reply): (r: State)
    ensures SamePlace(s, r) && (r.finished || r.waiting == s.waiting + 1)
  {
    var t := Record(s, reply);
    if t.cancelled then FinishCancelled(t) else Decide(t, reply)
  }

  /** What becomes of an answer that is taken. */
  function Handle(s: State, reply: Reply, fault: Fault): State {
    match fault
    case Smooth => OnResponse(s, reply)
    case ThrowsFirst => FinishErr(s, NetworkFailure)
    case ThrowsLast => FinishErr(OnResponse(s, reply), NetworkFailure)
  }

  function Answered(s: State, attempt: nat, reply: Reply, fault: Fault): State {
    if attempt >= |s.armed| || s.armed[attempt] then s
    else Handle(s.(armed := s.armed[attempt := true]), reply, fault)
  }

  function Step(s: State, e: Event): State {
    match e
    case Begin(somewhere) => if s.started then s else Launch(s, somewhere)
    case Prepare(outcome, ready, client) => if s.preparing then Prepared(s, outcome, ready, client) else s
    case Attempt(ready, client) => if s.waiting > 0 then NextAttempt(s.(waiting := s.waiting - 1), ready, client) else s
    case Respond(attempt, reply, fault) => Answered(s, attempt, reply, fault)
    case Cancel => s.(cancelled := true)
  }

  function Run(s: State, es: seq<Event>): State
    decreases |es|
  {
    if es == [] then s else Run(Step(s, es[0]), es[1..])
  }

  // ----- What every run keeps

  /** An answer is still to come. */
  predicate Open(s: State) { s.armed != [] && !s.armed[|s.armed| - 1] }

  function Tokens(s: State): nat {
    s.waiting + (if Open(s) then 1 else 0) + (if s.preparing then 1 else 0)
  }

  /** One thing is outstanding until the report, which is made once. */
  predicate TokenInv(s: State) {
    && (s.started && !s.finished ==> Tokens(s) == 1) && Tokens(s) <= 1 && (!s.started ==> Tokens(s) == 0)
    && (forall i :: 0 <= i < |s.armed| - 1 ==> s.armed[i]) && (s.finished ==> !Open(s) && !s.preparing)
    && |s.done| == (if s.finished then 1 else 0) && (s.finished ==> s.started)
    && (s.preparing ==> s.requests == [] && s.attempts == 0)
  }

  predicate BudgetInv(s: State) {
    && (s.started ==> s.totalBudget > 0)
    && |s.requests| == |s.armed| && |s.requests| <= s.attempts
    && (s.attempts <= s.totalBudget || !s.started) && (!s.started ==> s.attempts == 0 && s.retries == 0)
    && (s.retries == 0 || s.retries <= s.retryBudget)
    && (s.redirects == 0 || s.redirects <= s.conf.maxRedirects)
  }

  predicate SameKeys(rs: seq<Request>) {
    forall i :: 0 <= i < |rs| ==> rs[i].key == rs[0].key
  }

  /** The credentials go with the requests up to the first that names another target. */
  predicate SensitiveRight(rs: seq<Request>) {
    forall i :: 0 <= i < |rs| ==> (rs[i].sensitive <==> SameKeys(rs[..i + 1]))
  }

  predicate KeyInv(s: State) {
    && SensitiveRight(s.requests)
    && (s.requests != [] && !s.finished ==> s.lastKey == s.requests[|s.requests| - 1].key)
    && (s.requests == [] ==> !s.strip)
    && (!s.finished && s.requests != [] ==>
          if s.strip then !SameKeys(s.requests) || (s.waiting > 0 && s.url.ok && s.url.key != s.lastKey)
          else SameKeys(s.requests) && (s.url.ok ==> s.url.key == s.lastKey))
  }

  /** The request is the caller's, or has become a GET for good. */
  predicate BodyInv(s: State) {
    && (forall i :: 0 <= i < |s.requests| ==> Whole(s.requests[i], s.conf.verb, s.body))
    && (forall i, j :: 0 <= i < j < |s.requests| && s.requests[i].verb.Get? ==> s.requests[j].verb.Get?)
    && (forall i :: 0 <= i < |s.requests| && s.requests[i].verb.Get? ==> s.verb.Get?)
    && (s.verb == s.conf.verb || s.verb.Get?)
    && (!s.verb.Get? && s.started ==> SentBody(s.verb, s.json, s.raw, s.rawProvided) == s.body)
  }

  predicate Whole(r: Request, verb: Method, body: Option<string>) {
    if r.verb.Get? then r.body.None? else r.verb == verb && r.body == body
  }

  /** A request is repeated only when that is harmless or was asked for. */
  predicate RepeatInv(s: State) {
    && (forall i :: 0 <= i < |s.requests| && s.requests[i].why.Retry? ==>
          Idempotent(s.requests[i].verb) || s.conf.idempotent)
    && (s.why.Retry? ==> Idempotent(s.verb) || s.conf.idempotent)
  }

  predicate Inv(s: State) { TokenInv(s) && BudgetInv(s) && KeyInv(s) && BodyInv(s) && RepeatInv(s) }

  lemma FreshInv(conf: Conf)
    ensures Inv(Fresh(conf))
  {
  }

  lemma LaunchInv(s: State, somewhere: bool)
    requires Inv(s) && !s.started
    ensures Inv(Launch(s, somewhere))
  {
  }

  /** What a scheduled attempt finds: nothing else is outstanding. */
  predicate AtAttempt(s: State) {
    && s.started && Tokens(s) == 0 && (s.finished || |s.done| == 0)
    && TokenInv(s.(waiting := 1)) && BudgetInv(s) && KeyInv(s.(waiting := 1)) && BodyInv(s) && RepeatInv(s)
  }

  lemma SendTokens(s: State)
    requires AtAttempt(s) && !s.finished && s.attempts < s.totalBudget
    ensures var u := SendIt(Aim(s));
            TokenInv(u) && BudgetInv(u) && RepeatInv(u)
  {
  }

  lemma SameKeysSnoc(rs: seq<Request>, r: Request)
    ensures SameKeys(rs + [r]) <==> SameKeys(rs) && (rs != [] ==> r.key == rs[0].key)
  {
    assert forall i :: 0 <= i < |rs| ==> (rs + [r])[i] == rs[i];
    assert (rs + [r])[|rs|] == r;
  }

  lemma SensitiveSnoc(rs: seq<Request>, r: Request)
    requires SensitiveRight(rs)
    ensures SensitiveRight(rs + [r]) <==> (r.sensitive <==> SameKeys(rs + [r]))
  {
    var all := rs + [r];
    assert all[..|rs| + 1] == all && all[|rs|] == r;
    forall i | 0 <= i < |rs| ensures all[i].sensitive <==> SameKeys(all[..i + 1]) {
      assert all[..i + 1] == rs[..i + 1];
    }
  }

  lemma SendKeys(s: State)
    requires AtAttempt(s) && !s.finished && s.url.ok
    ensures KeyInv(SendIt(Aim(s)))
  {
    var u := SendIt(Aim(s));
    var r := u.requests[|s.requests|];
    SameKeysSnoc(s.requests, r);
    SensitiveSnoc(s.requests, r);
  }

  lemma SendBodies(s: State)
    requires AtAttempt(s)
    ensures BodyInv(SendIt(Aim(s)))
  {
  }

  lemma FinishInv(s: State, err: Err, status: int, failure: Failure)
    requires AtAttempt(s)
    ensures Inv(Finish(s, err, status, failure))
  {
  }

  lemma LastFinishInv(s: State)
    requires AtAttempt(s) && !s.finished && s.attempts < s.totalBudget
    ensures Inv(FinishErr(s.(attempts := s.attempts + 1), BadServerAddress))
    ensures Inv(FinishErr(Aim(s), NetworkFailure))
  {
  }

  lemma NoAttemptInv(s: State, ready: bool)
    requires AtAttempt(s)
    ensures Inv(NoAttempt(s, ready))
  {
    if s.cancelled {
      FinishInv(s, NetworkFailure, 0, Cancelled);
    } else if !ready {
      FinishInv(s, NetworkFailure, 0, Plain);
    } else {
      FinishInv(s, s.lastErr, s.lastStatus, Plain);
    }
  }

  lemma SendInv(s: State)
    requires AtAttempt(s) && !s.finished && s.attempts < s.totalBudget && s.url.ok
    ensures Inv(SendIt(Aim(s)))
  {
    SendTokens(s);
    SendKeys(s);
    SendBodies(s);
  }

  lemma UseAttemptInv(s: State, client: bool)
    requires AtAttempt(s) && !s.finished && s.attempts < s.totalBudget
    ensures Inv(UseAttempt(s, client))
  {
    LastFinishInv(s);
    if s.url.ok {
      SendInv(s);
    }
  }

  lemma NextAttemptInv(s: State, ready: bool, client: bool)
    requires AtAttempt(s)
    ensures Inv(NextAttempt(s, ready, client))
  {
    if s.finished {
      FinishInv(s, NetworkFailure, 0, Plain);
    } else if s.cancelled || !ready || s.attempts >= s.totalBudget {
      NoAttemptInv(s, ready);
    } else {
      UseAttemptInv(s, client);
    }
  }

  lemma BeginInv(s: State, somewhere: bool)
    requires Inv(s)
    ensures Inv(Step(s, Begin(somewhere)))
  {
    if !s.started {
      LaunchInv(s, somewhere);
    }
  }

  lemma AttemptInv(s: State, ready: bool, client: bool)
    requires Inv(s)
    ensures Inv(Step(s, Attempt(ready, client)))
  {
    if s.waiting > 0 {
      NextAttemptInv(s.(waiting := s.waiting - 1), ready, client);
    }
  }

  lemma BuildAtAttempt(s: State, raw: string)
    requires Inv(s) && s.preparing
    ensures AtAttempt(Build(s, raw))
  {
  }

  lemma PrepareFailsInv(s: State)
    requires Inv(s) && s.preparing
    ensures Inv(Finish(s.(preparing := false), NetworkFailure, 0, LocalFile))
  {
  }

  lemma PrepareInv(s: State, outcome: Prelude, ready: bool, client: bool)
    requires Inv(s)
    ensures Inv(Step(s, Prepare(outcome, ready, client)))
  {
    if s.preparing {
      match outcome
      case Failed => PrepareFailsInv(s);
      case Built(raw) =>
        BuildAtAttempt(s, raw);
        NextAttemptInv(Build(s, raw), ready, client);
    }
  }

  /** An answer was just taken and nothing is outstanding. */
  predicate AtAnswer(s: State) {
    && s.started && !s.finished && Tokens(s) == 0 && s.done == []
    && (forall i :: 0 <= i < |s.armed| ==> s.armed[i])
    && s.requests != [] && BudgetInv(s) && KeyInv(s) && BodyInv(s) && RepeatInv(s)
  }

  lemma TakeAnswer(s: State, attempt: nat)
    requires Inv(s) && attempt < |s.armed| && !s.armed[attempt]
    ensures AtAnswer(s.(armed := s.armed[attempt := true]))
  {
  }

  lemma AnswerFinishInv(s: State, err: Err, status: int, failure: Failure)
    requires AtAnswer(s)
    ensures Inv(Finish(s, err, status, failure)) && Finish(s, err, status, failure).finished
  {
  }

  lemma RetryInv(s: State, loop: bool)
    requires AtAnswer(s) && Retriable(s)
    ensures Inv(Again(s, loop))
  {
  }

  lemma ToGetBodies(s: State)
    requires BodyInv(s) && RepeatInv(s)
    ensures BodyInv(ToGet(s)) && RepeatInv(ToGet(s).(why := Redirect))
  {
  }

  lemma FollowBodies(s: State, next: Url)
    requires BodyInv(s) && RepeatInv(s)
    ensures BodyInv(Follow(s, next)) && RepeatInv(Follow(s, next).(why := Redirect)) && RepeatInv(Follow(s, next))
  {
  }

  lemma TurnBodies(s: State, next: Url)
    requires BodyInv(s) && RepeatInv(s)
    ensures BodyInv(Turn(s, next)) && RepeatInv(Turn(s, next).(why := Redirect))
  {
    FollowBodies(s, next);
    ToGetBodies(Follow(s, next));
  }

  lemma TurnTokens(s: State, next: Url, loop: bool)
    requires AtAnswer(s) && s.redirects < s.conf.maxRedirects
    ensures TokenInv(Elsewhere(s, next, loop))
    ensures BudgetInv(Elsewhere(s, next, loop))
  {
  }

  lemma TurnKeys(s: State, next: Url, loop: bool)
    requires AtAnswer(s)
    ensures KeyInv(Elsewhere(s, next, loop))
  {
    var u := Elsewhere(s, next, loop);
    assert u.requests == s.requests && u.lastKey == s.lastKey && u.url == next;
  }

  lemma TurnInv(s: State, next: Url, loop: bool)
    requires AtAnswer(s) && s.redirects < s.conf.maxRedirects
    ensures Inv(Elsewhere(s, next, loop))
  {
    TurnTokens(s, next, loop);
    TurnKeys(s, next, loop);
    TurnBodies(s, next);
  }

  lemma RecordInv(s: State, reply: Reply)
    requires AtAnswer(s)
    ensures AtAnswer(Record(s, reply))
  {
  }

  lemma DecideInv(s: State, reply: Reply)
    requires AtAnswer(s)
    ensures Inv(Decide(s, reply))
  {
    if Retriable(s) {
      RetryInv(s, reply.loop);
    } else {
      var next := Redirection(s, reply);
      if next.Some? {
        TurnInv(s, next.value, reply.loop);
      } else {
        AnswerFinishInv(s, s.lastErr, s.lastStatus, Plain);
      }
    }
  }

  lemma OnResponseInv(s: State, reply: Reply)
    requires AtAnswer(s)
    ensures Inv(OnResponse(s, reply))
  {
    var t := Record(s, reply);
    RecordInv(s, reply);
    if t.cancelled {
      AnswerFinishInv(t, NetworkFailure, 0, Cancelled);
    } else {
      DecideInv(t, reply);
    }
  }

  lemma OverfinishInv(s: State, err: Err)
    requires Inv(s) && s.started && !Open(s) && !s.preparing
    ensures Inv(FinishErr(s, err)) && FinishErr(s, err).finished
  {
  }

  lemma HandleInv(s: State, reply: Reply, fault: Fault)
    requires AtAnswer(s)
    ensures Inv(Handle(s, reply, fault))
  {
    match fault
    case Smooth => OnResponseInv(s, reply);
    case ThrowsFirst => AnswerFinishInv(s, NetworkFailure, 0, Plain);
    case ThrowsLast =>
      OnResponseInv(s, reply);
      ResponseSettles(s, reply);
      OverfinishInv(OnResponse(s, reply), NetworkFailure);
  }

  lemma RespondInv(s: State, attempt: nat, reply: Reply, fault: Fault)
    requires Inv(s)
    ensures Inv(Answered(s, attempt, reply, fault))
  {
    if attempt < |s.armed| && !s.armed[attempt] {
      TakeAnswer(s, attempt);
      HandleInv(s.(armed := s.armed[attempt := true]), reply, fault);
    }
  }

  lemma ResponseSettles(s: State, reply: Reply)
    requires AtAnswer(s)
    ensures var u := OnResponse(s, reply); u.started && !Open(u) && !u.preparing
  {
  }

  lemma CancelInv(s: State)
    requires Inv(s)
    ensures Inv(s.(cancelled := true))
  {
  }

  lemma StepInv(s: State, e: Event)
    requires Inv(s)
    ensures Inv(Step(s, e))
  {
    match e
    case Begin(somewhere) => BeginInv(s, somewhere);
    case Prepare(outcome, ready, client) => PrepareInv(s, outcome, ready, client);
    case Attempt(ready, client) => AttemptInv(s, ready, client);
    case Respond(attempt, reply, fault) => RespondInv(s, attempt, reply, fault);
    case Cancel => CancelInv(s);
  }

  lemma {:induction false} RunInv(s: State, es: seq<Event>)
    requires Inv(s)
    ensures Inv(Run(s, es))
    decreases |es|
  {
    if es != [] {
      StepInv(s, es[0]);
      RunInv(Step(s, es[0]), es[1..]);
    }
  }

  // ----- Main results

  function Limit(a: int): nat { if a > 0 then a else 0 }

  /** One report at most; no more requests than the budget, no more retries or redirects
      than allowed; credentials sent with a request exactly as long as every request so far
      named the same target; every request the caller's own or a GET without a body, for
      good once it is one; and a request repeated only when that is harmless or was asked
      for. */
  predicate Safe(s: State) {
    && |s.done| <= 1
    && |s.requests| <= Limit(s.totalBudget) && s.retries <= Limit(s.retryBudget)
    && s.redirects <= Limit(s.conf.maxRedirects)
    && SensitiveRight(s.requests)
    && (forall i :: 0 <= i < |s.requests| ==> Whole(s.requests[i], s.conf.verb, s.body))
    && (forall i, j :: 0 <= i < j < |s.requests| && s.requests[i].verb.Get? ==> s.requests[j].verb.Get?)
    && (forall i :: 0 <= i < |s.requests| && s.requests[i].why.Retry? ==>
          Idempotent(s.requests[i].verb) || s.conf.idempotent)
  }

  /** Every run is safe. */
  lemma SendSafety(conf: Conf, es: seq<Event>)
    ensures Safe(Run(Fresh(conf), es))
  {
    FreshInv(conf);
    RunInv(Fresh(conf), es);
  }

  lemma FinishedTakesNoAnswer(s: State, attempt: nat, reply: Reply, fault: Fault)
    requires TokenInv(s) && s.finished
    ensures Answered(s, attempt, reply, fault) == s
  {
    if attempt < |s.armed| {
      assert attempt == |s.armed| - 1 || s.armed[attempt];
    }
  }

  lemma FinishedStays(s: State, e: Event)
    requires TokenInv(s) && s.finished
    ensures var t := Step(s, e); t.finished && t.requests == s.requests && t.done == s.done
  {
    match e
    case Respond(attempt, reply, fault) => FinishedTakesNoAnswer(s, attempt, reply, fault);
    case _ =>
  }

  lemma HandleSettles(s: State, reply: Reply, fault: Fault)
    requires AtAnswer(s)
    ensures var t := Handle(s, reply, fault);
            t.requests == s.requests && s.done <= t.done && (t.finished || t.waiting == s.waiting + 1)
            && (s.cancelled ==> t.finished)
  {
  }

  /** An answer that is taken sends nothing; it leads to the report or to one more attempt,
      to the report for certain once the machine is cancelled. */
  lemma AnswerLeadsOn(s: State, attempt: nat, reply: Reply, fault: Fault)
    requires Inv(s) && attempt < |s.armed|
    ensures var t := Answered(s, attempt, reply, fault);
            && t.requests == s.requests && s.done <= t.done && (s.armed[attempt] ==> t == s)
            && (!s.armed[attempt] ==> (t.finished || t.waiting == 1) && (s.cancelled ==> t.finished))
  {
  }

  lemma BeginArmed(s: State, somewhere: bool)
    ensures Launch(s, somewhere).armed == s.armed
  {
  }

  lemma AnsweredStays(s: State, e: Event, attempt: nat)
    requires attempt < |s.armed| && s.armed[attempt]
    ensures var t := Step(s, e); attempt < |t.armed| && t.armed[attempt]
  {
    match e
    case Begin(somewhere) => BeginArmed(s, somewhere);
    case Cancel =>
    case Prepare(outcome, ready, client) => PreparedArmed(s, outcome, ready, client);
    case Attempt(ready, client) =>
      if s.waiting > 0 {
        assert OneMore(s.(waiting := s.waiting - 1), NextAttempt(s.(waiting := s.waiting - 1), ready, client));
      }
    case Respond(other, reply, fault) =>
      RespondArmed(s, other, reply, fault);
  }

  lemma RespondArmed(s: State, other: nat, reply: Reply, fault: Fault)
    ensures Answered(s, other, reply, fault).armed
         == if other < |s.armed| then s.armed[other := true] else s.armed
  {
    if other < |s.armed| {
      HandleArmed(s.(armed := s.armed[other := true]), reply, fault);
    }
  }

  lemma PreparedArmed(s: State, outcome: Prelude, ready: bool, client: bool)
    ensures s.armed <= Prepared(s, outcome, ready, client).armed
  {
    if outcome.Built? {
      assert OneMore(Build(s, outcome.raw), NextAttempt(Build(s, outcome.raw), ready, client));
    }
  }

  lemma HandleArmed(s: State, reply: Reply, fault: Fault)
    ensures Handle(s, reply, fault).armed == s.armed
  {
  }

  /** An answer that was taken is never taken again, whatever happened since. */
  lemma {:induction false} AnsweredOnce(s: State, es: seq<Event>, attempt: nat, reply: Reply, fault: Fault)
    requires attempt < |s.armed| && s.armed[attempt]
    ensures var t := Run(s, es); attempt < |t.armed| && Step(t, Respond(attempt, reply, fault)) == t
    decreases |es|
  {
    if es != [] {
      AnsweredStays(s, es[0], attempt);
      AnsweredOnce(Step(s, es[0]), es[1..], attempt, reply, fault);
    }
  }

  /** After the report there is no request and no second report, whatever still happens. */
  lemma {:induction false} SilentAfterReport(s: State, es: seq<Event>)
    requires Inv(s) && s.finished
    ensures Run(s, es).finished && Run(s, es).requests == s.requests && Run(s, es).done == s.done
    decreases |es|
  {
    if es != [] {
      FinishedStays(s, es[0]);
      StepInv(s, es[0]);
      SilentAfterReport(Step(s, es[0]), es[1..]);
    }
  }

  lemma {:induction false} RunAppend(s: State, a: seq<Event>, b: seq<Event>)
    ensures Run(s, a + b) == Run(Run(s, a), b)
    decreases |a|
  {
    if a == [] {
      assert a + b == b;
    } else {
      assert (a + b)[0] == a[0] && (a + b)[1..] == a[1..] + b;
      RunAppend(Step(s, a[0]), a[1..], b);
    }
  }

  /** In no run does anything go out once the report is made. */
  lemma NothingAfterReport(conf: Conf, es: seq<Event>, more: seq<Event>)
    requires |Run(Fresh(conf), es).done| > 0
    ensures var s, t := Run(Fresh(conf), es), Run(Fresh(conf), es + more);
            |s.done| == 1 && t.requests == s.requests && t.done == s.done
  {
    FreshInv(conf);
    RunInv(Fresh(conf), es);
    RunAppend(Fresh(conf), es, more);
    SilentAfterReport(Run(Fresh(conf), es), more);
  }

  /** The outstanding thing happens, the world deciding how. */
  datatype Fate = Fate(ready: bool, client: bool, outcome: Prelude, reply: Reply, fault: Fault, cancel: bool)

  function Outstanding(s: State, f: Fate): Event {
    if s.preparing then Prepare(f.outcome, f.ready, f.client)
    else if s.waiting > 0 then Attempt(f.ready, f.client)
    else Respond(|s.armed| - (if s.armed == [] then 0 else 1), f.reply, f.fault)
  }

  function Live(s: State, f: Fate): State {
    Step(if f.cancel then Step(s, Cancel) else s, Outstanding(s, f))
  }

  function LiveAll(s: State, fates: seq<Fate>): State
    decreases |fates|
  {
    if fates == [] then s else LiveAll(Live(s, fates[0]), fates[1..])
  }

  /** How many outstanding things can follow one another. */
  function Distance(s: State): nat {
    if s.finished then 0
    else 2 * (if s.attempts <= s.totalBudget then s.totalBudget - s.attempts else 0)
         + (if s.preparing then 3 else if s.waiting > 0 then 1 else 2)
  }

  lemma AttemptNearer(s: State, ready: bool, client: bool)
    requires Inv(s) && s.started && !s.finished && s.waiting > 0
    ensures var u := Step(s, Attempt(ready, client)); u.started && (u.finished || Distance(u) < Distance(s))
  {
    AttemptInv(s, ready, client);
  }

  lemma PrepareNearer(s: State, outcome: Prelude, ready: bool, client: bool)
    requires Inv(s) && s.started && !s.finished && s.preparing
    ensures var u := Step(s, Prepare(outcome, ready, client)); u.started && (u.finished || Distance(u) < Distance(s))
  {
    PrepareInv(s, outcome, ready, client);
  }

  lemma RespondNearer(s: State, attempt: nat, reply: Reply, fault: Fault)
    requires Inv(s) && s.started && !s.finished && attempt < |s.armed| && !s.armed[attempt]
    ensures var u := Step(s, Respond(attempt, reply, fault)); u.started && (u.finished || Distance(u) < Distance(s))
  {
    RespondInv(s, attempt, reply, fault);
  }

  lemma LiveNearer(s: State, f: Fate)
    requires Inv(s) && s.started && !s.finished
    ensures var u := Live(s, f); Inv(u) && u.started && (u.finished || Distance(u) < Distance(s))
  {
    var t := if f.cancel then Step(s, Cancel) else s;
    CancelInv(s);
    StepInv(t, Outstanding(s, f));
    if s.preparing {
      PrepareNearer(t, f.outcome, f.ready, f.client);
    } else if s.waiting > 0 {
      AttemptNearer(t, f.ready, f.client);
    } else {
      assert Open(s);
      RespondNearer(t, |t.armed| - 1, f.reply, f.fault);
    }
  }

  /** Every run that is started comes to its one report, when the answer to each request
      arrives and each scheduled step runs, however they turn out. */
  lemma {:induction false} SendEnds(s: State, fates: seq<Fate>)
    requires Inv(s) && s.started && |fates| >= Distance(s)
    ensures exists n :: 0 <= n <= |fates| && |LiveAll(s, fates[..n]).done| == 1 && LiveAll(s, fates[..n]).finished
    decreases |fates|
  {
    if s.finished {
      assert LiveAll(s, fates[..0]) == s;
    } else {
      LiveNearer(s, fates[0]);
      var u := Live(s, fates[0]);
      SendEnds(u, fates[1..]);
      var n :| 0 <= n <= |fates[1..]| && |LiveAll(u, fates[1..][..n]).done| == 1 && LiveAll(u, fates[1..][..n]).finished;
      assert fates[..n + 1][0] == fates[0] && fates[..n + 1][1..] == fates[1..][..n];
      assert LiveAll(s, fates[..n + 1]) == LiveAll(u, fates[1..][..n]);
    }
  }
}
