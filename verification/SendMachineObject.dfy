/** The send machine as the program keeps it: an object that its own callbacks update.
    The entry points say what a caller may rely on: no report but one, nothing sent after
    it, and no more sent, retried or followed than was allowed. The other methods are their
    inner steps, and each says which function of SendMachine it is. */
module SendMachineObject {
  import opened Basics
  import opened SendMachine

  /** What is sent. */
  datatype Load = Load(verb: Method, json: Option<string>, raw: string, rawProvided: bool) {
    function Body(): Option<string> { SentBody(verb, json, raw, rawProvided) }
  }

  /** Where it is sent, and what came before. */
  datatype Place = Place(url: Url, strip: bool, redirects: nat, redirected: bool)

  class Machine {
    const conf: Conf
    var started: bool
    var preparing: bool
    var waiting: nat
    var armed: seq<bool>
    var cancelled: bool
    var finished: bool
    var load: Load
    var place: Place
    var retryBudget: int
    var totalBudget: int
    var attempts: nat
    var retries: nat
    var lastKey: string
    var lastErr: Err
    var lastStatus: int
    var done: seq<Result>
    var why: Why
    ghost var body: Option<string>
    var requests: seq<Request>
    ghost var heard: seq<Reply>

    ghost function View(): State
      reads this
    {
      State(conf, started, preparing, waiting, armed, cancelled, finished,
            load.verb, place.url, load.json, load.raw, load.rawProvided,
            retryBudget, totalBudget, attempts, retries, place.redirects, place.redirected, place.strip,
            lastKey, lastErr, lastStatus, done, why, body, requests, heard)
    }

    ghost predicate Valid()
      reads this
      ensures Valid() ==>
                && |done| <= 1 && (finished <==> |done| == 1)
                && |requests| <= Limit(totalBudget) && retries <= Limit(retryBudget)
                && place.redirects <= Limit(conf.maxRedirects)
    {
      Inv(View())
    }

    constructor (conf: Conf)
      ensures Valid() && View() == Fresh(conf)
    {
      this.conf := conf;
      started, preparing, waiting, armed, cancelled, finished := false, false, 0, [], false, false;
      load, place := Load(conf.verb, conf.json, conf.raw, conf.rawProvided), Place(conf.url, false, 0, false);
      retryBudget, totalBudget, attempts, retries := 0, 0, 0, 0;
      lastKey, lastErr, lastStatus, done := "", Ok, 0, [];
      why, body, requests, heard := First, None, [], [];
    }

    method Finish(err: Err, status: int, failure: Failure)
      modifies this
      ensures View() == SendMachine.Finish(old(View()), err, status, failure)
    {
      if finished {
        return;
      }
      finished := true;
      done := done + [Result(err, status, failure, retries, place.redirected, place.url.text)];
    }

    method Start(somewhere: bool)
      requires Valid() && !started
      modifies this
      ensures Valid() && View() == Step(old(View()), Begin(somewhere))
      ensures started && requests == old(requests) && (finished <==> !somewhere)
    {
      StepInv(View(), Begin(somewhere));
      Launch(somewhere);
    }

    /** The body the caller asked to send. */
    ghost method Remember()
      modifies this`body
      ensures View() == old(View()).(body := load.Body())
    {
      body := load.Body();
    }

    method Budget()
      modifies this`started, this`retryBudget, this`totalBudget, this`body
      ensures View() == Budgeted(old(View()))
    {
      started, retryBudget, totalBudget := true, RetryBudget(conf), TotalBudget(conf);
      Remember();
    }

    method Launch(somewhere: bool)
      modifies this
      ensures View() == SendMachine.Launch(old(View()), somewhere)
    {
      Budget();
      if !somewhere {
        Finish(NetworkFailure, 0, Plain);
      } else if conf.prelude {
        preparing := true;
      } else {
        waiting := 1;
      }
    }

    method Aim()
      modifies this`attempts, this`lastKey
      ensures View() == SendMachine.Aim(old(View()))
    {
      attempts := attempts + 1;
      lastKey := place.url.key;
    }

    method SendIt()
      modifies this`requests, this`armed
      ensures View() == SendMachine.SendIt(old(View()))
    {
      requests := requests + [Request(why, load.verb, place.url.key, !place.strip, load.Body())];
      armed := armed + [false];
    }

    /** One attempt of the budget goes out, if there is an address and a connection. */
    method UseAttempt(client: bool)
      modifies this
      ensures View() == SendMachine.UseAttempt(old(View()), client)
    {
      if !place.url.ok {
        attempts := attempts + 1;
        Finish(BadServerAddress, 0, Plain);
      } else {
        Aim();
        if !client {
          Finish(NetworkFailure, 0, Plain);
        } else {
          SendIt();
        }
      }
    }

    method NextAttempt(ready: bool, client: bool)
      modifies this
      ensures View() == SendMachine.NextAttempt(old(View()), ready, client)
    {
      if finished {
      } else if cancelled {
        Finish(NetworkFailure, 0, Cancelled);
      } else if !ready {
        Finish(NetworkFailure, 0, Plain);
      } else if attempts >= totalBudget {
        Finish(lastErr, lastStatus, Plain);
      } else {
        UseAttempt(client);
      }
    }

    /** A scheduled attempt runs. */
    method OnSchedule(ready: bool, client: bool)
      requires Valid() && waiting > 0
      modifies this
      ensures Valid() && View() == Step(old(View()), Attempt(ready, client))
      ensures old(requests) <= requests && |requests| <= |old(requests)| + 1
      ensures old(finished) ==> requests == old(requests) && done == old(done)
    {
      StepInv(View(), Attempt(ready, client));
      waiting := waiting - 1;
      NextAttempt(ready, client);
    }

    method Build(made: string)
      modifies this`preparing, this`load, this`body
      ensures View() == SendMachine.Build(old(View()), made)
    {
      preparing, load := false, load.(raw := made);
      body := load.Body();
    }

    method Prepare(outcome: Prelude, ready: bool, client: bool)
      modifies this
      ensures View() == Prepared(old(View()), outcome, ready, client)
    {
      match outcome {
        case Failed =>
          preparing := false;
          Finish(NetworkFailure, 0, LocalFile);
        case Built(made) =>
          Build(made);
          NextAttempt(ready, client);
      }
    }

    method RunPrelude(outcome: Prelude, ready: bool, client: bool)
      requires Valid() && preparing
      modifies this
      ensures Valid() && View() == Step(old(View()), SendMachine.Prepare(outcome, ready, client))
      ensures |requests| <= 1 && (outcome.Failed? ==> finished && requests == [])
    {
      StepInv(View(), SendMachine.Prepare(outcome, ready, client));
      Prepare(outcome, ready, client);
    }

    method Schedule(because: Why, loop: bool)
      modifies this
      ensures View() == SendMachine.Schedule(old(View()), because, loop)
    {
      if !loop {
        Finish(NetworkFailure, 0, Plain);
      } else {
        waiting, why := waiting + 1, because;
      }
    }

    method Record(reply: Reply)
      modifies this
      ensures View() == SendMachine.Record(old(View()), reply)
    {
      heard := heard + [reply];
      match reply {
        case Nothing(err, _) =>
          lastErr, lastStatus := err, 0;
        case Response(status, tooLarge, _, _) =>
          lastErr, lastStatus := if tooLarge then BadResponse else Ok, status;
      }
    }

    method ToGet()
      modifies this`load
      ensures View() == SendMachine.ToGet(old(View()))
    {
      load := Load(Get, None, "", false);
    }

    method Follow(next: Url)
      modifies this`place
      ensures View() == SendMachine.Follow(old(View()), next)
    {
      place := Place(next, place.strip || (next.ok && next.key != lastKey), place.redirects + 1, true);
    }

    method Turn(next: Url)
      modifies this
      ensures View() == SendMachine.Turn(old(View()), next)
    {
      Follow(next);
      if BecomesGet(lastStatus, load.verb) {
        ToGet();
      }
    }

    method MayRetry() returns (again: bool)
      ensures again == Retriable(View())
    {
      var netRetriable := lastErr == Timeout || lastErr == NetworkFailure;
      var statusRetriable := lastErr == Ok && ((500 <= lastStatus <= 599) || lastStatus == 429);
      again := (netRetriable || statusRetriable) && (Idempotent(load.verb) || conf.idempotent) && retries < retryBudget;
    }

    method Decide(reply: Reply)
      modifies this
      ensures View() == SendMachine.Decide(old(View()), reply)
    {
      var again := MayRetry();
      if again {
        retries := retries + 1;
        Schedule(Retry, reply.loop);
      } else if lastErr == Ok && 300 < lastStatus <= 399 && conf.follow && place.redirects < conf.maxRedirects
                && reply.Response? && reply.location.Some? {
        Turn(reply.location.value);
        Schedule(Redirect, reply.loop);
      } else {
        Finish(lastErr, lastStatus, Plain);
      }
    }

    method OnResponse(reply: Reply)
      modifies this
      ensures View() == SendMachine.OnResponse(old(View()), reply)
    {
      Record(reply);
      if cancelled {
        Finish(NetworkFailure, 0, Cancelled);
      } else {
        Decide(reply);
      }
    }

    method Handle(reply: Reply, fault: Fault)
      modifies this
      ensures View() == SendMachine.Handle(old(View()), reply, fault)
    {
      if fault != ThrowsFirst {
        OnResponse(reply);
      }
      if fault != Smooth {
        Finish(NetworkFailure, 0, Plain);
      }
    }

    /** The answer to an attempt, taken once: a second one changes nothing. It never sends
        anything itself; a cancelled machine reports, any other reports or goes on. */
    method OnAttemptResponse(attempt: nat, reply: Reply, fault: Fault)
      requires Valid() && attempt < |armed|
      modifies this
      ensures Valid() && View() == Step(old(View()), Respond(attempt, reply, fault))
      ensures old(armed)[attempt] ==> View() == old(View())
      ensures requests == old(requests) && old(done) <= done
      ensures !old(armed)[attempt] && old(cancelled) ==> finished
      ensures !old(armed)[attempt] ==> finished || waiting == 1
    {
      StepInv(View(), Respond(attempt, reply, fault));
      AnswerLeadsOn(View(), attempt, reply, fault);
      Answer(attempt, reply, fault);
    }

    method Answer(attempt: nat, reply: Reply, fault: Fault)
      requires attempt < |armed|
      modifies this
      ensures View() == Answered(old(View()), attempt, reply, fault)
    {
      if !armed[attempt] {
        armed := armed[attempt := true];
        Handle(reply, fault);
      }
    }
  }
}
