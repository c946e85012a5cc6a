/** Retrying REST calls (helper/helper.go:300-317) and how a response is judged (:331-383). */
module Retry {
  import opened Basics

  /** What one call of `fn` comes to.  `Stop` is the error type that must not be retried. */
  datatype Outcome = Success(body: string) | Stop(error: string) | Retryable(error: string)

  predicate Decisive(o: Outcome) { !o.Retryable? }

  /** What the caller gets, and how many calls were made. */
  datatype Reply = Reply(calls: nat, result: Result<string, string>)

  function ResultOf(o: Outcome): Result<string, string> {
    match o
    case Success(body) => Ok(body)
    case Stop(error) => Err(error)
    case Retryable(error) => Err(error)
  }

  /** `stream(k)` is what call number k would answer; `made` calls have been made so far. */
  function RestRetryer(retry: int, stream: nat -> Outcome, made: nat): Reply
    decreases if retry > 0 then retry else 0
  {
    match stream(made)
    case Success(body) => Reply(made + 1, Ok(body))
    case Stop(error) => Reply(made + 1, Err(error))
    case Retryable(error) =>
      if retry - 1 > 0 then RestRetryer(retry - 1, stream, made + 1)
      else Reply(made + 1, Err(error))
  }

  function Budget(retry: int): nat { if retry > 1 then retry else 1 }

  /** The retrier is "the first decisive attempt of the first max(1, retry), or else the last one". */
  lemma {:induction false} RetryIsFirstDecisive(retry: int, stream: nat -> Outcome, made: nat)
    ensures var d := RestRetryer(retry, stream, made);
            && made < d.calls <= made + Budget(retry)
            && (forall k :: made <= k < d.calls - 1 ==> !Decisive(stream(k)))
            && (Decisive(stream(d.calls - 1)) || d.calls == made + Budget(retry))
            && d.result == ResultOf(stream(d.calls - 1))
    decreases if retry > 0 then retry else 0
  {
    if stream(made).Retryable? && retry - 1 > 0 {
      RetryIsFirstDecisive(retry - 1, stream, made + 1);
    }
  }

  /** And nothing else fits that description. */
  lemma {:induction false} FirstDecisiveIsUnique(retry: int, stream: nat -> Outcome, made: nat, calls: nat)
    requires made < calls <= made + Budget(retry)
    requires forall k :: made <= k < calls - 1 ==> !Decisive(stream(k))
    requires Decisive(stream(calls - 1)) || calls == made + Budget(retry)
    ensures RestRetryer(retry, stream, made) == Reply(calls, ResultOf(stream(calls - 1)))
    decreases if retry > 0 then retry else 0
  {
    if stream(made).Retryable? && retry - 1 > 0 {
      FirstDecisiveIsUnique(retry - 1, stream, made + 1, calls);
    }
  }

  /** A nil error comes back exactly when some call within the budget succeeds before any is stopped. */
  lemma SucceedsIff(retry: int, stream: nat -> Outcome)
    ensures RestRetryer(retry, stream, 0).result.Ok? <==>
            exists n :: 0 <= n < Budget(retry) && stream(n).Success? && forall k :: 0 <= k < n ==> stream(k).Retryable?
  {
    RetryIsFirstDecisive(retry, stream, 0);
    var d := RestRetryer(retry, stream, 0);
    if d.result.Ok? {
      assert stream(d.calls - 1).Success?;
    }
    if n :| 0 <= n < Budget(retry) && stream(n).Success? && forall k :: 0 <= k < n ==> stream(k).Retryable? {
      FirstDecisiveIsUnique(retry, stream, 0, n + 1);
    }
  }

  // ---------- Judging one response ----------

  /** What comes of one HTTP exchange: no answer at all, or a status and a body that may fail to be read. */
  datatype Exchange = NoAnswer(error: string) | Answer(status: int, body: Result<string, string>)

  function GetResponse(expectedCode: int, retryOnCode: int, x: Exchange): Outcome {
    match x
    case NoAnswer(error) => Retryable(error)
    case Answer(status, body) =>
      if status == expectedCode then
        match body case Ok(text) => Success(text) case Err(error) => Retryable(error)
      else if status == retryOnCode then
        Retryable(match body case Ok(text) => text case Err(_) => "")
      else
        Stop(match body case Ok(text) => text case Err(_) => "")
  }

  function Judged(expectedCode: int, retryOnCode: int, answers: nat -> Exchange): nat -> Outcome {
    (n: nat) => GetResponse(expectedCode, retryOnCode, answers(n))
  }

  predicate Final(expectedCode: int, retryOnCode: int, x: Exchange) {
    x.Answer? && x.status != expectedCode && x.status != retryOnCode
  }

  /** With GetResponse as the call: all answers before the last one are no answers, failed reads of the
      expected status, or the retry status; a status of any other kind ends it there and then; and success
      means that the last answer had the expected status.  The error is the last one's: why there was no answer, or
      why the body of the expected status was not read, or else the body, as far as it was read. */
  lemma RestCallSequence(retry: int, expectedCode: int, retryOnCode: int, answers: nat -> Exchange)
    ensures var d := RestRetryer(retry, Judged(expectedCode, retryOnCode, answers), 0);
            && 1 <= d.calls <= Budget(retry)
            && (forall k :: 0 <= k < d.calls - 1 ==>
                  && !Final(expectedCode, retryOnCode, answers(k))
                  && (answers(k).Answer? && answers(k).status == expectedCode ==> answers(k).body.Err?))
            && (d.result.Ok? <==>
                  && answers(d.calls - 1).Answer? && answers(d.calls - 1).status == expectedCode
                  && answers(d.calls - 1).body.Ok? && answers(d.calls - 1).body == d.result)
            && (d.result.Err? ==>
                  && (Final(expectedCode, retryOnCode, answers(d.calls - 1)) || d.calls == Budget(retry))
                  && match answers(d.calls - 1)
                     case NoAnswer(error) => d.result.error == error
                     case Answer(_, Ok(text)) => d.result.error == text
                     case Answer(status, Err(error)) => d.result.error == if status == expectedCode then error else "")
  {
    var stream := Judged(expectedCode, retryOnCode, answers);
    RetryIsFirstDecisive(retry, stream, 0);
    var d := RestRetryer(retry, stream, 0);
    forall k | 0 <= k < d.calls - 1 ensures !Decisive(GetResponse(expectedCode, retryOnCode, answers(k))) {
      assert !Decisive(stream(k));
    }
  }
}
