/**
 * What the retry loops of IN and OUT requests share: the outcome of one
 * transaction, the checks around it, and when the loop ends.
 */
module Retry {
  import opened UsbTypes

  /** Unanswered attempts in a row after which a request gives up. */
  const NON_RESPONSE_RETRY_LIMIT: nat := 128

  datatype Outcome<+T> = Complete(value: T) | Nak | NoResponse

  /**
   * One turn of the retry loop: the three validity checks, the exchange, and
   * whether the caller drops the future while the engine still services the
   * frame after the exchange.
   */
  datatype Attempt<+F> = Attempt(validBefore: bool, validLocked: bool, fate: F, dropped: bool, validAfter: bool)

  /** An attempt that reached the engine and came back valid. */
  predicate Passed<F>(a: Attempt<F>) { a.validBefore && a.validLocked && !a.dropped && a.validAfter }

  predicate Retryable<T>(outcome: Result<Outcome<T>, PipeError>) {
    outcome.Ok? && !outcome.value.Complete?
  }

  predicate Completes<T>(outcome: Result<Outcome<T>, PipeError>) { outcome.Ok? && outcome.value.Complete? }

  predicate Unanswered<T>(outcome: Result<Outcome<T>, PipeError>) { outcome.Ok? && outcome.value.NoResponse? }

  predicate Succeeds<T>(result: Option<Result<T, PipeError>>) { result.Some? && result.value.Ok? }

  /** How many outcomes at the end of the list are silence. */
  function SilentTail<T>(outcomes: seq<Result<Outcome<T>, PipeError>>): nat {
    if outcomes == [] || !Unanswered(outcomes[|outcomes| - 1]) then 0
    else SilentTail(outcomes[..|outcomes| - 1]) + 1
  }

  /** The silent count after one more attempt. */
  function SilentNow<T>(silent: nat, outcome: Result<Outcome<T>, PipeError>): nat {
    if Unanswered(outcome) then silent + 1 else 0
  }

  lemma SilentTailAppend<T>(outcomes: seq<Result<Outcome<T>, PipeError>>, outcome: Result<Outcome<T>, PipeError>)
    ensures SilentTail(outcomes + [outcome]) == SilentNow(SilentTail(outcomes), outcome)
  {
    assert (outcomes + [outcome])[..|outcomes|] == outcomes;
  }

  /** What ends the loop between two attempts: a dropped future, or a failed validity check. */
  ghost predicate StopsBefore<F, T>(script: seq<Attempt<F>>, n: nat, result: Option<Result<T, PipeError>>) {
    if n < |script| then !(script[n].validBefore && script[n].validLocked) && result == Some(Err(Disconnected))
    else result == None
  }

  /** What the last attempt says, if it ends the loop. */
  ghost predicate LastSays<F, T>(a: Attempt<F>, outcome: Result<Outcome<T>, PipeError>, silent: nat,
                                 result: Option<Result<T, PipeError>>)
  {
    if a.dropped then result == None
    else if !a.validAfter then result == Some(Err(Disconnected))
    else if outcome.Err? then result == Some(Err(outcome.error))
    else if outcome.value.Complete? then result == Some(Ok(outcome.value.value))
    else outcome.value.NoResponse? && silent == NON_RESPONSE_RETRY_LIMIT && result == Some(Err(Timeout))
  }

  /** What the retry loop makes of an exchange: another turn, or the end. */
  method AfterExchange<F, T>(attempt: Attempt<F>, outcome: Result<Outcome<T>, PipeError>, silent: nat)
    returns (retry: bool, silent': nat, result: Option<Result<T, PipeError>>)
    requires silent < NON_RESPONSE_RETRY_LIMIT
    ensures retry ==> !attempt.dropped && attempt.validAfter && Retryable(outcome)
    ensures retry ==> silent' == SilentNow(silent, outcome) < NON_RESPONSE_RETRY_LIMIT
    ensures !retry ==> LastSays(attempt, outcome, SilentNow(silent, outcome), result)
  {
    silent', result, retry := silent, None, false;
    if attempt.dropped {
      return;
    }
    if !attempt.validAfter {
      result := Some(Err(Disconnected));
      return;
    }
    if outcome.Err? {
      result := Some(Err(outcome.error));
      return;
    }
    match outcome.value {
      case Complete(value) => result := Some(Ok(value));
      case Nak =>
        silent' := 0;
        retry := true;
      case NoResponse =>
        silent' := silent + 1;
        retry := silent' < NON_RESPONSE_RETRY_LIMIT;
        if !retry {
          result := Some(Err(Timeout));
        }
    }
  }

  /** Lists one after the other. */
  function Joined<T>(parts: seq<seq<T>>): seq<T> {
    if parts == [] then [] else Joined(parts[..|parts| - 1]) + parts[|parts| - 1]
  }

  lemma JoinedAppend<T>(parts: seq<seq<T>>, part: seq<T>)
    ensures Joined(parts + [part]) == Joined(parts) + part
  {
    assert (parts + [part])[..|parts|] == parts;
  }
}
