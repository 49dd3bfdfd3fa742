/** The MediatR validation pipeline step: run every validator of the
    request, collect the failure messages and short-circuit with a failure
    result instead of calling the handler. */
module Validation {
  import opened Common
  import R = Results

  /** What TResponse is: the non-generic Result, a closed Result<T>, or
      another subclass of Result. */
  datatype ResponseType = PlainResult | GenericResult | OtherResult

  /** What the behaviour does: call the next step (the handler) and return its
      result, answer by itself, or throw. */
  datatype Behaviour<T> = CallNext | Respond(result: R.Result<T>) | Throw(exception: string)

  /** One validator's outcome: its failure list, where None is a null entry. */
  type ValidatorOutcome = seq<Option<string>>

  /** The messages of the non-null failures of one validator, in order. */
  function Messages(failures: ValidatorOutcome): (r: seq<string>)
    ensures |r| <= |failures|
    ensures forall m | m in r :: Some(m) in failures
  {
    if |failures| == 0 then []
    else
      var rest := Messages(failures[1..]);
      assert forall m | m in rest :: Some(m) in failures by {
        forall m | m in rest ensures Some(m) in failures {
          assert Some(m) in failures[1..];
        }
      }
      match failures[0]
      case None => rest
      case Some(m) => [m] + rest
  }

  /** SelectMany(r => r.Errors).Where(f => f != null).Select(f => f.ErrorMessage). */
  function CollectFailures(outcomes: seq<ValidatorOutcome>): seq<string> {
    if |outcomes| == 0 then [] else Messages(outcomes[0]) + CollectFailures(outcomes[1..])
  }

  /** Collected messages follow validator order, then failure order. */
  lemma {:induction false} CollectFailuresAppend(a: seq<ValidatorOutcome>, b: seq<ValidatorOutcome>)
    ensures CollectFailures(a + b) == CollectFailures(a) + CollectFailures(b)
  {
    if |a| > 0 {
      assert (a + b)[1..] == a[1..] + b;
      CollectFailuresAppend(a[1..], b);
    } else {
      assert a + b == b;
    }
  }

  /** No message is invented: each comes from a non-null failure of some validator. */
  lemma {:induction false} CollectFailuresSound(outcomes: seq<ValidatorOutcome>, m: string)
    requires m in CollectFailures(outcomes)
    ensures exists i :: 0 <= i < |outcomes| && Some(m) in outcomes[i]
  {
    if m in Messages(outcomes[0]) {
      assert Some(m) in outcomes[0];
    } else {
      CollectFailuresSound(outcomes[1..], m);
      var i :| 0 <= i < |outcomes[1..]| && Some(m) in outcomes[1..][i];
      assert Some(m) in outcomes[i + 1];
    }
  }

  /** Handle as written. For a Result<T> response the source looks up the
      public static method "Failure" by name, but Result<T> declares two
      overloads of it, so the lookup throws AmbiguousMatchException. */
  function HandleAsWritten<T>(responseType: ResponseType, outcomes: seq<ValidatorOutcome>): (b: Behaviour<T>)
    ensures |outcomes| == 0 ==> b.CallNext?
    ensures CollectFailures(outcomes) == [] ==> b.CallNext?
    ensures responseType.GenericResult? && CollectFailures(outcomes) != [] ==>
      b == Throw("AmbiguousMatchException")
  {
    if |outcomes| == 0 then CallNext
    else
      var failures := CollectFailures(outcomes);
      if |failures| == 0 then CallNext
      else match responseType
        case GenericResult => Throw("AmbiguousMatchException")
        case PlainResult => Respond(R.Failure(Some(failures)))
        case OtherResult => CallNext
  }

  /** Handle as intended: a failing request of either Result type is answered
      with Failure(messages), status 400, and the handler is not called. */
  function Handle<T>(responseType: ResponseType, outcomes: seq<ValidatorOutcome>): (b: Behaviour<T>)
    ensures b.CallNext? <==> CollectFailures(outcomes) == [] || responseType.OtherResult?
    ensures !b.Throw?
    ensures b.Respond? ==>
      !b.result.isSuccess && b.result.statusCode == R.BadRequestStatus && b.result.errors == CollectFailures(outcomes)
  {
    if |outcomes| == 0 then CallNext
    else
      var failures := CollectFailures(outcomes);
      if |failures| == 0 then CallNext
      else match responseType
        case GenericResult => Respond(R.Failure(Some(failures)))
        case PlainResult => Respond(R.Failure(Some(failures)))
        case OtherResult => CallNext
  }

  /** The two agree everywhere except on failing requests with a Result<T> response. */
  lemma HandleDiffersOnlyForGenericFailures<T>(responseType: ResponseType, outcomes: seq<ValidatorOutcome>)
    ensures HandleAsWritten<T>(responseType, outcomes) != Handle<T>(responseType, outcomes) <==>
      responseType.GenericResult? && CollectFailures(outcomes) != []
  {
  }

  /** A concrete request that shows the difference: one validator, one failure. */
  lemma GenericFailureThrows()
    ensures HandleAsWritten<int>(GenericResult, [[Some("Name is required")]]) == Throw("AmbiguousMatchException")
    ensures Handle<int>(GenericResult, [[Some("Name is required")]]) == Respond(R.Failure(Some(["Name is required"])))
  {
    assert CollectFailures([[Some("Name is required")]]) == ["Name is required"] by {
      assert Messages([Some("Name is required")]) == ["Name is required"];
    }
  }
}
