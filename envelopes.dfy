/** The response envelope every endpoint returns: `Envelope<T>` and its
    twin `ResponseEnvelope<T>`, which has the same shape. */
module Envelopes {
  import opened Common

  datatype Envelope<T> = Envelope(isSuccess: bool, data: Option<T>, errors: seq<string>, timestamp: DateTime)

  /** `ResponseEnvelope<T>` is declared separately in the source with the
      same fields, constructor and factories. */
  type ResponseEnvelope<T> = Envelope<T>

  /** The constructor: a null errors array becomes empty, the timestamp is the clock. */
  function NewEnvelope<T>(data: Option<T>, errors: Option<seq<string>>, isSuccess: bool, now: DateTime): (e: Envelope<T>)
    ensures e.data == data && e.isSuccess == isSuccess && e.timestamp == now
    ensures errors.None? ==> e.errors == []
    ensures errors.Some? ==> e.errors == errors.value
  {
    Envelope(isSuccess, data, if errors.Some? then errors.value else [], now)
  }

  function Success<T>(data: Option<T>, now: DateTime): (e: Envelope<T>)
    ensures e.isSuccess && e.data == data && e.errors == [] && e.timestamp == now
  {
    NewEnvelope(data, Some([]), true, now)
  }

  function Failure<T>(errors: Option<seq<string>>, now: DateTime): (e: Envelope<T>)
    ensures !e.isSuccess && e.data.None? && e.timestamp == now
    ensures errors.None? ==> e.errors == []
    ensures errors.Some? ==> e.errors == errors.value
  {
    NewEnvelope(None, errors, false, now)
  }

  /** A client can tell the two factories apart: success envelopes never carry
      errors, and a failure envelope never carries data. */
  lemma ResponseEnvelopeFactoriesDisjoint<T>(d: Option<T>, errors: Option<seq<string>>, t1: DateTime, t2: DateTime)
    requires d.Some?
    ensures var s: ResponseEnvelope<T> := Success(d, t1);
            var f: ResponseEnvelope<T> := Failure(errors, t2);
            s != f && s.isSuccess != f.isSuccess && s.errors == [] && f.data.None?
  {
  }
}
