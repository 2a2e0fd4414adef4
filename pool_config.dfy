/** The two call decorators of the proxy pool: one turns an exception into None,
    the other calls again until the result is not None. A wrapped function is given
    by the outcomes of its successive calls. */
module PoolConfig {
  import opened Wrappers

  /** The outcome of one call of the wrapped function. */
  datatype Call<T> = Raise(error: Exception) | Return(value: Option<T>)

  /** What `repeat_while_return_none` ends with, and after how many calls. */
  datatype Repeated<T> =
    | Value(value: T, calls: nat)                // the first result that is not None
    | Propagated(error: Exception, calls: nat)   // the first exception, passed on
    | Exhausted                                  // every given call returned None

  /** `return_none_when_exception(func)` applied to one call. */
  function ReturnNoneWhenException<T>(c: Call<T>): (r: Call<T>)
    ensures r.Return?
    ensures c.Return? ==> r == c
    ensures c.Raise? ==> r == Return(None)
  {
    match c
    case Raise(_) => Return(None)
    case Return(v) => Return(v)
  }

  /** The outcomes of successive calls of the decorated function. */
  function Guarded<T>(calls: seq<Call<T>>): (r: seq<Call<T>>)
    ensures |r| == |calls|
    ensures forall i :: 0 <= i < |r| ==> r[i] == ReturnNoneWhenException(calls[i])
  {
    if calls == [] then [] else [ReturnNoneWhenException(calls[0])] + Guarded(calls[1..])
  }

  /** `repeat_while_return_none(func)`, scanning the calls from the first. */
  function Repeat<T>(calls: seq<Call<T>>): Repeated<T> {
    if calls == [] then Exhausted
    else match calls[0]
      case Raise(e) => Propagated(e, 1)
      case Return(Some(v)) => Value(v, 1)
      case Return(None) =>
        match Repeat(calls[1..])
        case Value(v, n) => Value(v, n + 1)
        case Propagated(e, n) => Propagated(e, n + 1)
        case Exhausted => Exhausted
  }

  /** `repeat_while_return_none`: call, and call again while the result is None. */
  method RepeatWhileReturnNone<T>(calls: seq<Call<T>>) returns (r: Repeated<T>)
    ensures r == Repeat(calls)
  {
    var i := 0;
    while i < |calls| && calls[i] == Return(None)
      invariant 0 <= i <= |calls|
      invariant forall j :: 0 <= j < i ==> calls[j] == Return(None)
      invariant RepeatNonesFirst(calls, i) == Repeat(calls)
    {
      RepeatSkip(calls, i);
      i := i + 1;
    }
    if i == |calls| {
      RepeatSkip(calls, i);
      return Exhausted;
    }
    RepeatSkip(calls, i);
    match calls[i]
    case Raise(e) => r := Propagated(e, i + 1);
    case Return(v) => r := Value(v.value, i + 1);
  }

  /** What `Repeat` ends with once it has skipped `i` leading None results. */
  function RepeatNonesFirst<T>(calls: seq<Call<T>>, i: nat): Repeated<T>
    requires i <= |calls|
  {
    match Repeat(calls[i..])
    case Value(v, n) => Value(v, n + i)
    case Propagated(e, n) => Propagated(e, n + i)
    case Exhausted => Exhausted
  }

  lemma {:induction false} RepeatSkip<T>(calls: seq<Call<T>>, i: nat)
    requires i <= |calls| && forall j :: 0 <= j < i ==> calls[j] == Return(None)
    ensures RepeatNonesFirst(calls, i) == Repeat(calls)
  {
    if i > 0 {
      var rest := calls[1..];
      assert forall j :: 0 <= j < i - 1 ==> rest[j] == calls[j + 1];
      RepeatSkip(rest, i - 1);
      assert rest[i - 1..] == calls[i..];
    } else {
      assert calls[0..] == calls;
    }
  }

  /** The decorated function is called at least once and its result is the first
      result that is not None, every earlier call having returned None; an
      exception before it is passed on. It never returns None. */
  lemma {:induction false} RepeatFirstResult<T>(calls: seq<Call<T>>)
    ensures Repeat(calls).Value? ==> var n := Repeat(calls).calls;
      1 <= n <= |calls| && calls[n - 1] == Return(Some(Repeat(calls).value)) &&
      forall j :: 0 <= j < n - 1 ==> calls[j] == Return(None)
    ensures Repeat(calls).Propagated? ==> var n := Repeat(calls).calls;
      1 <= n <= |calls| && calls[n - 1] == Raise(Repeat(calls).error) &&
      forall j :: 0 <= j < n - 1 ==> calls[j] == Return(None)
    ensures Repeat(calls).Exhausted? <==> forall j :: 0 <= j < |calls| ==> calls[j] == Return(None)
  {
    if calls != [] {
      RepeatFirstResult(calls[1..]);
      assert forall j :: 1 <= j < |calls| ==> calls[j] == calls[1..][j - 1];
    }
  }

  /** Wrapping with `return_none_when_exception` first means no exception gets
      through: the result is the first value returned, or the calls run out. */
  lemma {:induction false} GuardedNeverPropagates<T>(calls: seq<Call<T>>)
    ensures !Repeat(Guarded(calls)).Propagated?
    ensures Repeat(Guarded(calls)).Exhausted? <==> forall j :: 0 <= j < |calls| ==> !calls[j].Return? || calls[j].value.None?
  {
    RepeatFirstResult(Guarded(calls));
  }
}
