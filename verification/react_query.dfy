/** The query client's defaults: how often a failing query is retried, the
    one "taking longer than expected" toast shown when retries give up, and
    the toast a failing mutation shows.

    The toast library is modelled by the events it reports back: a toast the
    handler raises, and the `onDismiss` callback of that toast. */
module ReactQuery {
  import opened Wrappers
  import opened Json
  import opened Errors
  import opened ErrorHandler

  // ---------------------------------------------------------------------
  // Query retries

  /** The least `failureCount` argument for which `retry` answers no. The
      query library passes the count as it calls `retry`; how it numbers
      failures is outside this model. */
  const MaxFailures: nat := 3

  /** What one call of `retry(failureCount)` decides and does: whether to
      retry, the value of `displayedNetworkFailureError` afterwards, and
      whether it raised the toast. */
  datatype RetryOutcome = RetryOutcome(retry: bool, flag: bool, toast: bool)

  /** `retry(failureCount)` with the flag as it stands. */
  function Retry(failureCount: nat, flag: bool): (o: RetryOutcome)
  {
    if failureCount >= MaxFailures then
      if flag == false then RetryOutcome(false, true, true)
      else RetryOutcome(false, flag, false)
    else RetryOutcome(true, flag, false)
  }

  /** `retry` answers yes exactly when its `failureCount` argument is below
      three, whatever the flag says; answering no raises the toast exactly
      when none is up, and leaves the flag set. */
  lemma RetryMeaning(failureCount: nat, flag: bool)
    ensures Retry(failureCount, flag).retry <==> failureCount < 3
    ensures Retry(failureCount, flag).retry == Retry(failureCount, !flag).retry
    ensures Retry(failureCount, flag).toast <==> failureCount >= 3 && !flag
    ensures failureCount >= 3 ==> Retry(failureCount, flag).flag
    ensures failureCount < 3 ==> Retry(failureCount, flag).flag == flag
  {
  }

  /** What happens to the client: `retry` is called with some
      `failureCount` argument, or the toast is dismissed. */
  datatype Event = RetryAsked(failureCount: nat) | Dismissed

  /** The flag after one event. */
  function Step(flag: bool, e: Event): bool {
    match e
    case RetryAsked(c) => Retry(c, flag).flag
    case Dismissed => false
  }

  /** The flag after the events, starting from `false` when the module loads. */
  function FlagAfter(events: seq<Event>): bool
    decreases |events|
  {
    if |events| == 0 then false else Step(FlagAfter(events[..|events| - 1]), events[|events| - 1])
  }

  /** Whether the `i`-th event raised the toast. */
  function ToastAt(events: seq<Event>, i: nat): bool
    requires i < |events|
  {
    events[i].RetryAsked? && Retry(events[i].failureCount, FlagAfter(events[..i])).toast
  }

  /** No dismissal after position `i`. */
  predicate UndismissedAfter(events: seq<Event>, i: nat) {
    forall j :: i < j < |events| ==> !events[j].Dismissed?
  }

  lemma ToastAtPrefix(events: seq<Event>, n: nat, i: nat)
    requires i < n <= |events|
    ensures ToastAt(events[..n], i) == ToastAt(events, i)
  {
    assert events[..n][..i] == events[..i];
  }

  /** The flag is up exactly when a toast was raised and no dismissal has
      come since. */
  lemma {:induction false} FlagIffToastUp(events: seq<Event>)
    ensures FlagAfter(events) <==> exists i: nat :: i < |events| && ToastAt(events, i) && UndismissedAfter(events, i)
    decreases |events|
  {
    if |events| > 0 {
      var n := |events| - 1;
      var prefix := events[..n];
      FlagIffToastUp(prefix);
      assert events[..n] == prefix;
      forall i: nat | i < n
        ensures ToastAt(prefix, i) == ToastAt(events, i)
        ensures UndismissedAfter(events, i) ==> UndismissedAfter(prefix, i)
      {
        ToastAtPrefix(events, n, i);
      }
      match events[n]
      case Dismissed =>
        forall i: nat | i < |events| ensures !(ToastAt(events, i) && UndismissedAfter(events, i)) {
          if i < n {
            assert events[n].Dismissed?;
          }
        }
      case RetryAsked(c) =>
        if FlagAfter(prefix) {
          var i: nat :| i < n && ToastAt(prefix, i) && UndismissedAfter(prefix, i);
          assert ToastAt(events, i) && UndismissedAfter(events, i);
        } else if c >= 3 {
          assert ToastAt(events, n) && UndismissedAfter(events, n);
        } else {
          forall i: nat | i < |events| ensures !(ToastAt(events, i) && UndismissedAfter(events, i)) {
            if i < n && UndismissedAfter(events, i) {
              assert UndismissedAfter(prefix, i);
            }
          }
        }
    }
  }

  /** Between two toasts the first one was dismissed: at most one toast is up
      at a time, however many queries give up. */
  lemma AtMostOneToast(events: seq<Event>, i: nat, j: nat)
    requires i < j < |events|
    requires ToastAt(events, i) && ToastAt(events, j)
    ensures exists k :: i < k < j && events[k].Dismissed?
  {
    var prefix := events[..j];
    FlagIffToastUp(prefix);
    ToastAtPrefix(events, j, i);
    assert !FlagAfter(prefix);
    assert !UndismissedAfter(prefix, i);
    var k :| i < k < |prefix| && prefix[k].Dismissed?;
    assert events[k].Dismissed?;
  }

  /** After a dismissal the next query that gives up raises the toast again. */
  lemma DismissRearms(events: seq<Event>, c: nat)
    requires c >= 3
    ensures var after := events + [Dismissed] + [RetryAsked(c)];
      !FlagAfter(events + [Dismissed]) && ToastAt(after, |after| - 1)
  {
    var after := events + [Dismissed] + [RetryAsked(c)];
    assert after[..|after| - 1] == events + [Dismissed];
    assert (events + [Dismissed])[..|events|] == events;
  }

  // ---------------------------------------------------------------------
  // Mutation errors

  const GenericMutationMessage: string := "Erro ao processar operação!"

  /** The error a mutation fails with: an axios error, with the decoded body
      of its response (None when there is no response or no body), or any
      other error. */
  datatype MutationError = AxiosError(data: Option<Json>) | OtherError

  /** What `onError` does: nothing, a toast with the given content, or a
      `TypeError` from the `in` operator applied to a value that is not an
      object. */
  datatype Notice = NoNotice | Toast(content: Json) | ThrowsTypeError

  /** Whether `"message" in data` throws: only objects (arrays included)
      accept the `in` operator. */
  predicate InThrows(data: Option<Json>) {
    data.None? || !(data.value.JObj? || data.value.JArr?)
  }

  /** `onError(error)`. */
  function OnError(e: MutationError): (r: Notice)
    ensures r.NoNotice? <==> e.OtherError?
    ensures r.ThrowsTypeError? <==> e.AxiosError? && InThrows(e.data)
  {
    match e
    case OtherError => NoNotice
    case AxiosError(data) =>
      if InThrows(data) then ThrowsTypeError
      else if data.value.JObj? && "message" in data.value.fields then Toast(data.value.fields["message"])
      else Toast(JStr(GenericMutationMessage))
  }

  /** A body with a `message` shows that message; an object without one, or
      an array, shows the generic text. */
  lemma OnErrorToast(data: Json)
    requires data.JObj? || data.JArr?
    ensures Member(data, "message").Some? ==> OnError(AxiosError(Some(data))) == Toast(Member(data, "message").value)
    ensures Member(data, "message").None? ==> OnError(AxiosError(Some(data))) == Toast(JStr(GenericMutationMessage))
  {
  }

  /** Every reply of the backend's error handler carries a `message`, so a
      mutation the backend rejects always shows the backend's own message. */
  lemma BackendMessageShown(error: Error)
    ensures HandleError(error).body.JObj?
    ensures "message" in HandleError(error).body.fields
    ensures OnError(AxiosError(Some(HandleError(error).body))) == Toast(HandleError(error).body.fields["message"])
  {
  }
}
