/**
 * The retry policy of `get_gemini_response`. The remote model is an oracle:
 * `outcomes[j]` is what the `j`-th call to `generate_content` does (raise,
 * answer with nothing, or answer with some text). The loop returns the first
 * non-empty text, reports every exception, and sleeps after every attempt
 * that did not return.
 */
module GeminiClient {
  import opened Wrappers
  import opened Strings

  /** The default of the `retries` parameter. */
  const DefaultRetries: nat := 3

  /** The argument of `time.sleep` after each unsuccessful attempt, in seconds. */
  const SleepSeconds: nat := 2

  /** What one call to the model does. */
  datatype Outcome =
    | Raise(message: string)  // the call, or reading its text, raised an exception
    | Empty                   // the call returned a falsy response
    | Text(text: string)      // the call returned a response with this text

  /** What the loop does besides computing its result, in order. */
  datatype Event =
    | ErrorReport(message: string)  // `st.error(...)`
    | Sleep(seconds: nat)           // `time.sleep(...)`

  /** `if response and response.text:` accepts the outcome. */
  predicate Succeeds(o: Outcome) {
    o.Text? && o.text != ""
  }

  /** The error text for attempt number `attempt`, counting from 0. */
  function ErrorMessage(attempt: nat, message: string): (m: string)
    ensures StartsWith(m, "Attempt ")
  {
    "Attempt " + NatToString(attempt + 1) + " failed: " + message
  }

  /** The events of attempt `attempt` when it does not return. */
  function AttemptEvents(attempt: nat, o: Outcome): seq<Event> {
    if o.Raise? then [ErrorReport(ErrorMessage(attempt, o.message)), Sleep(SleepSeconds)]
    else [Sleep(SleepSeconds)]
  }

  /** The events of the first `n` attempts, none of which returned. */
  function FailureEvents(outcomes: seq<Outcome>, n: nat): seq<Event>
    requires n <= |outcomes|
    decreases n
  {
    if n == 0 then [] else FailureEvents(outcomes, n - 1) + AttemptEvents(n - 1, outcomes[n - 1])
  }

  /**
   * `get_gemini_response(input, retries)` with the model's behaviour given by
   * `outcomes`. It makes `attempts` calls; on success the last of them is the
   * first one whose text is non-empty, and that text is the response; if no
   * call succeeds, all `retries` calls are made and the response is `None`.
   */
  method GetGeminiResponse(outcomes: seq<Outcome>, retries: nat)
      returns (response: Option<string>, attempts: nat, events: seq<Event>)
    requires retries <= |outcomes|
    ensures attempts <= retries
    ensures response.Some? ==>
              && 1 <= attempts
              && Succeeds(outcomes[attempts - 1])
              && response.value == outcomes[attempts - 1].text
              && (forall j :: 0 <= j < attempts - 1 ==> !Succeeds(outcomes[j]))
              && events == FailureEvents(outcomes, attempts - 1)
    ensures response.None? ==>
              && attempts == retries
              && (forall j :: 0 <= j < retries ==> !Succeeds(outcomes[j]))
              && events == FailureEvents(outcomes, retries)
  {
    response := None;
    attempts := 0;
    events := [];
    var i := 0;
    while i < retries
      invariant i <= retries
      invariant attempts == i
      invariant forall j :: 0 <= j < i ==> !Succeeds(outcomes[j])
      invariant events == FailureEvents(outcomes, i)
    {
      var o := outcomes[i];
      attempts := i + 1;
      if o.Raise? {
        events := events + [ErrorReport(ErrorMessage(i, o.message))];
      } else if o.Text? && o.text != "" {
        response := Some(o.text);
        return;
      }
      events := events + [Sleep(SleepSeconds)];
      i := i + 1;
    }
  }

  /**
   * A call with the default number of retries against a model that never
   * answers gives up after exactly three attempts, having slept after each of
   * them and reported every exception.
   */
  method DefaultRetriesExhausted(outcomes: seq<Outcome>)
      returns (response: Option<string>, attempts: nat, events: seq<Event>)
    requires DefaultRetries <= |outcomes|
    requires forall j :: 0 <= j < DefaultRetries ==> !Succeeds(outcomes[j])
    ensures response.None? && attempts == 3
    ensures SleepCount(events) == 3 && ErrorCount(events) == RaiseCount(outcomes, 3)
  {
    response, attempts, events := GetGeminiResponse(outcomes, DefaultRetries);
    FailureEventCounts(outcomes, DefaultRetries);
  }

  // ---------------------------------------------------------------------------
  // Counting events

  /** The number of sleeps among `events`. */
  function SleepCount(events: seq<Event>): nat
    decreases |events|
  {
    if events == [] then 0 else SleepCount(events[..|events| - 1]) + (if events[|events| - 1].Sleep? then 1 else 0)
  }

  /** The number of error reports among `events`. */
  function ErrorCount(events: seq<Event>): nat
    decreases |events|
  {
    if events == [] then 0 else ErrorCount(events[..|events| - 1]) + (if events[|events| - 1].ErrorReport? then 1 else 0)
  }

  /** The number of calls among the first `n` that raised. */
  function RaiseCount(outcomes: seq<Outcome>, n: nat): nat
    requires n <= |outcomes|
    decreases n
  {
    if n == 0 then 0 else RaiseCount(outcomes, n - 1) + (if outcomes[n - 1].Raise? then 1 else 0)
  }

  lemma {:induction false} SleepCountAppend(a: seq<Event>, b: seq<Event>)
    ensures SleepCount(a + b) == SleepCount(a) + SleepCount(b)
    decreases |b|
  {
    if b == [] {
      assert a + b == a;
    } else {
      var n := |b| - 1;
      assert (a + b)[..|a + b| - 1] == a + b[..n];
      assert (a + b)[|a + b| - 1] == b[n];
      SleepCountAppend(a, b[..n]);
    }
  }

  lemma {:induction false} ErrorCountAppend(a: seq<Event>, b: seq<Event>)
    ensures ErrorCount(a + b) == ErrorCount(a) + ErrorCount(b)
    decreases |b|
  {
    if b == [] {
      assert a + b == a;
    } else {
      var n := |b| - 1;
      assert (a + b)[..|a + b| - 1] == a + b[..n];
      assert (a + b)[|a + b| - 1] == b[n];
      ErrorCountAppend(a, b[..n]);
    }
  }

  /**
   * Every attempt that does not return sleeps exactly once, and only the
   * attempts that raised report an error.
   */
  lemma FailureEventCounts(outcomes: seq<Outcome>, n: nat)
    requires n <= |outcomes|
    ensures SleepCount(FailureEvents(outcomes, n)) == n
    ensures ErrorCount(FailureEvents(outcomes, n)) == RaiseCount(outcomes, n)
  {
    FailureSleeps(outcomes, n);
    FailureErrors(outcomes, n);
  }

  lemma {:induction false} FailureSleeps(outcomes: seq<Outcome>, n: nat)
    requires n <= |outcomes|
    ensures SleepCount(FailureEvents(outcomes, n)) == n
    decreases n
  {
    if n > 0 {
      FailureSleeps(outcomes, n - 1);
      SleepCountAppend(FailureEvents(outcomes, n - 1), AttemptEvents(n - 1, outcomes[n - 1]));
      AttemptEventCounts(n - 1, outcomes[n - 1]);
    }
  }

  lemma {:induction false} FailureErrors(outcomes: seq<Outcome>, n: nat)
    requires n <= |outcomes|
    ensures ErrorCount(FailureEvents(outcomes, n)) == RaiseCount(outcomes, n)
    decreases n
  {
    if n > 0 {
      FailureErrors(outcomes, n - 1);
      ErrorCountAppend(FailureEvents(outcomes, n - 1), AttemptEvents(n - 1, outcomes[n - 1]));
      AttemptEventCounts(n - 1, outcomes[n - 1]);
    }
  }

  /** One failed attempt: one sleep, and one report if it raised. */
  lemma AttemptEventCounts(attempt: nat, o: Outcome)
    ensures SleepCount(AttemptEvents(attempt, o)) == 1
    ensures ErrorCount(AttemptEvents(attempt, o)) == if o.Raise? then 1 else 0
  {
    var step := AttemptEvents(attempt, o);
    assert step[..|step| - 1][..0] == [];
    if o.Raise? {
      assert step[..|step| - 1] == [step[0]];
      assert SleepCount([step[0]]) == 0;
      assert ErrorCount([step[0]]) == 1;
    } else {
      assert step[..|step| - 1] == [];
    }
  }

  /**
   * An error text is `Attempt `, a decimal numeral for the attempt's number
   * counted from 1, ` failed: ` and the exception's message. (Stated apart from
   * `ErrorMessage`, whose every use would otherwise carry the numeral.)
   */
  lemma ErrorMessageFormat(attempt: nat, message: string)
    ensures exists digits ::
              ErrorMessage(attempt, message) == "Attempt " + digits + " failed: " + message
              && IsNumeralOf(digits, attempt + 1)
  {
    var digits := NatToString(attempt + 1);
    assert ErrorMessage(attempt, message) == "Attempt " + digits + " failed: " + message;
    assert IsNumeralOf(digits, attempt + 1);
  }

  /**
   * Each error report names an attempt, counted from 1, whose call raised,
   * and carries that exception's message.
   */
  lemma {:induction false} ErrorReportsNameRaises(outcomes: seq<Outcome>, n: nat, e: Event)
    requires n <= |outcomes| && e in FailureEvents(outcomes, n) && e.ErrorReport?
    ensures exists j :: 0 <= j < n && outcomes[j].Raise? && e.message == ErrorMessage(j, outcomes[j].message)
    decreases n
  {
    if e in FailureEvents(outcomes, n - 1) {
      ErrorReportsNameRaises(outcomes, n - 1, e);
    } else {
      assert e in AttemptEvents(n - 1, outcomes[n - 1]);
    }
  }

  /** The events always end with a sleep when any attempt failed. */
  lemma FailureEventsEndWithSleep(outcomes: seq<Outcome>, n: nat)
    requires 0 < n <= |outcomes|
    ensures var events := FailureEvents(outcomes, n); |events| > 0 && events[|events| - 1] == Sleep(SleepSeconds)
  {
  }

  /** Two exceptions and an empty answer: two reports, three sleeps. */
  lemma ThreeFailures()
    ensures FailureEvents([Raise("quota"), Empty, Raise("timeout")], 3)
         == [ ErrorReport("Attempt 1 failed: quota"), Sleep(2), Sleep(2),
              ErrorReport("Attempt 3 failed: timeout"), Sleep(2) ]
  {
    var outcomes := [Raise("quota"), Empty, Raise("timeout")];
    assert NatToString(1) == "1" && NatToString(3) == "3";
    assert ErrorMessage(0, "quota") == "Attempt 1 failed: quota";
    assert ErrorMessage(2, "timeout") == "Attempt 3 failed: timeout";
    assert FailureEvents(outcomes, 1) == [ErrorReport("Attempt 1 failed: quota"), Sleep(2)];
    assert FailureEvents(outcomes, 2) == [ErrorReport("Attempt 1 failed: quota"), Sleep(2), Sleep(2)];
  }
}
