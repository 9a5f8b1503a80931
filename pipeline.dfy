/** The submission pipeline of the form component, as values.

    A successful save runs three synchronous stages on the captured form value:
    the `map` stage spreads it into a fresh record stamped with the counter read
    before its post-increment, the `filter` stage (whose predicate always holds)
    overwrites the record's name when the incremented counter is even, and the
    `tap` stage appends the record to the history. A failed save skips all three
    and re-signals a fresh error carrying a fixed message.

    `Step` is the effect of one event on the session state and `Run` the effect
    of a trace of events; the lemmas at the end state what holds of every trace. */
module Pipeline {

  /** The name the `filter` stage writes over every second record. */
  const RenamedTo: string := "John"

  /** The message of the error re-signalled on a failed save, whatever the cause. */
  const ErrorMessage: string := "test"

  /** What the reactive form yields as its value when it is valid. */
  datatype FormValue = FormValue(name: string, email: string)

  /** One entry of `submittedData`: the spread form value plus its `index`. */
  datatype SubmissionRecord = SubmissionRecord(name: string, email: string, index: nat)

  /** How the asynchronous save resolved. */
  datatype SaveOutcome = Saved(token: string) | SaveFailed(cause: string)

  /** What the pipeline passes on to its (absent) subscriber. */
  datatype Emission = Emitted(record: SubmissionRecord) | Rethrown(message: string)

  /** An external event: a click on submit, or the resolution of a save begun by one. */
  datatype Event =
    | Submitted(valid: bool, input: FormValue)
    | Completed(input: FormValue, outcome: SaveOutcome)

  /** The component's state: its two fields, and the form values whose saves are in flight. */
  datatype Session = Session(valuePlace: nat, submittedData: seq<SubmissionRecord>, pending: multiset<FormValue>)

  /** The state of a freshly constructed component. */
  function Initial(): Session
  {
    Session(0, [], multiset{})
  }

  /** The `map` stage: a fresh copy of the form value whose `index` is the counter before the increment. */
  function Indexed(formData: FormValue, place: nat): SubmissionRecord
  {
    SubmissionRecord(formData.name, formData.email, place)
  }

  /** The side effect of the `filter` stage, given the counter after the increment. */
  function Renamed(modifiedData: SubmissionRecord, placeAfter: nat): SubmissionRecord
  {
    if placeAfter % 2 == 0 then modifiedData.(name := RenamedTo) else modifiedData
  }

  /** The record a successful save appends when the counter stood at `place`. */
  function Processed(formData: FormValue, place: nat): SubmissionRecord
  {
    Renamed(Indexed(formData, place), place + 1)
  }

  /** The effect of one event on the session. */
  function Step(s: Session, e: Event): Session
  {
    match e
    case Submitted(valid, input) =>
      if valid then s.(pending := s.pending + multiset{input}) else s
    case Completed(input, Saved(_)) =>
      Session(s.valuePlace + 1, s.submittedData + [Processed(input, s.valuePlace)], s.pending - multiset{input})
    case Completed(input, SaveFailed(_)) =>
      s.(pending := s.pending - multiset{input})
  }

  /** The effect of a trace of events, applied from first to last. */
  function Run(s: Session, trace: seq<Event>): Session
    decreases |trace|
  {
    if trace == [] then s else Step(Run(s, trace[..|trace| - 1]), trace[|trace| - 1])
  }

  /** Whether an event is a save that resolved successfully. */
  predicate IsSuccess(e: Event)
  {
    e.Completed? && e.outcome.Saved?
  }

  /** The form values of the successful saves of a trace, in completion order. */
  function Successes(trace: seq<Event>): seq<FormValue>
    decreases |trace|
  {
    if trace == [] then []
    else
      var last := trace[|trace| - 1];
      Successes(trace[..|trace| - 1]) + (if IsSuccess(last) then [last.input] else [])
  }

  /** Running a trace extended by one event is running the trace, then that event. */
  lemma RunSnoc(s: Session, trace: seq<Event>, e: Event)
    ensures Run(s, trace + [e]) == Step(Run(s, trace), e)
    ensures Successes(trace + [e]) == Successes(trace) + (if IsSuccess(e) then [e.input] else [])
  {
  }

  /** Counter and history after any trace from a fresh component: the counter counts the
      successful saves, the k-th record (0-based, in completion order) carries index k and
      its input's email, and its name is "John" when k is odd and the input's name otherwise. */
  lemma {:induction false} RunFromStart(trace: seq<Event>)
    ensures Run(Initial(), trace).valuePlace == |Successes(trace)|
    ensures |Run(Initial(), trace).submittedData| == |Successes(trace)|
    ensures forall k :: 0 <= k < |Run(Initial(), trace).submittedData| ==>
              Run(Initial(), trace).submittedData[k].index == k &&
              Run(Initial(), trace).submittedData[k].email == Successes(trace)[k].email
    ensures forall k :: 0 <= k < |Run(Initial(), trace).submittedData| ==>
              Run(Initial(), trace).submittedData[k].name ==
                (if k % 2 == 1 then RenamedTo else Successes(trace)[k].name)
    decreases |trace|
  {
    if trace != [] {
      var prefix, e := trace[..|trace| - 1], trace[|trace| - 1];
      assert trace == prefix + [e];
      RunFromStart(prefix);
      RunSnoc(Initial(), prefix, e);
    }
  }

  /** The alternation law in both directions: when no user typed the name "John", a record
      is named "John" exactly when it is the 2nd, 4th, ... successful save. */
  lemma AlternationLaw(trace: seq<Event>, k: nat)
    requires forall i :: 0 <= i < |Successes(trace)| ==> Successes(trace)[i].name != RenamedTo
    requires k < |Successes(trace)|
    ensures k < |Run(Initial(), trace).submittedData|
    ensures Run(Initial(), trace).submittedData[k].name == RenamedTo <==> k % 2 == 1
  {
    RunFromStart(trace);
  }

  /** The history is append-only and the counter advances by one per successful save: from any
      state, every earlier entry stays where it was and exactly the successful saves are appended. */
  lemma {:induction false} RunAppendOnly(s: Session, trace: seq<Event>)
    ensures s.submittedData <= Run(s, trace).submittedData
    ensures |Run(s, trace).submittedData| == |s.submittedData| + |Successes(trace)|
    ensures Run(s, trace).valuePlace == s.valuePlace + |Successes(trace)|
    decreases |trace|
  {
    if trace != [] {
      var prefix, e := trace[..|trace| - 1], trace[|trace| - 1];
      assert trace == prefix + [e];
      RunAppendOnly(s, prefix);
      RunSnoc(s, prefix, e);
    }
  }

  /** Submitting an invalid form, any number of times, changes nothing at all. */
  lemma {:induction false} RejectionsChangeNothing(s: Session, trace: seq<Event>)
    requires forall i :: 0 <= i < |trace| ==> trace[i] == Submitted(false, trace[i].input)
    ensures Run(s, trace) == s
    decreases |trace|
  {
    if trace != [] {
      RejectionsChangeNothing(s, trace[..|trace| - 1]);
    }
  }

  /** Running two traces back to back is running their concatenation. */
  lemma {:induction false} RunConcat(s: Session, first: seq<Event>, second: seq<Event>)
    ensures Run(s, first + second) == Run(Run(s, first), second)
    decreases |second|
  {
    if second == [] {
      assert first + second == first;
    } else {
      var prefix, e := second[..|second| - 1], second[|second| - 1];
      assert second == prefix + [e];
      assert first + second == (first + prefix) + [e];
      RunConcat(s, first, prefix);
      RunSnoc(s, first + prefix, e);
      RunSnoc(Run(s, first), prefix, e);
    }
  }

  /** Counter and history evolve independently of which saves are still in flight. */
  lemma {:induction false} RunIgnoresPending(s1: Session, s2: Session, trace: seq<Event>)
    requires s1.valuePlace == s2.valuePlace && s1.submittedData == s2.submittedData
    ensures Run(s1, trace).valuePlace == Run(s2, trace).valuePlace
    ensures Run(s1, trace).submittedData == Run(s2, trace).submittedData
    decreases |trace|
  {
    if trace != [] {
      RunIgnoresPending(s1, s2, trace[..|trace| - 1]);
    }
  }

  /** A failed save leaves counter and history as if it had never happened, for whatever follows. */
  lemma FailureIsolation(s: Session, input: FormValue, cause: string, trace: seq<Event>)
    ensures Run(s, [Completed(input, SaveFailed(cause))] + trace).valuePlace == Run(s, trace).valuePlace
    ensures Run(s, [Completed(input, SaveFailed(cause))] + trace).submittedData == Run(s, trace).submittedData
  {
    var failed := [Completed(input, SaveFailed(cause))];
    RunConcat(s, failed, trace);
    RunSnoc(s, [], failed[0]);
    assert [] + failed == failed;
    RunIgnoresPending(Run(s, failed), s, trace);
  }
}
