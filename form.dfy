/** The form component itself: the two fields that `submitForm` updates in place,
    the validity gate, and the completion of a save begun by that gate. */
module Form {
  import opened Pipeline

  class FormComponent {
    /** The history of recorded submissions, appended to by the `tap` stage. */
    var submittedData: seq<SubmissionRecord>
    /** The counter read and post-incremented by the `map` stage. */
    var valuePlace: nat
    /** Form values whose save has begun and not yet resolved. */
    ghost var pending: multiset<FormValue>
    /** How many times the `tap` stage reset the form. */
    ghost var resets: nat
    /** Every event the component has seen since construction, in order. */
    ghost var trace: seq<Event>

    /** The component's state as a value. */
    ghost function Snapshot(): Session
      reads this
    {
      Session(valuePlace, submittedData, pending)
    }

    /** The component's invariant: its state is what the events it saw produce from a
        fresh component, and the form was reset once per recorded submission. */
    ghost predicate Valid()
      reads this
    {
      Snapshot() == Run(Initial(), trace) && resets == |submittedData|
    }

    /** A fresh component: counter 0, empty history, nothing in flight. */
    constructor ()
      ensures Valid() && trace == []
      ensures Snapshot() == Initial() && resets == 0
    {
      submittedData := [];
      valuePlace := 0;
      pending := multiset{};
      resets := 0;
      trace := [];
    }

    /** A click on submit. An invalid form is a silent no-op; a valid one begins a save
        of the form's current value, whose resolution arrives later through OnSaveOutcome. */
    method SubmitForm(valid: bool, formData: FormValue)
      requires Valid()
      modifies this
      ensures Valid() && trace == old(trace) + [Submitted(valid, formData)]
      ensures Snapshot() == Step(old(Snapshot()), Submitted(valid, formData))
      ensures valuePlace == old(valuePlace) && submittedData == old(submittedData)
      ensures pending == if valid then old(pending) + multiset{formData} else old(pending)
      ensures resets == old(resets)
    {
      RunSnoc(Initial(), trace, Submitted(valid, formData));
      if valid {
        pending := pending + multiset{formData};
      }
      trace := trace + [Submitted(valid, formData)];
    }

    /** The resolution of a save begun by SubmitForm. On success the `map`, `filter` and `tap`
        stages run in that order and the recorded record is emitted; on failure none of them
        runs and a fresh error with the fixed message is re-signalled. */
    method OnSaveOutcome(formData: FormValue, outcome: SaveOutcome) returns (r: Emission)
      requires Valid() && formData in pending
      modifies this
      ensures Valid() && trace == old(trace) + [Completed(formData, outcome)]
      ensures Snapshot() == Step(old(Snapshot()), Completed(formData, outcome))
      ensures pending == old(pending) - multiset{formData}
      ensures outcome.Saved? ==>
                && r == Emitted(Processed(formData, old(valuePlace)))
                && valuePlace == old(valuePlace) + 1
                && submittedData == old(submittedData) + [r.record]
                && r.record.index == old(valuePlace)
                && r.record.email == formData.email
                && r.record.name == (if valuePlace % 2 == 0 then RenamedTo else formData.name)
                && resets == old(resets) + 1
      ensures outcome.SaveFailed? ==>
                && valuePlace == old(valuePlace)
                && submittedData == old(submittedData)
                && r == Rethrown(ErrorMessage)
                && resets == old(resets)
    {
      RunSnoc(Initial(), trace, Completed(formData, outcome));
      pending := pending - multiset{formData};
      match outcome {
        case Saved(_) =>
          // map: {...formData, index: this.valuePlace++}
          var modifiedData := SubmissionRecord(formData.name, formData.email, valuePlace);
          valuePlace := valuePlace + 1;
          // filter: the predicate renames on an even counter and always keeps the record
          if valuePlace % 2 == 0 {
            modifiedData := modifiedData.(name := RenamedTo);
          }
          // tap: append, then reset the form
          submittedData := submittedData + [modifiedData];
          resets := resets + 1;
          r := Emitted(modifiedData);
        case SaveFailed(_) =>
          r := Rethrown(ErrorMessage);
      }
      trace := trace + [Completed(formData, outcome)];
    }
  }

  /** Three valid submissions, each awaited before the next: the second is renamed. */
  method SequentialSubmissions() returns (history: seq<SubmissionRecord>, counter: nat)
    ensures history == [
      SubmissionRecord("Alice", "a@x.com", 0),
      SubmissionRecord("John", "b@x.com", 1),
      SubmissionRecord("Cara", "c@x.com", 2)]
    ensures counter == 3
  {
    var form := new FormComponent();
    var alice, bob, cara := FormValue("Alice", "a@x.com"), FormValue("Bob", "b@x.com"), FormValue("Cara", "c@x.com");
    form.SubmitForm(true, alice);
    var _ := form.OnSaveOutcome(alice, Saved("Data saved successfully"));
    assert form.valuePlace == 1;
    form.SubmitForm(true, bob);
    var _ := form.OnSaveOutcome(bob, Saved("Data saved successfully"));
    assert form.valuePlace == 2;
    form.SubmitForm(true, cara);
    var _ := form.OnSaveOutcome(cara, Saved("Data saved successfully"));
    history, counter := form.submittedData, form.valuePlace;
  }

  /** Two saves in flight that resolve in the opposite order: indices follow completion, so the
      later submission gets index 0 and the earlier one, completing second, is renamed. */
  method CompletionOrder() returns (history: seq<SubmissionRecord>)
    ensures history == [
      SubmissionRecord("Bob", "b@x.com", 0),
      SubmissionRecord("John", "a@x.com", 1)]
  {
    var form := new FormComponent();
    var alice, bob := FormValue("Alice", "a@x.com"), FormValue("Bob", "b@x.com");
    form.SubmitForm(true, alice);
    form.SubmitForm(true, bob);
    var _ := form.OnSaveOutcome(bob, Saved("Data saved successfully"));
    var _ := form.OnSaveOutcome(alice, Saved("Data saved successfully"));
    history := form.submittedData;
  }

  /** A rejected submission (the required name is empty) and a failed save leave the component
      as constructed, and a later submission still succeeds with index 0. */
  method RejectionAndFailure() returns (afterRejection: nat, failure: Emission, history: seq<SubmissionRecord>)
    ensures afterRejection == 0
    ensures failure == Rethrown("test")
    ensures history == [SubmissionRecord("Cara", "c@x.com", 0)]
  {
    var form := new FormComponent();
    var nameless, bob, cara := FormValue("", "a@x.com"), FormValue("Bob", "b@x.com"), FormValue("Cara", "c@x.com");
    form.SubmitForm(false, nameless);
    afterRejection := |form.submittedData| + form.valuePlace;
    form.SubmitForm(true, bob);
    failure := form.OnSaveOutcome(bob, SaveFailed("network down"));
    form.SubmitForm(true, cara);
    var _ := form.OnSaveOutcome(cara, Saved("Data saved successfully"));
    history := form.submittedData;
  }
}
