# Form submission pipeline

A model of the submit action of the Angular `FormComponent`. The component keeps two
fields, the history `submittedData` and the counter `valuePlace`, which starts at 0.
`submitForm` does nothing when the form is invalid. Otherwise it starts an asynchronous
save of the form's value and pipes the save's resolution through four RxJS operators:

- `map` builds a fresh record `{...formData, index: valuePlace++}`. The index is the
  counter before the increment.
- `filter` overwrites the record's `name` with `"John"` when the incremented counter is
  even. Its predicate always returns `true`, so no record is dropped.
- `tap` appends the record to `submittedData` and resets the form.
- `catchError` handles a failed save: it skips the three stages above and re-signals a
  fresh `Error('test')`.

The model has two modules:

- `Pipeline` (`pipeline.dfy`) holds the values: the form value, the record, the outcome
  of a save, an external event (a submit click or a save's resolution) and the session
  state. `Step` gives the effect of one event on the session state. `Run` gives the effect
  of a trace of events. The lemmas state what holds of every trace.
- `Form` (`form.dfy`) holds the class `FormComponent`. Its real fields `submittedData`
  and `valuePlace` are updated in place. It also has ghost fields: the multiset of saves
  in flight, the number of form resets and the trace of events seen so far. `SubmitForm`
  is the validity gate. `OnSaveOutcome` is the save's resolution. Each method states its
  whole new state and ties it to `Step`. The class invariant `Valid()` says the state is
  `Run` of the trace from a fresh component, so every lemma about `Run` applies to the
  object. Three client methods work through concrete scenarios on a fresh object.

Several saves may be in flight at once. The counter is read when a save resolves, so
indices follow the order in which saves complete, not the order of the clicks. The model
therefore treats any interleaving of `SubmitForm` and `OnSaveOutcome` calls as a trace.

## Model

| member | source | states |
|---|---|---|
| `Form.FormComponent.constructor` | src/app/form/form.component.ts:15-16 | a new component has an empty history, counter 0 and no save in flight |
| `Form.FormComponent.SubmitForm` | src/app/form/form.component.ts:29-34 | an invalid form changes nothing; a valid one only adds its value to the saves in flight; history and counter are untouched either way |
| `Form.FormComponent.OnSaveOutcome` | src/app/form/form.component.ts:33-52 | on success the appended record has index = counter before the call, the input's email, and the name "John" iff the counter after the call is even (else the input's name); the counter grows by exactly 1; the history grows by exactly that record; the form is reset once; on failure history and counter are unchanged and the result is an error with message "test" whatever the cause |
| `Pipeline.RunFromStart` | src/app/form/form.component.ts:15-43 | from a fresh component, after any trace the counter equals the number of successful saves; the k-th record has index k and its input's email; its name is "John" when k is odd and the input's name when k is even |
| `Pipeline.AlternationLaw` | src/app/form/form.component.ts:36-39 | when no input is named "John", the k-th record is named "John" if and only if k is odd (the 2nd, 4th, ... successful saves) |
| `Pipeline.RunAppendOnly` | src/app/form/form.component.ts:35-43 | from any state, every earlier history entry stays at its position; exactly one record per successful save is appended; the counter grows by the number of successful saves |
| `Pipeline.RejectionsChangeNothing` | src/app/form/form.component.ts:30 | any number of invalid submissions leave the whole state unchanged |
| `Pipeline.FailureIsolation` | src/app/form/form.component.ts:47-49 | a failed save leaves counter and history exactly as if it had not occurred, for any events that follow it |
| `Pipeline.RunIgnoresPending` | src/app/form/form.component.ts:33-43 | counter and history after a trace do not depend on which other saves are in flight |
| `Form.SequentialSubmissions` | src/app/form/form.component.ts:35-43 | Alice, Bob and Cara, each awaited, give [Alice/0, John/1, Cara/2] and counter 3 |
| `Form.CompletionOrder` | src/app/form/form.component.ts:33-35 | when Bob's save resolves before Alice's, Bob gets index 0 and Alice index 1 and is renamed "John" |
| `Form.RejectionAndFailure` | src/app/form/form.component.ts:30-49 | an empty-name rejection and a failed save leave history and counter empty; the failure yields error "test"; a later save still records index 0 |

## Left out

- Validity: Angular's `Validators.required` and `Validators.email` are library code. The model takes validity as a boolean argument of `SubmitForm`.
- The save itself (`saveUserData`'s promise and one-second timer) and RxJS subscription and scheduling: the outcome of a save is an argument of `OnSaveOutcome`. The model does not enforce that each save resolves exactly once. It only removes one copy of the value from the saves in flight.
- `this.userForm.reset()`: modelled only as the ghost count `resets`. The reactive form's internal state is not modelled.
- `console.log` and `console.error`: diagnostics only, not modelled.
- The re-signalled error: no subscriber observes it, so the model returns it from `OnSaveOutcome` as `Rethrown("test")`. The original cause is dropped.
- The modal dialog (`open`, `NgbModal`) and the module wiring in src/app/app.module.ts: presentation with no logic.
- `valuePlace` is a JavaScript `number` (a double). The model uses an unbounded `nat`, so it does not capture the loss of integer precision above 2^53 increments.
- Records are modelled as values, not shared objects. The `filter` stage renames the fresh spread copy; with values, that rename cannot reach the captured form value, which matches the source. The model does not capture aliasing of the records held in `submittedData`; nothing in the component mutates a record after it is pushed.
