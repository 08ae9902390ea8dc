/** The registration component itself (app/components/a.tsx:96-143,
    399-460, 462-654): its state hooks as the fields of a class, and the
    change, blur and submit handlers as the methods that update them. The
    clock and the store are inputs of the submit handler. */
module Component {
  import opened Form
  import opened Validation
  import opened Saga

  /** The closing instant of submissions, in milliseconds since the epoch:
      11 July 2025, 12:00 at UTC-3 (15:00 UTC). A submission at exactly this
      instant is still accepted. */
  const MaxSubmissionDate := 1752246000000

  const FixErrors := "Por favor, corrija os erros no formulário antes de enviar."
  const DeadlinePassed := "O prazo para envio foi encerrado."
  const SentStatus := "Formulário enviado com sucesso! \U{1F389}"
  const SentModal := "Formulário enviado com sucesso!"

  /** The tone of a message: "success", "error" or none. */
  datatype Tone = Positive | Negative | Neutral

  /** A status or modal message. */
  datatype Status = Status(message: string, tone: Tone)

  const NoStatus := Status("", Neutral)

  /** Everything the handlers can change, as one value. */
  datatype Screen = Screen(
    form: FormData, errors: Errors, touched: set<Field>,
    submitted: bool, submitting: bool, status: Status, modal: Status)

  /** The errors on display are those of the form on display, once a
      submission has been attempted. */
  predicate Consistent(s: Screen) {
    s.submitted ==> s.errors == ValidateForm(s.form)
  }

  /** What a submission leaves on screen, and the calls it made to the store. */
  datatype Submission = Submission(screen: Screen, trace: seq<StoreCall>)

  /** The submit handler as a function of the screen before it, the instant
      it runs at and the store's answers: every key is marked touched and the
      form validated; a form with errors, or one sent after the deadline, is
      stopped before the store is called; otherwise the outcome of the store
      work picks the messages, and success clears the form. */
  function Submit(s: Screen, now: int, store: StoreScript, names: seq<string>): Submission
    requires Covers(s.form, store, names)
  {
    var errors := ValidateForm(s.form);
    var marked := s.(errors := errors, touched := AllFields, submitted := true, submitting := false);
    if errors != map[] then
      Submission(marked.(status := Status(FixErrors, Negative)), [])
    else if now > MaxSubmissionDate then
      Submission(marked.(status := Status(DeadlinePassed, Negative)), [])
    else Settled(marked, Saga.Saga(s.form, store, names))
  }

  /** The screen after the store work of a submission: success clears the
      form, a failure shows its description in the status line and the modal. */
  function Settled(marked: Screen, run: Run): Submission {
    match run.outcome
    case Success =>
      Submission(Screen(EmptyForm, map[], {}, false, false,
                        Status(SentStatus, Positive), Status(SentModal, Positive)), run.trace)
    case Failure(p) =>
      Submission(marked.(status := Status(Describe(p), Negative), modal := Status(Describe(p), Negative)),
                 run.trace)
  }

  /** The component's state hooks. */
  class CadastroForm {
    var form: FormData
    var validationErrors: Errors
    var touched: set<Field>
    var isSubmitted: bool
    var isSubmitting: bool
    var statusMessage: Status
    var modalMessage: Status

    function State(): Screen
      reads this
    {
      Screen(form, validationErrors, touched, isSubmitted, isSubmitting, statusMessage, modalMessage)
    }

    /** The state the component mounts with. */
    constructor ()
      ensures State() == Screen(EmptyForm, map[], {}, false, false, NoStatus, NoStatus)
      ensures Consistent(State())
    {
      form := EmptyForm;
      validationErrors := map[];
      touched := {};
      isSubmitted := false;
      isSubmitting := false;
      statusMessage := NoStatus;
      modalMessage := NoStatus;
    }

    /** `handleChange`: apply the updater, revalidate the updated form once a
        submission has been attempted, and mark the key touched. */
    method HandleChange(c: Change)
      modifies this
      ensures form == Updated(old(form), c)
      ensures validationErrors == if isSubmitted then ValidateForm(form) else old(validationErrors)
      ensures touched == old(touched) + {Target(c)}
      ensures isSubmitted == old(isSubmitted) && isSubmitting == old(isSubmitting)
      ensures statusMessage == old(statusMessage) && modalMessage == old(modalMessage)
      ensures old(Consistent(State())) ==> Consistent(State())
    {
      var updated := Updated(form, c);
      if isSubmitted {
        validationErrors := ValidateForm(updated);
      }
      form := updated;
      touched := touched + {Target(c)};
    }

    /** `handleBlur`: mark the key touched and revalidate the form once a
        submission has been attempted. */
    method HandleBlur(k: Field)
      modifies this
      ensures touched == old(touched) + {k}
      ensures validationErrors == if isSubmitted then ValidateForm(form) else old(validationErrors)
      ensures form == old(form) && isSubmitted == old(isSubmitted) && isSubmitting == old(isSubmitting)
      ensures statusMessage == old(statusMessage) && modalMessage == old(modalMessage)
      ensures old(Consistent(State())) ==> Consistent(State())
    {
      touched := touched + {k};
      if isSubmitted {
        validationErrors := ValidateForm(form);
      }
    }

    /** `closeModal`: dismiss the modal message. */
    method CloseModal()
      modifies this
      ensures State() == old(State()).(modal := NoStatus)
    {
      modalMessage := NoStatus;
    }

    /** The store work of a submission that passed the guards, and the
        messages and reset that follow it; the button is enabled again. */
    method SendToStore(store: StoreScript, names: seq<string>) returns (trace: seq<StoreCall>)
      requires Covers(form, store, names)
      modifies this
      ensures Submission(State(), trace)
        == Settled(old(State()).(submitting := false), Saga.Saga(old(form), store, names))
    {
      var outcome;
      outcome, trace := RunSaga(form, store, names);
      match outcome {
        case Success =>
          statusMessage := Status(SentStatus, Positive);
          modalMessage := Status(SentModal, Positive);
          form := EmptyForm;
          validationErrors := map[];
          touched := {};
          isSubmitted := false;
        case Failure(p) =>
          statusMessage := Status(Describe(p), Negative);
          modalMessage := Status(Describe(p), Negative);
      }
      isSubmitting := false;
    }

    /** `handleSubmit`, run at instant `now` against the store's answers;
        returns the calls made to the store. */
    method HandleSubmit(now: int, store: StoreScript, names: seq<string>) returns (trace: seq<StoreCall>)
      requires Covers(form, store, names)
      modifies this
      ensures Submission(State(), trace) == Submit(old(State()), now, store, names)
      ensures !isSubmitting && Consistent(State())
    {
      ghost var before := State();
      isSubmitted := true;
      isSubmitting := true;
      touched := AllFields;
      var errors := ValidateForm(form);
      validationErrors := errors;
      trace := [];
      if errors != map[] {
        statusMessage := Status(FixErrors, Negative);
        isSubmitting := false;
      } else if now > MaxSubmissionDate {
        statusMessage := Status(DeadlinePassed, Negative);
        isSubmitting := false;
      } else {
        statusMessage := NoStatus;
        trace := SendToStore(store, names);
      }
      SubmitConsistent(before, now, store, names);
    }
  }

  // ---------------------------------------------------------------------
  // What a submission promises.
  // ---------------------------------------------------------------------

  /** A form with errors is stopped first, whatever the time: the errors are
      shown, every key is marked touched, and the store is not called. */
  lemma ErrorsStopFirst(s: Screen, now: int, store: StoreScript, names: seq<string>)
    requires Covers(s.form, store, names) && !Acceptable(s.form)
    ensures var r := Submit(s, now, store, names);
      r.trace == [] && r.screen.status == Status(FixErrors, Negative)
      && r.screen.errors == ValidateForm(s.form) && r.screen.errors != map[]
      && r.screen.form == s.form && r.screen.touched == AllFields && r.screen.modal == s.modal
  {
    NoErrorsIffAcceptable(s.form);
  }

  /** An acceptable form sent after the deadline is stopped without calling the store. */
  lemma LateFormStopped(s: Screen, now: int, store: StoreScript, names: seq<string>)
    requires Covers(s.form, store, names) && Acceptable(s.form) && now > MaxSubmissionDate
    ensures var r := Submit(s, now, store, names);
      r.trace == [] && r.screen.status == Status(DeadlinePassed, Negative)
      && r.screen.errors == map[] && r.screen.form == s.form && r.screen.modal == s.modal
  {
    NoErrorsIffAcceptable(s.form);
  }

  /** The store is called, starting with the insert of the form's record,
      exactly when the form is acceptable and the deadline has not passed;
      the deadline instant itself is still in time. */
  lemma StoreCalledIff(s: Screen, now: int, store: StoreScript, names: seq<string>)
    requires Covers(s.form, store, names)
    ensures var r := Submit(s, now, store, names);
      (r.trace != [] <==> Acceptable(s.form) && now <= MaxSubmissionDate)
      && (r.trace != [] ==> r.trace[0] == InsertRow(RowOf(s.form)))
  {
    NoErrorsIffAcceptable(s.form);
  }

  /** A submission succeeds exactly when the form is acceptable, it is in
      time, the insert returns a record, every queued upload is stored and
      the path update (made only when something was uploaded) succeeds. */
  lemma SubmitSucceedsIff(s: Screen, now: int, store: StoreScript, names: seq<string>)
    requires Covers(s.form, store, names)
    ensures var plan := UploadPlan(s.form);
      Submit(s, now, store, names).screen.status.tone == Positive <==>
        Acceptable(s.form) && now <= MaxSubmissionDate
        && store.insert.Inserted?
        && (forall j :: 0 <= j < |plan| ==> store.uploads[j].Stored?)
        && (|plan| == 0 || store.update.Ok?)
  {
    NoErrorsIffAcceptable(s.form);
    SuccessIff(s.form, store, names);
  }

  /** A successful submission clears the form, its errors and its touched
      keys, and shows the success message in the status line and the modal. */
  lemma SuccessClears(s: Screen, now: int, store: StoreScript, names: seq<string>)
    requires Covers(s.form, store, names)
    requires Submit(s, now, store, names).screen.status.tone == Positive
    ensures var r := Submit(s, now, store, names).screen;
      r.form == EmptyForm && r.errors == map[] && r.touched == {} && !r.submitted
      && r.status.message == SentStatus && r.modal == Status(SentModal, Positive)
  {
  }

  /** A failed submission keeps what the user typed, marks every key touched
      and reports an error; when the store was reached, the modal shows the
      same message as the status line. */
  lemma FailureKeepsForm(s: Screen, now: int, store: StoreScript, names: seq<string>)
    requires Covers(s.form, store, names)
    ensures var r := Submit(s, now, store, names);
      r.screen.status.tone != Positive ==>
        r.screen.form == s.form && r.screen.touched == AllFields && r.screen.submitted
        && r.screen.status.tone == Negative
        && (r.trace != [] ==> r.screen.modal == r.screen.status)
  {
  }

  /** A failure after the store was reached shows why: the description of
      the saga's problem, which is the clean-up message exactly when the
      record could not be deleted. */
  lemma StoreFailureMessage(s: Screen, now: int, store: StoreScript, names: seq<string>)
    requires Covers(s.form, store, names)
    requires Acceptable(s.form) && now <= MaxSubmissionDate
    requires Saga.Saga(s.form, store, names).outcome.Failure?
    ensures var r := Submit(s, now, store, names).screen;
      r.status == Status(Describe(Saga.Saga(s.form, store, names).outcome.problem), Negative)
      && r.errors == map[]
  {
    NoErrorsIffAcceptable(s.form);
  }

  /** Whatever happens, the errors left on display belong to the form left
      on display, and the submit button is enabled again. */
  lemma SubmitConsistent(s: Screen, now: int, store: StoreScript, names: seq<string>)
    requires Covers(s.form, store, names)
    ensures var r := Submit(s, now, store, names).screen;
      Consistent(r) && !r.submitting
  {
  }
}
