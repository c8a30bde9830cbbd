/**
 * The registration form component: its state (`formData`, `file`,
 * `submitting`), the input and file handlers, and `handleSubmit`, which runs
 * the checks in a fixed order (phone, duplicate e-mail, team size), uploads
 * the file when the event asks for one, submits through the hook, and
 * resets the form after an accepted registration.
 */
module RegistrationForm {
  import opened Wrappers
  import opened Catalog
  import opened Intake
  import opened Backend
  import opened RegistrationsHook

  /** How one submission ends (the message the user is shown). */
  datatype Outcome =
    | InvalidPhone
    | EmailTaken
    | TeamSizeExceeded
    | UploadFailed(error: StoreError)
    | Failed(message: string)
    | Registered(row: Registration)

  /** The backend's answers to the requests one submission may make. */
  datatype Replies = Replies(
    lookup: Option<StoreError>,
    upload: Option<StoreError>,
    now: string,
    insert: InsertReply,
    email: Option<StoreError>,
    refetch: Option<StoreError>)

  /** Everything one submission does besides the form reset. */
  datatype Effect = Effect(outcome: Outcome, calls: seq<Call>, rows: seq<Registration>, view: ViewState)

  /** The storage key of an upload: e-mail, upload time and file name; it
      starts with the e-mail and ends with the file's own name. */
  function UploadKey(email: string, now: string, file: File): (key: string)
    ensures |key| == |email| + 1 + |now| + 1 + |file.name|
    ensures key[..|email|] == email && key[|email|] == '-'
    ensures key[|key| - |file.name|..] == file.name && key[|key| - |file.name| - 1] == '-'
  {
    email + "-" + now + "-" + file.name
  }

  /** The event wants a file and one is selected. */
  predicate UploadsFile(config: EventConfig, file: Option<File>)
  {
    config.requiresFile && file.Some?
  }

  /**
   * `handleSubmit` on form `fd` with `file` selected, for `event` with
   * configuration `config`, against hook state `v` and table `rows`.
   * The e-mail function's reply `r.email` does not occur: it never matters.
   */
  function SubmitFlow(fd: FormData, file: Option<File>, config: EventConfig, event: EventName,
                      v: ViewState, rows: seq<Registration>, r: Replies): Effect
    requires fd.year in YearOptions
  {
    if PhoneRejected(fd.phone) then Effect(InvalidPhone, [], rows, v)
    else
      var lookup := [SelectByEmail(fd.email)];
      if EmailExists(rows, fd.email, r.lookup) then Effect(EmailTaken, lookup, rows, v)
      else if TeamTooLarge(config, fd.teamMember3) then Effect(TeamSizeExceeded, lookup, rows, v)
      else if UploadsFile(config, file) && r.upload.Some? then
        Effect(UploadFailed(r.upload.value),
               lookup + [UploadObject(UploadKey(fd.email, r.now, file.value))], rows, v)
      else
        var upload := if UploadsFile(config, file) then [UploadObject(UploadKey(fd.email, r.now, file.value))] else [];
        var path := if UploadsFile(config, file) then Some(UploadKey(fd.email, r.now, file.value)) else None;
        var s := SubmitSpec(v, rows, RecordOf(fd, event, path), r.insert, r.refetch);
        var outcome := match s.result
          case Submitted(row) => Registered(row)
          case NotSubmitted(message) => Failed(message);
        Effect(outcome, lookup + upload + s.calls, s.rows, s.view)
  }

  /** The phone check comes first: a bad phone is refused before any request
      is made, and only a bad phone is refused this way. */
  lemma PhoneCheckedFirst(fd: FormData, file: Option<File>, config: EventConfig, event: EventName,
                          v: ViewState, rows: seq<Registration>, r: Replies)
    requires fd.year in YearOptions
    ensures var e := SubmitFlow(fd, file, config, event, v, rows, r);
      (e.outcome == InvalidPhone <==> PhoneRejected(fd.phone)) &&
      (PhoneRejected(fd.phone) ==> e.calls == [] && e.rows == rows && e.view == v)
  {
  }

  /** A registered e-mail stops the submission after the lookup: no team
      check, no upload, no insert. */
  lemma DuplicateEmailStops(fd: FormData, file: Option<File>, config: EventConfig, event: EventName,
                            v: ViewState, rows: seq<Registration>, r: Replies)
    requires fd.year in YearOptions
    requires !PhoneRejected(fd.phone) && EmailExists(rows, fd.email, r.lookup)
    ensures var e := SubmitFlow(fd, file, config, event, v, rows, r);
      e.outcome == EmailTaken && e.calls == [SelectByEmail(fd.email)] && e.rows == rows && e.view == v
  {
  }

  /** Past the phone and e-mail checks, the team-size refusal happens iff
      the event takes two members and a third one is filled in. */
  lemma TeamSizeRefusedIff(fd: FormData, file: Option<File>, config: EventConfig, event: EventName,
                           v: ViewState, rows: seq<Registration>, r: Replies)
    requires fd.year in YearOptions
    requires !PhoneRejected(fd.phone) && !EmailExists(rows, fd.email, r.lookup)
    ensures var e := SubmitFlow(fd, file, config, event, v, rows, r);
      (e.outcome == TeamSizeExceeded <==> TeamTooLarge(config, fd.teamMember3)) &&
      (e.outcome == TeamSizeExceeded ==> e.calls == [SelectByEmail(fd.email)] && e.rows == rows)
  {
  }

  /** An insert is made only after all three checks passed and, when a file
      is due, after it was stored; the inserted record carries the form, the
      selected event and the upload path, or no path when no file is due. */
  lemma InsertedRecord(fd: FormData, file: Option<File>, config: EventConfig, event: EventName,
                       v: ViewState, rows: seq<Registration>, r: Replies, row: Registration)
    requires fd.year in YearOptions
    requires InsertRow(row) in SubmitFlow(fd, file, config, event, v, rows, r).calls
    ensures !PhoneRejected(fd.phone) && !EmailExists(rows, fd.email, r.lookup)
    ensures !TeamTooLarge(config, fd.teamMember3)
    ensures UploadsFile(config, file) ==> r.upload.None?
    ensures FormOf(row) == fd && row.eventName == Label(event)
    ensures row.uploadedFilePath ==
      if UploadsFile(config, file) then Some(UploadKey(fd.email, r.now, file.value)) else None
  {
    var e := SubmitFlow(fd, file, config, event, v, rows, r);
    var path := if UploadsFile(config, file) then Some(UploadKey(fd.email, r.now, file.value)) else None;
    assert row == RecordOf(fd, event, path);
    RecordCarriesForm(fd, event, path);
  }

  /** An upload request is made iff the checks passed and the event wants a
      file that is selected. */
  lemma UploadOnlyWhenDue(fd: FormData, file: Option<File>, config: EventConfig, event: EventName,
                          v: ViewState, rows: seq<Registration>, r: Replies)
    requires fd.year in YearOptions
    ensures var e := SubmitFlow(fd, file, config, event, v, rows, r);
      (exists k | 0 <= k < |e.calls| :: e.calls[k].UploadObject?) <==>
      (!PhoneRejected(fd.phone) && !EmailExists(rows, fd.email, r.lookup) &&
       !TeamTooLarge(config, fd.teamMember3) && UploadsFile(config, file))
  {
    var e := SubmitFlow(fd, file, config, event, v, rows, r);
    if !PhoneRejected(fd.phone) && !EmailExists(rows, fd.email, r.lookup) &&
       !TeamTooLarge(config, fd.teamMember3) && UploadsFile(config, file) {
      assert e.calls[1].UploadObject?;
    }
  }

  /** An accepted registration is in front of the table and has the form's
      fields; the e-mail function's reply plays no part. */
  lemma RegisteredIsStored(fd: FormData, file: Option<File>, config: EventConfig, event: EventName,
                           v: ViewState, rows: seq<Registration>, r: Replies)
    requires fd.year in YearOptions
    requires SubmitFlow(fd, file, config, event, v, rows, r).outcome.Registered?
    ensures var e := SubmitFlow(fd, file, config, event, v, rows, r);
      e.rows == [e.outcome.row] + rows && FormOf(e.outcome.row) == fd &&
      e.outcome.row.eventName == Label(event) &&
      e.outcome.row.id.Some? && e.outcome.row.createdAt.Some?
  {
    var path := if UploadsFile(config, file) then Some(UploadKey(fd.email, r.now, file.value)) else None;
    RecordCarriesForm(fd, event, path);
  }

  class Form {
    const selectedEvent: EventName
    const config: EventConfig
    /** Set while the selected event's category is full: every control is inert. */
    const isDisabled: bool
    /** The component's own instance of the registrations hook. */
    const view: RegistrationsView
    var formData: FormData
    var file: Option<File>
    var submitting: bool

    constructor (selectedEvent: EventName, config: EventConfig, isDisabled: bool, view: RegistrationsView)
      requires config.name == selectedEvent
      ensures this.selectedEvent == selectedEvent && this.config == config
      ensures this.isDisabled == isDisabled && this.view == view
      ensures formData == EmptyForm && file.None? && !submitting
    {
      this.selectedEvent := selectedEvent;
      this.config := config;
      this.isDisabled := isDisabled;
      this.view := view;
      formData := EmptyForm;
      file := None;
      submitting := false;
    }

    /** `handleInputChange(field, value)`. */
    method InputChange(field: Field, value: string)
      requires !isDisabled
      modifies this`formData
      ensures formData == Set(old(formData), field, value)
    {
      formData := Set(formData, field, value);
    }

    /** The phone input's `onChange`: sanitise, then store. */
    method PhoneInput(raw: string)
      requires !isDisabled
      modifies this`formData
      ensures formData == Set(old(formData), Phone, SanitizePhone(raw))
      ensures Text.AllDigits(formData.phone) && |formData.phone| <= 10
    {
      InputChange(Phone, SanitizePhone(raw));
    }

    /** `handleFileChange`: an allowed file replaces the selection; a refused
        file, or no file, leaves it as it was. */
    method FileChange(selected: Option<File>)
      requires !isDisabled
      modifies this`file
      ensures file == if selected.Some? && FileTypeAllowed(selected.value.mimeType) then selected else old(file)
    {
      if selected.Some? {
        if FileTypeAllowed(selected.value.mimeType) {
          file := selected;
        }
      }
    }

    /** `handleSubmit`. */
    method HandleSubmit(r: Replies) returns (outcome: Outcome)
      requires !isDisabled && view.Valid()
      requires formData.year in YearOptions
      modifies this, view, view.backend
      ensures view.Valid()
      ensures var e := SubmitFlow(old(formData), old(file), config, selectedEvent,
                                  old(view.State()), old(view.backend.rows), r);
        outcome == e.outcome && view.backend.rows == e.rows &&
        view.backend.calls == old(view.backend.calls) + e.calls && view.State() == e.view
      ensures formData == if outcome.Registered? then EmptyForm else old(formData)
      ensures file == if outcome.Registered? then None else old(file)
      ensures !submitting
    {
      submitting := true;
      if PhoneRejected(formData.phone) {
        outcome := InvalidPhone;
        submitting := false;
        return;
      }
      var taken := view.CheckEmailExists(formData.email, r.lookup);
      if taken {
        outcome := EmailTaken;
        submitting := false;
        return;
      }
      if TeamTooLarge(config, formData.teamMember3) {
        outcome := TeamSizeExceeded;
        submitting := false;
        return;
      }
      var path: Option<string> := None;
      if UploadsFile(config, file) {
        var uploaded := view.backend.Upload(UploadKey(formData.email, r.now, file.value), file.value, r.upload);
        if uploaded.Failure? {
          // the upload throws; the handler's catch reports an unexpected error
          outcome := UploadFailed(uploaded.error);
          submitting := false;
          return;
        }
        path := Some(uploaded.value);
      }
      var result := view.SubmitRegistration(RecordOf(formData, selectedEvent, path), r.insert, r.email, r.refetch);
      if result.Submitted? {
        outcome := Registered(result.data);
        formData := EmptyForm;
        file := None;
      } else {
        outcome := Failed(result.error);
      }
      submitting := false;
    }
  }
}
