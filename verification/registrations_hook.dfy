/**
 * The registrations hook: a read-side view of the table (`registrations`,
 * `totalCount`, `loading`) that is refreshed from the backend, plus the two
 * operations the form uses, `submitRegistration` and `checkEmailExists`.
 */
module RegistrationsHook {
  import opened Wrappers
  import opened Catalog
  import opened Listing
  import opened Backend

  /** The three state fields of the hook. */
  datatype ViewState = ViewState(registrations: seq<Registration>, totalCount: nat, loading: bool)

  /** The state a freshly mounted hook starts from. */
  const Initial: ViewState := ViewState([], 0, true)

  /** `totalCount` agrees with the loaded rows. */
  predicate Consistent(v: ViewState)
  {
    v.totalCount == |v.registrations|
  }

  /** The view after one `fetchRegistrations` whose list request got `reply`. */
  function AfterFetch(v: ViewState, reply: Result<seq<Registration>, StoreError>): (w: ViewState)
  {
    match reply
    case Success(rows) => ViewState(rows, |rows|, false)
    case Failure(_) => v.(loading := false)
  }

  /** A fetch ends loading on every path; on success the view mirrors the
      table, on failure the previous rows and count stay; either way the
      count stays consistent. */
  lemma FetchOutcome(v: ViewState, rows: seq<Registration>, fault: Option<StoreError>)
    requires Consistent(v)
    ensures var w := AfterFetch(v, ListReply(rows, fault));
      !w.loading && Consistent(w) &&
      (fault.None? ==> w.registrations == rows && w.totalCount == |rows|) &&
      (fault.Some? ==> w.registrations == v.registrations && w.totalCount == v.totalCount)
  {
  }

  /** What `checkEmailExists` resolves to: only a successful lookup that found
      a row says yes; every failure reads as "not registered". */
  predicate EmailExists(rows: seq<Registration>, email: string, fault: Option<StoreError>)
  {
    var reply := LookupReply(rows, email, fault);
    reply.Success? && reply.value.Some?
  }

  /** With a working backend and at most one row per e-mail, the check is
      exact: yes iff some row has exactly that e-mail. */
  lemma EmailExistsIff(rows: seq<Registration>, email: string)
    requires |WithEmail(rows, email)| <= 1
    ensures EmailExists(rows, email, None) <==> exists i | 0 <= i < |rows| :: rows[i].email == email
  {
    if i :| 0 <= i < |rows| && rows[i].email == email {
      assert rows[i] in WithEmail(rows, email);
    }
  }

  /** The check fails open: a failed request, or an e-mail already stored
      more than once, reads as "not registered". */
  lemma EmailCheckFailsOpen(rows: seq<Registration>, email: string, fault: Option<StoreError>)
    requires fault.Some? || |WithEmail(rows, email)| >= 2
    ensures !EmailExists(rows, email, fault)
  {
  }

  /** The e-mail function's request body for a submitted record. */
  function NoticeOf(reg: Registration): Notice
  {
    Notice(reg.studentName, reg.email, reg.collegeName, reg.eventName)
  }

  /** `error.message || 'Registration failed'`. */
  function FailureMessage(e: StoreError): (m: string)
    ensures m != ""
    ensures e.message != "" ==> m == e.message
    ensures e.message == "" ==> m == "Registration failed"
  {
    if e.message == "" then "Registration failed" else e.message
  }

  /** What `submitRegistration` resolves to. */
  datatype SubmitResult = Submitted(data: Registration) | NotSubmitted(error: string)

  /** Everything one `submitRegistration` does: its result, the requests it
      makes, the table afterwards and the hook state afterwards. */
  datatype SubmitEffect = SubmitEffect(
    result: SubmitResult,
    calls: seq<Call>,
    rows: seq<Registration>,
    view: ViewState)

  /**
   * `submitRegistration(reg)` against table `rows`: insert; on failure stop
   * with the message; on success call the e-mail function, refetch and
   * report the stored row. The e-mail function's reply is deliberately not
   * a parameter: nothing here depends on it.
   */
  function SubmitSpec(v: ViewState, rows: seq<Registration>, reg: Registration,
                      insert: InsertReply, refetch: Option<StoreError>): SubmitEffect
  {
    match insert.fault
    case Some(e) =>
      SubmitEffect(NotSubmitted(FailureMessage(e)), [InsertRow(reg)], rows, v)
    case None =>
      var stored := Stamped(reg, insert.id, insert.createdAt);
      var after := [stored] + rows;
      SubmitEffect(Submitted(stored), [InsertRow(reg), InvokeEmail(NoticeOf(reg)), SelectAll],
                   after, AfterFetch(v, ListReply(after, refetch)))
  }

  /** The hook checks nothing itself: what it does to a record does not
      depend on what the table already holds (no capacity or duplicate test). */
  lemma SubmitChecksNothing(v: ViewState, rows1: seq<Registration>, rows2: seq<Registration>,
                            reg: Registration, insert: InsertReply, refetch: Option<StoreError>)
    ensures SubmitSpec(v, rows1, reg, insert, refetch).result == SubmitSpec(v, rows2, reg, insert, refetch).result
    ensures SubmitSpec(v, rows1, reg, insert, refetch).calls == SubmitSpec(v, rows2, reg, insert, refetch).calls
    ensures SubmitSpec(v, rows1, reg, insert, refetch).calls[0] == InsertRow(reg)
  {
  }

  /** A failed insert reports the store's message (or the default), makes
      no further request and changes neither the table nor the view. */
  lemma InsertFailureIsFinal(v: ViewState, rows: seq<Registration>, reg: Registration,
                             insert: InsertReply, refetch: Option<StoreError>)
    requires insert.fault.Some?
    ensures var e := SubmitSpec(v, rows, reg, insert, refetch);
      e.result == NotSubmitted(FailureMessage(insert.fault.value)) && e.result.error != "" &&
      e.calls == [InsertRow(reg)] && e.rows == rows && e.view == v
  {
  }

  /** A successful insert stores the record in front of the table, is
      followed by the e-mail request and then a refetch, and reports the
      stored row; a working refetch shows that row first with the same fields
      as submitted. */
  lemma InsertSuccessRefetches(v: ViewState, rows: seq<Registration>, reg: Registration,
                               insert: InsertReply, refetch: Option<StoreError>)
    requires insert.fault.None?
    requires reg.id.None? && reg.createdAt.None?
    ensures var e := SubmitSpec(v, rows, reg, insert, refetch);
      e.result.Submitted? && e.rows == [e.result.data] + rows &&
      e.calls == [InsertRow(reg), InvokeEmail(NoticeOf(reg)), SelectAll] &&
      e.result.data.(id := None, createdAt := None) == reg &&
      e.result.data.id.Some? && e.result.data.createdAt.Some? &&
      !e.view.loading &&
      (refetch.None? ==> e.view.registrations == e.rows && e.view.registrations[0] == e.result.data
                         && e.view.totalCount == |rows| + 1)
  {
  }

  class RegistrationsView {
    const backend: Store
    var registrations: seq<Registration>
    var totalCount: nat
    var loading: bool

    ghost predicate Valid()
      reads this
    {
      Consistent(State())
    }

    function State(): ViewState
      reads this
    {
      ViewState(registrations, totalCount, loading)
    }

    /** Mounting the hook: empty view, still loading. */
    constructor (backend: Store)
      ensures Valid() && this.backend == backend && State() == Initial
    {
      this.backend := backend;
      registrations := [];
      totalCount := 0;
      loading := true;
    }

    method FetchRegistrations(fault: Option<StoreError>)
      requires Valid()
      modifies this, backend`calls
      ensures Valid()
      ensures backend.calls == old(backend.calls) + [SelectAll]
      ensures State() == AfterFetch(old(State()), ListReply(backend.rows, fault))
    {
      var reply := backend.List(fault);
      if reply.Success? {
        registrations := reply.value;
        totalCount := |reply.value|;
      }
      loading := false;
    }

    method SubmitRegistration(reg: Registration, insert: InsertReply,
                              emailFault: Option<StoreError>, refetch: Option<StoreError>)
      returns (result: SubmitResult)
      requires Valid()
      modifies this, backend
      ensures Valid()
      ensures var e := SubmitSpec(old(State()), old(backend.rows), reg, insert, refetch);
        result == e.result && backend.rows == e.rows &&
        backend.calls == old(backend.calls) + e.calls && State() == e.view
    {
      var inserted := backend.Insert(reg, insert);
      if inserted.Failure? {
        result := NotSubmitted(FailureMessage(inserted.error));
        return;
      }
      // The e-mail function's reply is only logged by the source; it is dropped here.
      var emailed := backend.Invoke(NoticeOf(reg), emailFault);
      FetchRegistrations(refetch);
      result := Submitted(inserted.value);
    }

    method CheckEmailExists(email: string, fault: Option<StoreError>) returns (found: bool)
      modifies backend`calls
      ensures backend.calls == old(backend.calls) + [SelectByEmail(email)]
      ensures found == EmailExists(backend.rows, email, fault)
    {
      var reply := backend.FindByEmail(email, fault);
      // Any error (the several-rows code included) leaves no row to report.
      found := reply.Success? && reply.value.Some?;
    }
  }
}
