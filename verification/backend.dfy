/**
 * The hosted backend as the portal sees it: the `registrations` table, the
 * file bucket and the e-mail function. Every request is appended to `calls`
 * whether it succeeds or not, so the model can state which requests an
 * operation makes and in what order. Network and server failures are inputs
 * (`fault`); the table keeps its rows newest first, the order the portal
 * always lists them in, so an accepted insert puts its row in front.
 */
module Backend {
  import opened Wrappers
  import opened Catalog
  import opened Listing

  /** A failed backend request: an error code and a (possibly empty) message. */
  datatype StoreError = StoreError(code: string, message: string)

  /** The code a single-row query reports when more than one row matches. */
  const MultipleRowsCode: string := "PGRST116"

  /** A file the participant picked: its name and MIME type. */
  datatype File = File(name: string, mimeType: string)

  /** The body sent to the e-mail function after an accepted registration. */
  datatype Notice = Notice(studentName: string, email: string, collegeName: string, eventName: string)

  /** One request to the backend. */
  datatype Call =
    | SelectAll                      // list every row, newest first
    | SelectByEmail(email: string)   // single-row lookup by exact e-mail
    | InsertRow(row: Registration)   // insert one row and read it back
    | UploadObject(key: string)      // store a file under `key`
    | InvokeEmail(notice: Notice)    // call the e-mail function

  /** What the server decides for one insert: a failure, or the id and timestamp it assigns. */
  datatype InsertReply = InsertReply(fault: Option<StoreError>, id: string, createdAt: string)

  /** The stored row: the submitted one with the server-assigned id and timestamp. */
  function Stamped(row: Registration, id: string, createdAt: string): (r: Registration)
    ensures r.id == Some(id) && r.createdAt == Some(createdAt)
    ensures r.(id := row.id, createdAt := row.createdAt) == row
  {
    row.(id := Some(id), createdAt := Some(createdAt))
  }

  /** The reply to listing the table. */
  function ListReply(rows: seq<Registration>, fault: Option<StoreError>): Result<seq<Registration>, StoreError>
  {
    if fault.Some? then Failure(fault.value) else Success(rows)
  }

  /** The rows whose e-mail is exactly `email`. */
  function WithEmail(rows: seq<Registration>, email: string): seq<Registration>
  {
    Keep(rows, (r: Registration) => r.email == email)
  }

  /** The reply to a single-row lookup by e-mail: no row, the one row, or an
      error when several rows match. */
  function LookupReply(rows: seq<Registration>, email: string, fault: Option<StoreError>): (r: Result<Option<Registration>, StoreError>)
    ensures r.Success? && r.value.Some? ==> r.value.value in rows && r.value.value.email == email
    ensures fault.None? && r.Success? && r.value.None? ==> forall x | x in rows :: x.email != email
  {
    if fault.Some? then Failure(fault.value)
    else
      var matching := WithEmail(rows, email);
      if |matching| == 0 then Success(None)
      else if |matching| == 1 then Success(Some(matching[0]))
      else Failure(StoreError(MultipleRowsCode, ""))
  }

  /** The backend's state: the table and the log of requests made. */
  class Store {
    /** The `registrations` table, newest row first. */
    var rows: seq<Registration>
    /** Every request made so far, oldest first. */
    var calls: seq<Call>

    constructor (rows: seq<Registration>)
      ensures this.rows == rows && calls == []
    {
      this.rows := rows;
      calls := [];
    }

    method List(fault: Option<StoreError>) returns (r: Result<seq<Registration>, StoreError>)
      modifies this`calls
      ensures calls == old(calls) + [SelectAll]
      ensures r == ListReply(rows, fault)
    {
      calls := calls + [SelectAll];
      r := ListReply(rows, fault);
    }

    method FindByEmail(email: string, fault: Option<StoreError>) returns (r: Result<Option<Registration>, StoreError>)
      modifies this`calls
      ensures calls == old(calls) + [SelectByEmail(email)]
      ensures r == LookupReply(rows, email, fault)
    {
      calls := calls + [SelectByEmail(email)];
      r := LookupReply(rows, email, fault);
    }

    method Insert(row: Registration, reply: InsertReply) returns (r: Result<Registration, StoreError>)
      modifies this
      ensures calls == old(calls) + [InsertRow(row)]
      ensures reply.fault.Some? ==> r == Failure(reply.fault.value) && rows == old(rows)
      ensures reply.fault.None? ==>
        r == Success(Stamped(row, reply.id, reply.createdAt)) && rows == [r.value] + old(rows)
    {
      calls := calls + [InsertRow(row)];
      if reply.fault.Some? {
        r := Failure(reply.fault.value);
      } else {
        var stored := Stamped(row, reply.id, reply.createdAt);
        rows := [stored] + rows;
        r := Success(stored);
      }
    }

    method Upload(key: string, file: File, fault: Option<StoreError>) returns (r: Result<string, StoreError>)
      modifies this`calls
      ensures calls == old(calls) + [UploadObject(key)]
      ensures r == if fault.Some? then Failure(fault.value) else Success(key)
    {
      calls := calls + [UploadObject(key)];
      r := if fault.Some? then Failure(fault.value) else Success(key);
    }

    method Invoke(notice: Notice, fault: Option<StoreError>) returns (r: Option<StoreError>)
      modifies this`calls
      ensures calls == old(calls) + [InvokeEmail(notice)]
      ensures r == fault
    {
      calls := calls + [InvokeEmail(notice)];
      r := fault;
    }
  }
}
