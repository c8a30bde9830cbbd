/**
 * The registration form's field-level rules: the phone sanitiser and the
 * 10-digit check, the team-size rule, the file-type allowlist, the form's
 * fields, and the record the form builds for insertion.
 */
module Intake {
  import opened Wrappers
  import opened Text
  import opened Catalog
  import opened Listing

  // ---------------------------------------------------------------- phone

  /** `s.replace(/\D/g, '')`: the digits of `s`, in order. */
  function DigitsOnly(s: string): (r: string)
    ensures AllDigits(r) && |r| <= |s|
    ensures AllDigits(s) ==> r == s
    decreases |s|
  {
    if s == [] then []
    else if IsDigit(s[0]) then [s[0]] + DigitsOnly(s[1..])
    else DigitsOnly(s[1..])
  }

  /** Every digit of the input is kept, in order, and nothing else: the
      result is the input filtered by `IsDigit`. */
  lemma {:induction false} DigitsOnlyKeepsDigits(s: string)
    ensures DigitsOnly(s) == Keep(s, IsDigit)
    decreases |s|
  {
    if s != [] {
      DigitsOnlyKeepsDigits(s[1..]);
    }
  }

  /** The phone input's change handler: keep the digits, at most the first 10. */
  function SanitizePhone(s: string): (r: string)
    ensures AllDigits(r) && |r| <= 10
    ensures AllDigits(s) && |s| <= 10 ==> r == s
    ensures |r| <= |DigitsOnly(s)| && r == DigitsOnly(s)[..|r|]
    ensures |r| == if |DigitsOnly(s)| <= 10 then |DigitsOnly(s)| else 10
  {
    var d := DigitsOnly(s);
    if |d| <= 10 then d else d[..10]
  }

  /** Sanitising twice is sanitising once. */
  lemma SanitizeIdempotent(s: string)
    ensures SanitizePhone(SanitizePhone(s)) == SanitizePhone(s)
  {
  }

  /** The pattern `^\d{10}$`. */
  predicate TenDigits(s: string)
  {
    |s| == 10 && AllDigits(s)
  }

  /** The submit-time phone check: a non-empty phone whose digits are not
      exactly ten is refused. */
  predicate PhoneRejected(phone: string)
  {
    phone != "" && !TenDigits(DigitsOnly(phone))
  }

  /** Rejected iff non-empty and the digit count is not 10; an empty phone
      is never rejected. */
  lemma PhoneRejectedIff(phone: string)
    ensures PhoneRejected(phone) <==> phone != "" && |DigitsOnly(phone)| != 10
  {
  }

  /** What the input handler lets through passes the check iff it is empty
      or holds exactly 10 digits. */
  lemma SanitizedPhoneCheck(raw: string)
    ensures var p := SanitizePhone(raw); !PhoneRejected(p) <==> p == "" || |p| == 10
  {
  }

  // ---------------------------------------------------------------- team and file

  /** The team-size rule: a two-member event refuses a third member with
      any visible character. */
  predicate TeamTooLarge(config: EventConfig, teamMember3: string)
  {
    config.maxTeamMembers == 2 && Trim(teamMember3) != ""
  }

  lemma TeamTooLargeIff(config: EventConfig, teamMember3: string)
    ensures TeamTooLarge(config, teamMember3) <==> config.maxTeamMembers == 2 && !Blank(teamMember3)
  {
    TrimEmptyIffBlank(teamMember3);
  }

  /** The MIME types the file picker accepts (PPT, PPTX, PDF). */
  const AllowedFileTypes: seq<string> := [
    "application/vnd.ms-powerpoint",
    "application/vnd.openxmlformats-officedocument.presentationml.presentation",
    "application/pdf"
  ]

  predicate FileTypeAllowed(mimeType: string)
  {
    mimeType in AllowedFileTypes
  }

  // ---------------------------------------------------------------- form data

  datatype Field = Email | StudentName | CollegeName | Department | Year | Phone
                 | TeamMember1 | TeamMember2 | TeamMember3

  /** The form's text state; `year` holds the selected option's value. */
  datatype FormData = FormData(
    email: string,
    studentName: string,
    collegeName: string,
    department: string,
    year: string,
    phone: string,
    teamMember1: string,
    teamMember2: string,
    teamMember3: string)

  const EmptyForm: FormData := FormData("", "", "", "", "", "", "", "", "")

  function Get(fd: FormData, f: Field): string
  {
    match f
    case Email => fd.email
    case StudentName => fd.studentName
    case CollegeName => fd.collegeName
    case Department => fd.department
    case Year => fd.year
    case Phone => fd.phone
    case TeamMember1 => fd.teamMember1
    case TeamMember2 => fd.teamMember2
    case TeamMember3 => fd.teamMember3
  }

  /** `{ ...fd, [f]: value }`. */
  function Set(fd: FormData, f: Field, value: string): (r: FormData)
    ensures forall g: Field :: Get(r, g) == if g == f then value else Get(fd, g)
  {
    match f
    case Email => fd.(email := value)
    case StudentName => fd.(studentName := value)
    case CollegeName => fd.(collegeName := value)
    case Department => fd.(department := value)
    case Year => fd.(year := value)
    case Phone => fd.(phone := value)
    case TeamMember1 => fd.(teamMember1 := value)
    case TeamMember2 => fd.(teamMember2 := value)
    case TeamMember3 => fd.(teamMember3 := value)
  }

  /** The values of the academic-year select. */
  const YearOptions: seq<string> := ["1", "2", "3", "4"]

  /** `parseInt` of a selected year. */
  function YearValue(year: string): (y: int)
    requires year in YearOptions
    ensures 1 <= y <= 4 && year == YearOptions[y - 1]
  {
    ParseDigits(year)
  }

  /** Writing a selected year back as text gives the option again. */
  lemma YearRoundTrip(year: string)
    requires year in YearOptions
    ensures DecimalString(YearValue(year)) == year
  {
  }

  /** The record the form submits: every form field, the parsed year, the
      selected event's name and the upload path (if any). */
  function RecordOf(fd: FormData, event: EventName, path: Option<string>): Registration
    requires fd.year in YearOptions
  {
    Registration(None, fd.email, fd.studentName, fd.collegeName, fd.department,
                 YearValue(fd.year), Some(fd.phone), fd.teamMember1,
                 Some(fd.teamMember2), Some(fd.teamMember3), Label(event), path, None)
  }

  /** The form fields a record holds, year written back as text. */
  function FormOf(r: Registration): FormData
  {
    FormData(r.email, r.studentName, r.collegeName, r.department, DecimalString(r.year),
             OrEmpty(r.phone), r.teamMember1, OrEmpty(r.teamMember2), OrEmpty(r.teamMember3))
  }

  /** The submitted record carries the form unchanged: reading the fields
      back gives the form again; the event and path are the given ones. */
  lemma RecordCarriesForm(fd: FormData, event: EventName, path: Option<string>)
    requires fd.year in YearOptions
    ensures var r := RecordOf(fd, event, path);
      FormOf(r) == fd && r.eventName == Label(event) && InCatalog(r.eventName) &&
      r.uploadedFilePath == path && r.id.None? && r.createdAt.None? && 1 <= r.year <= 4
  {
    YearRoundTrip(fd.year);
  }
}
