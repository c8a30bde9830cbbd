/**
 * The admin dashboard's computations over the loaded registrations: the
 * event filter plus free-text search, the "Files Uploaded" figure, the export
 * file name, and the rows written to the spreadsheet and the PDF.
 */
module AdminDashboard {
  import opened Wrappers
  import opened Text
  import opened Catalog
  import opened Listing

  // ---------------------------------------------------------------- filtering

  /** The filter value that selects everything. */
  const AllFilter: string := "all"

  /** The search: the lower-cased term occurs in the lower-cased name,
      e-mail or college. */
  predicate MatchesSearch(reg: Registration, term: string)
  {
    var t := Lower(term);
    Includes(Lower(reg.studentName), t) || Includes(Lower(reg.email), t) || Includes(Lower(reg.collegeName), t)
  }

  /** The search step: applied only for a non-empty term. */
  function SearchStep(regs: seq<Registration>, term: string): seq<Registration>
  {
    if term != "" then Keep(regs, (reg: Registration) => MatchesSearch(reg, term)) else regs
  }

  /** The dashboard's filter as written: a non-"all" filter value is compared
      with `eventName`, then the search applies. */
  function FilteredAsWritten(regs: seq<Registration>, eventFilter: string, searchTerm: string): (r: seq<Registration>)
    ensures forall x | x in r :: x in regs && (eventFilter == AllFilter || x.eventName == eventFilter)
                                 && (searchTerm == "" || MatchesSearch(x, searchTerm))
    ensures forall x | x in regs && (eventFilter == AllFilter || x.eventName == eventFilter)
                       && (searchTerm == "" || MatchesSearch(x, searchTerm)) :: x in r
  {
    var byEvent := if eventFilter != AllFilter then Keep(regs, (reg: Registration) => reg.eventName == eventFilter) else regs;
    SearchStep(byEvent, searchTerm)
  }

  /** The filter keeps the records' order and never adds any. */
  lemma FilteredAsWrittenIsSubsequence(regs: seq<Registration>, eventFilter: string, searchTerm: string)
    ensures IsSubsequence(FilteredAsWritten(regs, eventFilter, searchTerm), regs)
    ensures |FilteredAsWritten(regs, eventFilter, searchTerm)| <= |regs|
  {
    var byEvent := if eventFilter != AllFilter then Keep(regs, (reg: Registration) => reg.eventName == eventFilter) else regs;
    SubsequenceReflexive(regs);
    if eventFilter != AllFilter { KeepIsSubsequence(regs, (reg: Registration) => reg.eventName == eventFilter); }
    if searchTerm != "" { KeepPreservesSubsequence(byEvent, regs, (reg: Registration) => MatchesSearch(reg, searchTerm)); }
    SubsequenceLength(FilteredAsWritten(regs, eventFilter, searchTerm), regs);
  }

  /** "all" with an empty search shows every record, in order. */
  lemma FilteredAsWrittenIdentity(regs: seq<Registration>)
    ensures FilteredAsWritten(regs, AllFilter, "") == regs
  {
  }

  /** The search is exact: a record is shown iff the term occurs, ignoring
      A-Z case, in its name, e-mail or college. */
  lemma SearchIff(reg: Registration, term: string)
    ensures MatchesSearch(reg, term) <==>
      (exists i: nat :: OccursAt(Lower(reg.studentName), Lower(term), i)) ||
      (exists i: nat :: OccursAt(Lower(reg.email), Lower(term), i)) ||
      (exists i: nat :: OccursAt(Lower(reg.collegeName), Lower(term), i))
  {
    IncludesIff(Lower(reg.studentName), Lower(term));
    IncludesIff(Lower(reg.email), Lower(term));
    IncludesIff(Lower(reg.collegeName), Lower(term));
  }

  /** The "Technical Events" and "Non-Technical Events" options are compared
      with `eventName` literally, so over records that name catalog events
      they show nothing at all. */
  lemma CategoryOptionMatchesNothing(regs: seq<Registration>, searchTerm: string)
    requires forall i | 0 <= i < |regs| :: InCatalog(regs[i].eventName)
    ensures FilteredAsWritten(regs, TechnicalFilter, searchTerm) == []
    ensures FilteredAsWritten(regs, NonTechnicalFilter, searchTerm) == []
  {
    forall e: EventName ensures Label(e) != TechnicalFilter && Label(e) != NonTechnicalFilter {
      assert Label(e)[0] != 't' || |Label(e)| != |TechnicalFilter|;
    }
    NoneShown(regs, TechnicalFilter, searchTerm);
    NoneShown(regs, NonTechnicalFilter, searchTerm);
  }

  lemma NoneShown(regs: seq<Registration>, eventFilter: string, searchTerm: string)
    requires eventFilter != AllFilter
    requires forall i | 0 <= i < |regs| :: regs[i].eventName != eventFilter
    ensures FilteredAsWritten(regs, eventFilter, searchTerm) == []
  {
    KeepNone(regs, (reg: Registration) => reg.eventName == eventFilter);
  }

  /** The filter values of the two category options. */
  const TechnicalFilter: string := "technical"
  const NonTechnicalFilter: string := "non-technical"

  /** The event test the dashboard evidently means: the category options
      select by the configured category, any other value by event name. */
  predicate EventMatches(configs: seq<EventConfig>, reg: Registration, eventFilter: string)
  {
    if eventFilter == AllFilter then true
    else if eventFilter == TechnicalFilter then CategoryOf(configs, reg) == Some(Technical)
    else if eventFilter == NonTechnicalFilter then CategoryOf(configs, reg) == Some(NonTechnical)
    else reg.eventName == eventFilter
  }

  /** The filter with the category options selecting by configured category. */
  function Filtered(regs: seq<Registration>, configs: seq<EventConfig>, eventFilter: string, searchTerm: string): (r: seq<Registration>)
    ensures forall x | x in r :: x in regs && EventMatches(configs, x, eventFilter)
                                 && (searchTerm == "" || MatchesSearch(x, searchTerm))
    ensures forall x | x in regs && EventMatches(configs, x, eventFilter)
                       && (searchTerm == "" || MatchesSearch(x, searchTerm)) :: x in r
  {
    var byEvent := if eventFilter != AllFilter then Keep(regs, (reg: Registration) => EventMatches(configs, reg, eventFilter)) else regs;
    SearchStep(byEvent, searchTerm)
  }

  /** The corrected filter keeps order, is the identity for "all" with no
      search, and differs from the written one only on the two category options. */
  lemma FilteredProperties(regs: seq<Registration>, configs: seq<EventConfig>, eventFilter: string, searchTerm: string)
    ensures IsSubsequence(Filtered(regs, configs, eventFilter, searchTerm), regs)
    ensures Filtered(regs, configs, AllFilter, "") == regs
    ensures eventFilter != TechnicalFilter && eventFilter != NonTechnicalFilter ==>
      Filtered(regs, configs, eventFilter, searchTerm) == FilteredAsWritten(regs, eventFilter, searchTerm)
  {
    var p := (reg: Registration) => EventMatches(configs, reg, eventFilter);
    var byEvent := if eventFilter != AllFilter then Keep(regs, p) else regs;
    SubsequenceReflexive(regs);
    if eventFilter != AllFilter { KeepIsSubsequence(regs, p); }
    if searchTerm != "" { KeepPreservesSubsequence(byEvent, regs, (reg: Registration) => MatchesSearch(reg, searchTerm)); }
    if eventFilter != TechnicalFilter && eventFilter != NonTechnicalFilter && eventFilter != AllFilter {
      KeepSame(regs, p, (reg: Registration) => reg.eventName == eventFilter);
    }
  }

  /** With the correction, a category option shows exactly the records of
      that category, in order. */
  lemma CategoryOptionSelectsCategory(regs: seq<Registration>, configs: seq<EventConfig>)
    ensures forall x :: x in Filtered(regs, configs, TechnicalFilter, "") <==> x in regs && CategoryOf(configs, x) == Some(Technical)
    ensures forall x :: x in Filtered(regs, configs, NonTechnicalFilter, "") <==> x in regs && CategoryOf(configs, x) == Some(NonTechnical)
    ensures IsSubsequence(Filtered(regs, configs, TechnicalFilter, ""), regs)
  {
    FilteredProperties(regs, configs, TechnicalFilter, "");
  }

  /** Filters that agree on every element give the same result. */
  lemma {:induction false} KeepSame(s: seq<Registration>, p: Registration -> bool, q: Registration -> bool)
    requires forall x | x in s :: p(x) == q(x)
    ensures Keep(s, p) == Keep(s, q)
    decreases |s|
  {
    if s != [] { KeepSame(s[1..], p, q); }
  }

  // ---------------------------------------------------------------- files count

  /** `r.uploaded_file_path` is truthy. */
  predicate HasFile(reg: Registration)
  {
    reg.uploadedFilePath.Some? && reg.uploadedFilePath.value != ""
  }

  /** The "Files Uploaded" figure. */
  function FilesUploaded(regs: seq<Registration>): nat
  {
    |Keep(regs, HasFile)|
  }

  /** The figure counts the records with a non-empty upload path. */
  lemma FilesUploadedCounts(regs: seq<Registration>)
    ensures FilesUploaded(regs) == |set i | 0 <= i < |regs| && HasFile(regs[i])|
    ensures FilesUploaded(regs) <= |regs|
  {
    KeepCountsPositions(regs, HasFile);
    assert Positions(regs, HasFile) == set i | 0 <= i < |regs| && HasFile(regs[i]);
  }

  // ---------------------------------------------------------------- export file name

  /** The filter part of an export file name: "all" for everything, else the
      filter with every character outside [A-Za-z0-9] replaced by '_' and
      every other one kept. */
  function FilterSlug(eventFilter: string): (r: string)
    ensures eventFilter == AllFilter ==> r == AllFilter
    ensures eventFilter != AllFilter ==> |r| == |eventFilter|
    ensures forall i | 0 <= i < |r| :: IsAsciiAlnum(r[i]) || r[i] == '_'
    ensures eventFilter != AllFilter ==>
      forall i | 0 <= i < |r| :: r[i] == if IsAsciiAlnum(eventFilter[i]) then eventFilter[i] else '_'
  {
    if eventFilter != AllFilter then
      seq(|eventFilter|, i requires 0 <= i < |eventFilter| => if IsAsciiAlnum(eventFilter[i]) then eventFilter[i] else '_')
    else AllFilter
  }

  /** Characters that are already safe are kept; so a slug is its own slug. */
  lemma FilterSlugIdempotent(eventFilter: string)
    ensures FilterSlug(FilterSlug(eventFilter)) == FilterSlug(eventFilter)
    ensures eventFilter != AllFilter ==>
      forall i | 0 <= i < |eventFilter| && IsAsciiAlnum(eventFilter[i]) :: FilterSlug(eventFilter)[i] == eventFilter[i]
  {
  }

  /** `registrations_<slug>_<date><extension>`: the filter part is made safe,
      the date and the extension are appended as given. */
  function ExportFileName(eventFilter: string, isoDate: string, extension: string): (name: string)
    ensures var prefix := "registrations_" + FilterSlug(eventFilter) + "_";
      |prefix| <= |name| && name[..|prefix|] == prefix && name[|prefix|..] == isoDate + extension
  {
    "registrations_" + FilterSlug(eventFilter) + "_" + isoDate + extension
  }

  // ---------------------------------------------------------------- export rows

  /** A spreadsheet cell: the year is written as a number, the rest as text. */
  datatype Cell = TextCell(text: string) | Number(value: int)

  const SheetColumns: seq<string> := [
    "Email", "Student Name", "College", "Department", "Year", "Phone",
    "Team Member 1", "Team Member 2", "Team Member 3", "Event Name",
    "Event Category", "Uploaded File", "Created At"]

  /** One spreadsheet row. `categoryOf` is the category lookup by event name;
      `dateTime` the locale rendering of a timestamp. */
  function SheetRow(reg: Registration, categoryOf: string -> string, dateTime: string -> string): seq<(string, Cell)>
  {
    [("Email", TextCell(reg.email)), ("Student Name", TextCell(reg.studentName)), ("College", TextCell(reg.collegeName)),
     ("Department", TextCell(reg.department)), ("Year", Number(reg.year)), ("Phone", TextCell(OrEmpty(reg.phone))),
     ("Team Member 1", TextCell(reg.teamMember1)), ("Team Member 2", TextCell(OrEmpty(reg.teamMember2))),
     ("Team Member 3", TextCell(OrEmpty(reg.teamMember3))), ("Event Name", TextCell(reg.eventName)),
     ("Event Category", TextCell(categoryOf(reg.eventName))), ("Uploaded File", TextCell(OrEmpty(reg.uploadedFilePath))),
     ("Created At", TextCell(dateTime(OrEmpty(reg.createdAt))))]
  }

  /** The spreadsheet: one row per shown record, in order, every row with
      the same columns. */
  function Sheet(regs: seq<Registration>, categoryOf: string -> string, dateTime: string -> string): (sheet: seq<seq<(string, Cell)>>)
    ensures |sheet| == |regs|
    ensures forall i | 0 <= i < |sheet| ::
      |sheet[i]| == |SheetColumns| && forall k | 0 <= k < |SheetColumns| :: sheet[i][k].0 == SheetColumns[k]
    ensures forall i | 0 <= i < |sheet| ::
      var reg := regs[i];
      sheet[i][0].1 == TextCell(reg.email) && sheet[i][1].1 == TextCell(reg.studentName) &&
      sheet[i][2].1 == TextCell(reg.collegeName) && sheet[i][3].1 == TextCell(reg.department) &&
      sheet[i][4].1 == Number(reg.year) && sheet[i][5].1 == TextCell(OrEmpty(reg.phone)) &&
      sheet[i][6].1 == TextCell(reg.teamMember1) && sheet[i][7].1 == TextCell(OrEmpty(reg.teamMember2)) &&
      sheet[i][8].1 == TextCell(OrEmpty(reg.teamMember3)) && sheet[i][9].1 == TextCell(reg.eventName) &&
      sheet[i][10].1 == TextCell(categoryOf(reg.eventName)) &&
      sheet[i][11].1 == TextCell(OrEmpty(reg.uploadedFilePath)) &&
      sheet[i][12].1 == TextCell(dateTime(OrEmpty(reg.createdAt)))
  {
    seq(|regs|, i requires 0 <= i < |regs| => SheetRow(regs[i], categoryOf, dateTime))
  }

  const PdfHeaders: seq<string> := [
    "Email", "Student Name", "College", "Department", "Year", "Phone",
    "Team Member 1", "Team Member 2", "Team Member 3", "Event Name", "Category", "Created At"]

  /** One PDF table row; `date` is the locale date rendering. */
  function PdfRow(reg: Registration, categoryOf: string -> string, date: string -> string): seq<string>
  {
    [reg.email, reg.studentName, reg.collegeName, reg.department, DecimalString(reg.year),
     OrEmpty(reg.phone), reg.teamMember1, OrEmpty(reg.teamMember2), OrEmpty(reg.teamMember3),
     reg.eventName, categoryOf(reg.eventName), date(OrEmpty(reg.createdAt))]
  }

  /** The PDF body: one row per shown record, each exactly as wide as the header. */
  function PdfBody(regs: seq<Registration>, categoryOf: string -> string, date: string -> string): (body: seq<seq<string>>)
    ensures |body| == |regs|
    ensures forall i | 0 <= i < |body| :: |body[i]| == |PdfHeaders| == 12
    ensures forall i | 0 <= i < |body| ::
      var reg := regs[i];
      body[i][0] == reg.email && body[i][1] == reg.studentName && body[i][2] == reg.collegeName &&
      body[i][3] == reg.department && body[i][4] == DecimalString(reg.year) &&
      body[i][5] == OrEmpty(reg.phone) && body[i][6] == reg.teamMember1 &&
      body[i][7] == OrEmpty(reg.teamMember2) && body[i][8] == OrEmpty(reg.teamMember3) &&
      body[i][9] == reg.eventName && body[i][10] == categoryOf(reg.eventName) &&
      body[i][11] == date(OrEmpty(reg.createdAt))
  {
    seq(|regs|, i requires 0 <= i < |regs| => PdfRow(regs[i], categoryOf, date))
  }

  /** The two export buttons: both export the records the table shows (the
      filter as written), one row each, in order. */
  function ExportSheet(regs: seq<Registration>, eventFilter: string, searchTerm: string,
                       categoryOf: string -> string, dateTime: string -> string): (sheet: seq<seq<(string, Cell)>>)
    ensures |sheet| == |FilteredAsWritten(regs, eventFilter, searchTerm)| <= |regs|
    ensures forall i | 0 <= i < |sheet| ::
      |sheet[i]| == |SheetColumns| && sheet[i][0].1 == TextCell(FilteredAsWritten(regs, eventFilter, searchTerm)[i].email)
  {
    FilteredAsWrittenIsSubsequence(regs, eventFilter, searchTerm);
    Sheet(FilteredAsWritten(regs, eventFilter, searchTerm), categoryOf, dateTime)
  }

  function ExportPdf(regs: seq<Registration>, eventFilter: string, searchTerm: string,
                     categoryOf: string -> string, date: string -> string): (body: seq<seq<string>>)
    ensures |body| == |FilteredAsWritten(regs, eventFilter, searchTerm)| <= |regs|
    ensures forall i | 0 <= i < |body| ::
      |body[i]| == |PdfHeaders| && body[i][0] == FilteredAsWritten(regs, eventFilter, searchTerm)[i].email
  {
    FilteredAsWrittenIsSubsequence(regs, eventFilter, searchTerm);
    PdfBody(FilteredAsWritten(regs, eventFilter, searchTerm), categoryOf, date)
  }

  /** The spreadsheet column holding the same field as PDF column `k`. */
  function SheetColumnOf(k: nat): nat
    requires k < 12
  {
    if k < 11 then k else 12
  }

  /** The two exports agree: every PDF column except the year and the date
      holds the text of the same-named spreadsheet cell, and the year is the
      number's decimal text. Absent optional fields are empty in both. */
  lemma ExportsAgree(reg: Registration, categoryOf: string -> string, dateTime: string -> string, date: string -> string)
    ensures var sheet := SheetRow(reg, categoryOf, dateTime); var pdf := PdfRow(reg, categoryOf, date);
      (forall k | 0 <= k < 11 && k != 4 :: sheet[SheetColumnOf(k)].1 == TextCell(pdf[k])) &&
      sheet[4].1 == Number(reg.year) && pdf[4] == DecimalString(reg.year) &&
      (reg.phone.None? ==> pdf[5] == "" && sheet[5].1 == TextCell("")) &&
      (reg.teamMember2.None? ==> pdf[7] == "" && sheet[7].1 == TextCell("")) &&
      (reg.teamMember3.None? ==> pdf[8] == "" && sheet[8].1 == TextCell("")) &&
      (reg.uploadedFilePath.None? ==> sheet[11].1 == TextCell(""))
  {
  }
}
