/**
 * Announcement import: each CSV row is checked for its required columns,
 * its status word is normalised, it is linked to a matching submission,
 * and either an announcement is created or an error line "Row n: message"
 * is recorded. Also the per-form announcement statistics.
 */
module Announcements {
  import opened Wrappers
  import opened Text
  import opened Seqs
  import opened Submissions

  /** A CSV record: the header names the row sets, with their cells. */
  type Record = map<string, string>

  /** A record with the key the CSV reader gives it. */
  datatype CsvRow = CsvRow(offset: int, fields: Record)

  /** The columns the service writes to the announcements table. */
  datatype Announcement = Announcement(
    formId: string,
    submissionId: Option<string>,
    identifier: string,
    name: string,
    status: string,
    announcedAt: int)

  /** The values of the announcements `status` column. */
  predicate IsAnnouncementStatus(s: string) {
    s == "accepted" || s == "rejected" || s == "pending"
  }

  /** The status words the import understands, lower-case. */
  const StatusMap: map<string, string> := map[
    "lolos" := "accepted", "lulus" := "accepted", "passed" := "accepted",
    "accepted" := "accepted", "diterima" := "accepted",
    "tidak lolos" := "rejected", "tidak_lolos" := "rejected", "tidaklolos" := "rejected",
    "gagal" := "rejected", "failed" := "rejected", "rejected" := "rejected", "ditolak" := "rejected",
    "pending" := "pending", "menunggu" := "pending"]

  /** Trim, lower-case, then map a known word; anything else is "pending". */
  function NormalizeStatus(status: string): (r: string)
    ensures ToLower(Trim(status)) in StatusMap ==> r == StatusMap[ToLower(Trim(status))]
    ensures ToLower(Trim(status)) !in StatusMap ==> r == "pending"
  {
    var key := ToLower(Trim(status));
    if key in StatusMap then StatusMap[key] else "pending"
  }

  /** Normalisation is total onto the three announcement statuses. */
  lemma StatusNormalized(status: string)
    ensures IsAnnouncementStatus(NormalizeStatus(status))
  {
  }

  predicate NoUpper(s: string) {
    forall i :: 0 <= i < |s| ==> !('A' <= s[i] <= 'Z')
  }

  lemma {:induction false} LowerOfLower(s: string)
    requires NoUpper(s)
    ensures ToLower(s) == s
  {
    var r := ToLower(s);
    assert forall i :: 0 <= i < |s| ==> r[i] == s[i];
  }

  /** A normalised status is its own key: it trims to itself and is lower-case. */
  lemma StatusIsKey(w: string)
    requires IsAnnouncementStatus(w)
    ensures ToLower(Trim(w)) == w
  {
    assert Trim(w) == w;
    LowerOfLower(w);
  }

  /** Normalising twice is normalising once. */
  lemma NormalizeIdempotent(status: string)
    ensures NormalizeStatus(NormalizeStatus(status)) == NormalizeStatus(status)
  {
    var w := NormalizeStatus(status);
    StatusNormalized(status);
    StatusIsKey(w);
    StatusesMapToThemselves();
  }

  /** Each of the three statuses is a key of the word map, mapped to itself. */
  lemma StatusesMapToThemselves()
    ensures "accepted" in StatusMap && StatusMap["accepted"] == "accepted"
    ensures "rejected" in StatusMap && StatusMap["rejected"] == "rejected"
    ensures "pending" in StatusMap && StatusMap["pending"] == "pending"
  {
  }

  /** Synonyms with different case and surrounding blanks normalise alike: " LULUS " is accepted. */
  lemma ShoutedSynonym()
    ensures NormalizeStatus(" LULUS ") == "accepted"
  {
    ShoutedTrim();
    ShoutedLower();
    LulusAccepted();
  }

  lemma LulusAccepted()
    ensures "lulus" in StatusMap && StatusMap["lulus"] == "accepted"
  {
  }

  lemma ShoutedTrim()
    ensures Trim(" LULUS ") == "LULUS"
  {
    assert TrimLeft(" LULUS ") == "LULUS ";
    assert TrimRight("LULUS ") == "LULUS";
  }

  lemma ShoutedLower()
    ensures ToLower("LULUS") == "lulus"
  {
    var low := ToLower("LULUS");
    assert |low| == 5;
    assert low[0] == 'l' && low[1] == 'u' && low[2] == 'l' && low[3] == 'u' && low[4] == 's';
  }

  /** The alternative header names accepted for a required column. */
  function Alternatives(column: string): seq<string> {
    if column == "identifier" then ["nomor_pendaftaran", "no_pendaftaran", "registration_number"]
    else if column == "name" then ["nama"]
    else []
  }

  /** The record sets `column` or one of its alternatives. */
  predicate Present(record: Record, column: string) {
    column in record || exists k :: 0 <= k < |Alternatives(column)| && Alternatives(column)[k] in record
  }

  function MissingMessage(column: string): string {
    "Missing required field: " + column
  }

  const RequiredColumns: seq<string> := ["identifier", "name", "status"]

  /**
   * The row check: the first required column (in the order identifier,
   * name, status) that is missing with all its alternatives is reported;
   * then the normalised status must be one of the three statuses.
   */
  function ValidateCsvRecord(record: Record): (r: Option<string>)
    ensures r.None? ==> Present(record, "identifier") && Present(record, "name") && "status" in record
  {
    if !Present(record, "identifier") then Some(MissingMessage("identifier"))
    else if !Present(record, "name") then Some(MissingMessage("name"))
    else if "status" !in record then Some(MissingMessage("status"))
    else if !IsAnnouncementStatus(NormalizeStatus(record["status"])) then
      Some("Invalid status value: " + record["status"])
    else None
  }

  /**
   * The status check never fires: a row is rejected exactly when a
   * required column is missing, and the message names the first one.
   */
  lemma ValidationIsPresence(record: Record)
    ensures ValidateCsvRecord(record).None? <==>
      Present(record, "identifier") && Present(record, "name") && "status" in record
    ensures !Present(record, "identifier") ==> ValidateCsvRecord(record) == Some(MissingMessage("identifier"))
    ensures Present(record, "identifier") && !Present(record, "name") ==>
      ValidateCsvRecord(record) == Some(MissingMessage("name"))
    ensures Present(record, "identifier") && Present(record, "name") && "status" !in record ==>
      ValidateCsvRecord(record) == Some(MissingMessage("status"))
  {
    if "status" in record {
      StatusNormalized(record["status"]);
    }
  }

  /** A registration number under its Indonesian header stands for the identifier. */
  lemma AlternativeHeader()
    ensures ValidateCsvRecord(map["nomor_pendaftaran" := "SUB-2024-00001", "nama" := "Ani", "status" := "lulus"]).None?
  {
    var record := map["nomor_pendaftaran" := "SUB-2024-00001", "nama" := "Ani", "status" := "lulus"];
    assert Alternatives("identifier")[0] in record;
    assert Alternatives("name")[0] in record;
    StatusNormalized("lulus");
  }

  /** `??` over keys: the first of them the record sets. */
  function FirstSet(record: Record, keys: seq<string>): (r: Option<string>)
    ensures r.None? <==> forall k :: 0 <= k < |keys| ==> keys[k] !in record
    ensures r.Some? ==> exists k :: 0 <= k < |keys| && keys[k] in record && r.value == record[keys[k]]
  {
    if |keys| == 0 then None
    else if keys[0] in record then Some(record[keys[0]])
    else
      var rest := FirstSet(record, keys[1..]);
      assert forall k :: 1 <= k < |keys| ==> keys[k] == keys[1..][k - 1];
      rest
  }

  const PhoneKeys: seq<string> := ["phone", "telepon", "hp"]

  /** A value PHP treats as true: set, neither empty nor "0". */
  predicate Given(v: Option<string>) {
    v.Some? && Truthy(v.value)
  }

  /** `phone LIKE '%p%'`: a stored phone containing `p`. */
  predicate PhoneMatches(s: Submission, p: string) {
    s.phone.Some? && Contains(s.phone.value, p)
  }

  predicate EmailMatches(s: Submission, e: string) {
    s.email == Some(e)
  }

  /**
   * The query as built: `form_id = f [AND phone LIKE ...] [OR email = e]`,
   * which SQL reads as (f AND phone) OR email.
   */
  function MatchAsWritten(formId: string, phone: Option<string>, email: Option<string>): Submission -> bool {
    (s: Submission) =>
      (s.formId == formId && (Given(phone) ==> PhoneMatches(s, phone.value)))
      || (Given(email) && EmailMatches(s, email.value))
  }

  /** The match the lookup is meant to make: same form, and phone or email agrees. */
  function MatchIntended(formId: string, phone: Option<string>, email: Option<string>): Submission -> bool {
    (s: Submission) =>
      s.formId == formId &&
      ((Given(phone) && PhoneMatches(s, phone.value)) || (Given(email) && EmailMatches(s, email.value)))
  }

  /**
   * The submission linked to a row, as written: none when the row gives
   * neither phone nor email, else the first submission the query accepts.
   */
  function FindMatchingSubmissionAsWritten(subs: seq<Submission>, formId: string, record: Record): (r: Option<nat>)
    ensures !Given(FirstSet(record, PhoneKeys)) && !Given(Lookup(record, "email")) ==> r.None?
    ensures r.Some? ==> r.value < |subs|
    ensures r.Some? ==> MatchAsWritten(formId, FirstSet(record, PhoneKeys), Lookup(record, "email"))(subs[r.value])
  {
    var phone := FirstSet(record, PhoneKeys);
    var email := Lookup(record, "email");
    if !Given(phone) && !Given(email) then None
    else FirstIndex(subs, MatchAsWritten(formId, phone, email))
  }

  /**
   * The corrected lookup: the first submission of the same form whose phone
   * or email agrees with the row; none when the row gives neither.
   */
  function FindMatchingSubmission(subs: seq<Submission>, formId: string, record: Record): (r: Option<nat>)
    ensures r.Some? ==> r.value < |subs| && subs[r.value].formId == formId
    ensures r.Some? ==>
      var phone := FirstSet(record, PhoneKeys);
      var email := Lookup(record, "email");
      (Given(phone) && PhoneMatches(subs[r.value], phone.value)) ||
      (Given(email) && EmailMatches(subs[r.value], email.value))
    ensures r.None? ==> forall j :: 0 <= j < |subs| ==>
      !MatchIntended(formId, FirstSet(record, PhoneKeys), Lookup(record, "email"))(subs[j])
  {
    FirstIndex(subs, MatchIntended(formId, FirstSet(record, PhoneKeys), Lookup(record, "email")))
  }

  /** Every submission the intended match accepts, the written query accepts too. */
  lemma IntendedWithinAsWritten(formId: string, phone: Option<string>, email: Option<string>, s: Submission)
    requires MatchIntended(formId, phone, email)(s)
    ensures MatchAsWritten(formId, phone, email)(s)
  {
  }

  /** With an email only, the written query accepts every submission of the form, whatever its email. */
  lemma EmailOnlyAcceptsWholeForm(formId: string, email: string, s: Submission)
    requires Truthy(email) && s.formId == formId
    ensures MatchAsWritten(formId, None, Some(email))(s)
  {
  }

  /** With phone and email, the written query accepts a submission of another form by email. */
  lemma EmailCrossesForms(formId: string, phone: string, email: string, s: Submission)
    requires Truthy(phone) && Truthy(email) && s.formId != formId && s.email == Some(email)
    ensures MatchAsWritten(formId, Some(phone), Some(email))(s)
    ensures !MatchIntended(formId, Some(phone), Some(email))(s)
  {
  }

  /**
   * A row with an email only is linked, as written, to the form's first
   * submission even when that submission's email differs; the corrected
   * lookup links the submission with that email.
   */
  lemma EmailOnlyLinksWrongSubmission(formId: string, record: Record, first: Submission, second: Submission)
    requires "phone" !in record && "telepon" !in record && "hp" !in record
    requires "email" in record && Truthy(record["email"])
    requires first.formId == formId && second.formId == formId
    requires first.email != Some(record["email"]) && second.email == Some(record["email"])
    ensures FindMatchingSubmissionAsWritten([first, second], formId, record) == Some(0)
    ensures FindMatchingSubmission([first, second], formId, record) == Some(1)
  {
    assert FirstSet(record, PhoneKeys).None? by {
      assert forall k :: 0 <= k < |PhoneKeys| ==> PhoneKeys[k] !in record;
    }
    var subs := [first, second];
    var email := Lookup(record, "email");
    assert !MatchIntended(formId, None, email)(subs[0]);
    assert MatchIntended(formId, None, email)(subs[1]);
  }

  /** The value of the first of `keys` the record sets, or "" when none does. */
  function ValueOf(record: Record, keys: seq<string>): string {
    FirstSet(record, keys).GetOr("")
  }

  const IdentifierKeys: seq<string> := ["identifier", "nomor_pendaftaran", "no_pendaftaran", "registration_number"]

  /** PHP's message when reading a key the array lacks. */
  function UndefinedKey(key: string): string {
    "Undefined array key \"" + key + "\""
  }

  /**
   * Checks every row goes through before its insert: the column check, then
   * reading the phone, which has no fallback after `hp` and fails when the
   * row gives none of the phone headers.
   */
  function RowCheck(record: Record): (r: Option<string>)
    ensures r.None? <==> ValidateCsvRecord(record).None? && FirstSet(record, PhoneKeys).Some?
  {
    match ValidateCsvRecord(record)
    case Some(msg) => Some(msg)
    case None => if FirstSet(record, PhoneKeys).None? then Some(UndefinedKey("hp")) else None
  }

  /**
   * One row of the corrected import: the announcement stores the
   * identifier the row was validated for, the name, the normalised status,
   * the linked submission and the import time.
   */
  function ImportRow(formId: string, subs: seq<Submission>, now: int, record: Record): (r: Result<Announcement, string>)
    ensures r.Failure? <==> RowCheck(record).Some?
    ensures r.Failure? ==> r.error == RowCheck(record).value
    ensures r.Success? ==>
      && r.value.formId == formId && r.value.announcedAt == now
      && IsAnnouncementStatus(r.value.status)
      && r.value.status == NormalizeStatus(record["status"])
      && r.value.name == (if "name" in record then record["name"] else record["nama"])
      && r.value.identifier == ValueOf(record, IdentifierKeys)
      && (r.value.submissionId.Some? <==> FindMatchingSubmission(subs, formId, record).Some?)
  {
    match RowCheck(record)
    case Some(msg) => Failure(msg)
    case None =>
      StatusNormalized(record["status"]);
      assert Present(record, "name");
      var name := if "name" in record then record["name"] else record["nama"];
      var linked := match FindMatchingSubmission(subs, formId, record)
        case None => None
        case Some(i) => Some(subs[i].id);
      Success(Announcement(formId, linked, ValueOf(record, IdentifierKeys), name,
                           NormalizeStatus(record["status"]), now))
  }

  /**
   * One row as written: the insert names no identifier, which the table
   * requires, so once the checks pass the database rejects the row with
   * `insertError`.
   */
  function ImportRowAsWritten(record: Record, insertError: string): (r: Result<Announcement, string>)
    ensures r.Failure?
    ensures RowCheck(record).Some? ==> r.error == RowCheck(record).value
    ensures RowCheck(record).None? ==> r.error == insertError
  {
    match RowCheck(record)
    case Some(msg) => Failure(msg)
    case None => Failure(insertError)
  }

  /** The error line for a failed row: "Row " followed by its key plus 2. */
  function RowLine(row: CsvRow, message: string): string {
    "Row " + IntToString(row.offset + 2) + ": " + message
  }

  datatype ImportResult = ImportResult(imported: nat, errors: seq<string>, created: seq<Announcement>)

  function RowFails(formId: string, subs: seq<Submission>, now: int): CsvRow -> bool {
    (row: CsvRow) => ImportRow(formId, subs, now, row.fields).Failure?
  }

  function RowPasses(formId: string, subs: seq<Submission>, now: int): CsvRow -> bool {
    (row: CsvRow) => ImportRow(formId, subs, now, row.fields).Success?
  }

  /**
   * The corrected import: rows are processed in order; a failing row adds
   * its error line and nothing else, a passing row adds its announcement.
   * The imported count is the number of passing rows, the error lines are
   * those of the failing rows in order, and every row is one or the other.
   */
  function Import(formId: string, subs: seq<Submission>, now: int, rows: seq<CsvRow>): (r: ImportResult)
    ensures r.imported == |r.created| == Count(rows, RowPasses(formId, subs, now))
    ensures |r.errors| == Count(rows, RowFails(formId, subs, now))
    ensures r.imported + |r.errors| == |rows|
    ensures forall k :: 0 <= k < |r.created| ==>
      r.created[k].formId == formId && IsAnnouncementStatus(r.created[k].status)
    ensures forall k :: 0 <= k < |r.errors| ==>
      var row := Filter(rows, RowFails(formId, subs, now))[k];
      r.errors[k] == RowLine(row, ImportRow(formId, subs, now, row.fields).error)
  {
    var created := ImportedRows(formId, subs, now, rows);
    PassOrFail(formId, subs, now, rows);
    ImportResult(|created|, ErrorLines(formId, subs, now, rows), created)
  }

  /** The announcements of the passing rows, in order. */
  function ImportedRows(formId: string, subs: seq<Submission>, now: int, rows: seq<CsvRow>): (created: seq<Announcement>)
    ensures |created| == Count(rows, RowPasses(formId, subs, now))
    ensures forall k :: 0 <= k < |created| ==>
      created[k].formId == formId && IsAnnouncementStatus(created[k].status)
  {
    if |rows| == 0 then []
    else
      var rest := ImportedRows(formId, subs, now, rows[1..]);
      match ImportRow(formId, subs, now, rows[0].fields)
      case Failure(_) => rest
      case Success(a) => [a] + rest
  }

  /** The error lines of the failing rows, in order. */
  function ErrorLines(formId: string, subs: seq<Submission>, now: int, rows: seq<CsvRow>): (errors: seq<string>)
    ensures |errors| == Count(rows, RowFails(formId, subs, now))
    ensures forall k :: 0 <= k < |errors| ==>
      var row := Filter(rows, RowFails(formId, subs, now))[k];
      errors[k] == RowLine(row, ImportRow(formId, subs, now, row.fields).error)
  {
    if |rows| == 0 then []
    else
      var rest := ErrorLines(formId, subs, now, rows[1..]);
      match ImportRow(formId, subs, now, rows[0].fields)
      case Failure(msg) => [RowLine(rows[0], msg)] + rest
      case Success(_) => rest
  }

  /** Every row either passes or fails. */
  lemma {:induction false} PassOrFail(formId: string, subs: seq<Submission>, now: int, rows: seq<CsvRow>)
    ensures Count(rows, RowPasses(formId, subs, now)) + Count(rows, RowFails(formId, subs, now)) == |rows|
  {
    if |rows| > 0 {
      PassOrFail(formId, subs, now, rows[1..]);
    }
  }

  /** As written, no row is ever imported: every row ends as an error line. */
  function ImportAsWritten(rows: seq<CsvRow>, insertError: string): (r: ImportResult)
    ensures r.imported == 0 && r.created == []
    ensures |r.errors| == |rows|
    ensures forall k :: 0 <= k < |rows| ==>
      r.errors[k] == RowLine(rows[k], ImportRowAsWritten(rows[k].fields, insertError).error)
  {
    if |rows| == 0 then ImportResult(0, [], [])
    else
      var rest := ImportAsWritten(rows[1..], insertError);
      ImportResult(0, [RowLine(rows[0], ImportRowAsWritten(rows[0].fields, insertError).error)] + rest.errors, [])
  }

  /** A complete row with a phone is imported by the corrected import and rejected as written. */
  lemma CompleteRowOnlyImportedWhenCorrected(formId: string, subs: seq<Submission>, now: int,
                                             row: CsvRow, insertError: string)
    requires Present(row.fields, "identifier") && Present(row.fields, "name") && "status" in row.fields
    requires "phone" in row.fields
    ensures Import(formId, subs, now, [row]).imported == 1
    ensures ImportAsWritten([row], insertError).errors == [RowLine(row, insertError)]
  {
    ValidationIsPresence(row.fields);
    assert FirstSet(row.fields, PhoneKeys).Some?;
    assert Count([row], RowPasses(formId, subs, now)) == 1;
  }

  /** A complete row without any phone header fails on reading `hp`. */
  lemma RowWithoutPhoneFails(formId: string, subs: seq<Submission>, now: int, record: Record)
    requires Present(record, "identifier") && Present(record, "name") && "status" in record
    requires "phone" !in record && "telepon" !in record && "hp" !in record
    ensures ImportRow(formId, subs, now, record) == Failure(UndefinedKey("hp"))
  {
    ValidationIsPresence(record);
    assert FirstSet(record, PhoneKeys).None? by {
      assert forall k :: 0 <= k < |PhoneKeys| ==> PhoneKeys[k] !in record;
    }
  }

  datatype AnnouncementStats = AnnouncementStats(total: nat, accepted: nat, rejected: nat, pending: nat)

  function OfForm(formId: string): Announcement -> bool {
    (a: Announcement) => a.formId == formId
  }

  function OfFormWithStatus(formId: string, status: string): Announcement -> bool {
    (a: Announcement) => a.formId == formId && a.status == status
  }

  /** The form's announcements: their number and how many have each status. */
  function GetStatistics(anns: seq<Announcement>, formId: string): (r: AnnouncementStats)
    ensures r.total == Count(anns, OfForm(formId))
    ensures r.accepted == Count(anns, OfFormWithStatus(formId, "accepted"))
    ensures r.rejected == Count(anns, OfFormWithStatus(formId, "rejected"))
    ensures r.pending == Count(anns, OfFormWithStatus(formId, "pending"))
    ensures r.accepted <= r.total && r.rejected <= r.total && r.pending <= r.total
  {
    CountMono(anns, OfFormWithStatus(formId, "accepted"), OfForm(formId));
    CountMono(anns, OfFormWithStatus(formId, "rejected"), OfForm(formId));
    CountMono(anns, OfFormWithStatus(formId, "pending"), OfForm(formId));
    AnnouncementStats(
      Count(anns, OfForm(formId)),
      Count(anns, OfFormWithStatus(formId, "accepted")),
      Count(anns, OfFormWithStatus(formId, "rejected")),
      Count(anns, OfFormWithStatus(formId, "pending")))
  }

  /** When every stored status is one of the three, the three counts add up to the total. */
  lemma {:induction false} StatusesPartition(anns: seq<Announcement>, formId: string)
    requires forall k :: 0 <= k < |anns| ==> IsAnnouncementStatus(anns[k].status)
    ensures var st := GetStatistics(anns, formId);
      st.accepted + st.rejected + st.pending == st.total
  {
    if |anns| > 0 {
      assert forall k :: 1 <= k < |anns| ==> anns[1..][k - 1] == anns[k];
      StatusesPartition(anns[1..], formId);
    }
  }

  /** Announcements the corrected import creates keep the partition. */
  lemma ImportedPartition(formId: string, subs: seq<Submission>, now: int, rows: seq<CsvRow>)
    ensures var st := GetStatistics(Import(formId, subs, now, rows).created, formId);
      st.accepted + st.rejected + st.pending == st.total == Import(formId, subs, now, rows).imported
  {
    var created := Import(formId, subs, now, rows).created;
    StatusesPartition(created, formId);
    assert Count(created, OfForm(formId)) == |created| by {
      CountAllOfForm(created, formId);
    }
  }

  lemma {:induction false} CountAllOfForm(anns: seq<Announcement>, formId: string)
    requires forall k :: 0 <= k < |anns| ==> anns[k].formId == formId
    ensures Count(anns, OfForm(formId)) == |anns|
  {
    if |anns| > 0 {
      assert forall k :: 1 <= k < |anns| ==> anns[1..][k - 1] == anns[k];
      CountAllOfForm(anns[1..], formId);
    }
  }
}
