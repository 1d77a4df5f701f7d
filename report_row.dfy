/**
 * The current case record and the row the confirm button appends for it
 * (bot.js:106, bot.js:174-187).
 */
module ReportRow {
  import opened Wrappers
  import opened CaseNumbers

  /** An uploaded evidence file; only its URL reaches the row. */
  datatype Attachment = Attachment(url: string)

  /** The record the `/mdt` handler stores: the case number, the date and the command's options. */
  datatype CaseRecord = CaseRecord(
    caseNum: string,
    date: string,
    reportType: string,
    officer: string,
    suspect: string,
    charge: string,
    location: string,
    evidence: string,
    summary: Option<string>,
    evidenceImage: Option<Attachment>)

  /**
   * The shared `caseData`: `Empty` is the initial `{}` of bot.js:39, which
   * has no fields at all; afterwards it is the record of the latest `/mdt`.
   */
  datatype CaseData = Empty | Current(record: CaseRecord)

  /** A cell of the appended row: a string, or `undefined` when a field of the empty record is read. */
  datatype Cell = Text(value: string) | Undefined

  const NoSummary: string := "No summary provided"
  const NoImage: string := "No image provided"
  const ArrestLogRange: string := "Arrest Log!A1"
  const IncidentReportRange: string := "Incident Report!A1"
  const RowWidth: nat := 9
  /** The column the officer name is written to, and the one the statistics read. */
  const OfficerColumn: nat := 2

  /**
   * `caseData.summary || 'No summary provided'`: both a missing summary
   * (null) and the empty string are falsy and give the placeholder.
   */
  function SummaryCell(summary: Option<string>): (cell: Cell)
    ensures cell.Text?
    ensures summary.Some? && summary.value != "" ==> cell.value == summary.value
    ensures cell.value == NoSummary <==> summary.None? || summary == Some("") || summary == Some(NoSummary)
  {
    match summary
    case Some(s) => if s == "" then Text(NoSummary) else Text(s)
    case None => Text(NoSummary)
  }

  /** `caseData.evidenceImage ? caseData.evidenceImage.url : 'No image provided'`: an attachment object is always truthy. */
  function ImageCell(image: Option<Attachment>): (cell: Cell)
    ensures cell.Text?
    ensures image.Some? ==> cell.value == image.value.url
    ensures cell.value == NoImage <==> image.None? || image.value.url == NoImage
  {
    match image
    case Some(a) => Text(a.url)
    case None => Text(NoImage)
  }

  /**
   * The row the confirm button appends, in the fixed order case number,
   * date, officer, suspect, charge, location, evidence, summary, image. The
   * report type is not a column; it only chooses the range.
   */
  function ConfirmRow(c: CaseData): (row: seq<Cell>)
    ensures |row| == RowWidth
    ensures row[7] == SummaryCell(if c.Current? then c.record.summary else None)
    ensures row[8] == ImageCell(if c.Current? then c.record.evidenceImage else None)
    ensures c.Empty? ==> forall i :: 0 <= i < 7 ==> row[i] == Undefined
    ensures c.Current? ==> forall i :: 0 <= i < RowWidth ==> row[i].Text?
    ensures c.Current? ==> row[..7] == [Text(c.record.caseNum), Text(c.record.date), Text(c.record.officer),
                                        Text(c.record.suspect), Text(c.record.charge), Text(c.record.location),
                                        Text(c.record.evidence)]
  {
    match c
    case Empty =>
      [Undefined, Undefined, Undefined, Undefined, Undefined, Undefined, Undefined,
       SummaryCell(None), ImageCell(None)]
    case Current(r) =>
      [Text(r.caseNum), Text(r.date), Text(r.officer), Text(r.suspect), Text(r.charge),
       Text(r.location), Text(r.evidence), SummaryCell(r.summary), ImageCell(r.evidenceImage)]
  }

  /** `caseData.type === 'Arrest Log' ? 'Arrest Log!A1' : 'Incident Report!A1'`; the empty record's undefined type is not the arrest type. */
  function AppendRange(c: CaseData): (range: string)
    ensures range == ArrestLogRange || range == IncidentReportRange
    ensures range == ArrestLogRange <==> c.Current? && c.record.reportType == ArrestLogType
  {
    if c.Current? && c.record.reportType == ArrestLogType then ArrestLogRange else IncidentReportRange
  }

  /**
   * For a record built by `/mdt`, the case number prefix and the destination
   * range agree: `AL-` numbers go to the arrest log, `IR-` numbers to the
   * incident report.
   */
  lemma PrefixMatchesRange(reportType: string, date: string, sequence: nat, r: CaseRecord)
    requires r.caseNum == CaseNumber(reportType, date, sequence) && r.reportType == reportType
    ensures AppendRange(Current(r)) == ArrestLogRange <==> r.caseNum[..3] == ArrestPrefix
    ensures AppendRange(Current(r)) == IncidentReportRange <==> r.caseNum[..3] == IncidentPrefix
  {
  }
}
