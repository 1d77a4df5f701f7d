/**
 * The bot's module-level state, `caseData` and `caseNumber` (bot.js:39-40),
 * and the interaction handlers that read and write it: `/mdt` (bot.js:92-106),
 * `/officerstats` (bot.js:132-165) and the confirm and cancel buttons
 * (bot.js:174-208).
 */
module MdtBot {
  import opened Wrappers
  import opened CaseNumbers
  import opened ReportRow
  import opened OfficerStats

  /** The counter value of a freshly started process (bot.js:40). */
  const FirstCaseNumber: nat := 1000

  /** What the confirm button hands to `values.append`: the destination range and the row. */
  datatype AppendRequest = AppendRequest(range: string, row: seq<Cell>)

  /**
   * Whether the authorisation and the append went through or threw. The
   * success notice sent after the append is not part of it.
   */
  datatype ConfirmOutcome = Logged | LogFailed

  /**
   * The interactions the two `interactionCreate` listeners act on. For `/mdt`,
   * `deferred` says whether `interaction.deferReply()` (bot.js:101) resolved;
   * when it rejects, the handler stops before it reads the counter.
   */
  datatype Interaction =
    | MdtCommand(reportType: string, officer: string, suspect: string, charge: string, location: string,
                 evidence: string, summary: Option<string>, evidenceImage: Option<Attachment>, deferred: bool)
    | OfficerStatsCommand(officerName: string, arrest: Fetch, incident: Fetch)
    | ConfirmButton(appendSucceeds: bool)
    | CancelButton
    | Other

  /** What handling an interaction produces, besides the state change. */
  datatype Effect =
    | CaseOpened(caseNum: string)
    | DeferFailed
    | StatsReplied(reply: StatsReply)
    | Appended(request: AppendRequest, outcome: ConfirmOutcome)
    | Canceled
    | Ignored

  /**
   * Every case number issued so far, in order, carries the counter value
   * FirstCaseNumber + its position.
   */
  ghost predicate IssuedInOrder(issued: seq<string>) {
    forall i :: 0 <= i < |issued| ==>
      ParseCaseNumber(issued[i]).Some? && ParseCaseNumber(issued[i]).value.sequence == FirstCaseNumber + i
  }

  /** Within one process the sequence parts strictly increase, so no case number is issued twice. */
  lemma IssuedNeverRepeat(issued: seq<string>)
    requires IssuedInOrder(issued)
    ensures forall i, j :: 0 <= i < j < |issued| ==>
      ParseCaseNumber(issued[i]).value.sequence < ParseCaseNumber(issued[j]).value.sequence
    ensures forall i, j :: 0 <= i < j < |issued| ==> issued[i] != issued[j]
  {
  }

  /** Issuing the case number with the next counter value keeps the issued list in order. */
  lemma IssueNext(issued: seq<string>, reportType: string, date: string)
    requires IssuedInOrder(issued)
    ensures IssuedInOrder(issued + [CaseNumber(reportType, date, FirstCaseNumber + |issued|)])
  {
    var caseNum := CaseNumber(reportType, date, FirstCaseNumber + |issued|);
    CaseNumberRoundTrip(reportType, date, FirstCaseNumber + |issued|);
    var next := issued + [caseNum];
    forall i | 0 <= i < |next|
      ensures ParseCaseNumber(next[i]).Some? && ParseCaseNumber(next[i]).value.sequence == FirstCaseNumber + i
    {
      if i < |issued| {
        assert next[i] == issued[i];
      }
    }
  }

  class Bot {
    /** The single shared current case; every `/mdt` whose defer resolved replaces it (last write wins). */
    var caseData: CaseData
    /** The next sequence number to hand out. */
    var caseNumber: nat
    /** The case numbers issued so far, oldest first. */
    ghost var issued: seq<string>

    ghost predicate Valid()
      reads this
    {
      && caseNumber == FirstCaseNumber + |issued|
      && IssuedInOrder(issued)
      && (caseData.Empty? <==> issued == [])
      && (caseData.Current? ==> caseData.record.caseNum == issued[|issued| - 1])
    }

    /** The state at start-up: `caseData = {}` and `caseNumber = 1000`. */
    constructor ()
      ensures Valid()
      ensures caseData == Empty && caseNumber == FirstCaseNumber && issued == []
    {
      caseData := Empty;
      caseNumber := FirstCaseNumber;
      issued := [];
    }

    /**
     * The `/mdt` handler: builds the case number from the counter's current
     * value, post-increments the counter, and replaces the whole current case.
     */
    method Mdt(reportType: string, officer: string, suspect: string, charge: string, location: string,
               evidence: string, summary: Option<string>, evidenceImage: Option<Attachment>, date: string)
      returns (caseNum: string)
      requires Valid()
      modifies this
      ensures Valid()
      ensures caseNum == CaseNumber(reportType, date, old(caseNumber))
      ensures caseNumber == old(caseNumber) + 1
      ensures caseData == Current(CaseRecord(caseNum, date, reportType, officer, suspect, charge, location,
                                             evidence, summary, evidenceImage))
      ensures issued == old(issued) + [caseNum]
    {
      caseNum := CaseNumber(reportType, date, caseNumber);
      IssueNext(issued, reportType, date);
      caseNumber := caseNumber + 1;
      caseData := Current(CaseRecord(caseNum, date, reportType, officer, suspect, charge, location,
                                     evidence, summary, evidenceImage));
      issued := issued + [caseNum];
    }

    /**
     * The confirm button: serialises the current case and appends it to the
     * range its type selects. Success and failure differ only in the notice;
     * the state is read, never written, so confirming twice appends the
     * same row twice.
     */
    method Confirm(appendSucceeds: bool) returns (request: AppendRequest, outcome: ConfirmOutcome)
      ensures request.range == AppendRange(caseData)
      ensures request.row == ConfirmRow(caseData)
      ensures outcome == Logged <==> appendSucceeds
    {
      var row := ConfirmRow(caseData);
      var range := AppendRange(caseData);
      request := AppendRequest(range, row);
      outcome := if appendSucceeds then Logged else LogFailed;
    }

    /** The cancel button only edits the message: the current case and the counter stay as they were. */
    method Cancel()
      ensures caseData == old(caseData) && caseNumber == old(caseNumber) && issued == old(issued)
    {
    }

    /**
     * One interaction. Only an `/mdt` whose deferred reply went through
     * changes the state; a failed defer, `/officerstats`, confirm, cancel and
     * anything else leave the case and the counter alone.
     */
    method Handle(event: Interaction, date: string) returns (effect: Effect)
      requires Valid()
      modifies this
      ensures Valid()
      ensures !(event.MdtCommand? && event.deferred) ==>
        caseData == old(caseData) && caseNumber == old(caseNumber) && issued == old(issued)
      ensures event.MdtCommand? && !event.deferred ==> effect == DeferFailed
      ensures event.MdtCommand? && event.deferred ==>
        && caseNumber == old(caseNumber) + 1
        && effect == CaseOpened(CaseNumber(event.reportType, date, old(caseNumber)))
        && caseData == Current(CaseRecord(effect.caseNum, date, event.reportType, event.officer, event.suspect,
                                          event.charge, event.location, event.evidence, event.summary,
                                          event.evidenceImage))
      ensures event.OfficerStatsCommand? ==>
        effect == StatsReplied(OfficerStatsReply(event.arrest, event.incident, event.officerName))
      ensures event.ConfirmButton? ==>
        effect == Appended(AppendRequest(AppendRange(caseData), ConfirmRow(caseData)),
                           if event.appendSucceeds then Logged else LogFailed)
      ensures event.CancelButton? ==> effect == Canceled
      ensures event.Other? ==> effect == Ignored
    {
      match event
      case MdtCommand(reportType, officer, suspect, charge, location, evidence, summary, evidenceImage, deferred) =>
        if deferred {
          var caseNum := Mdt(reportType, officer, suspect, charge, location, evidence, summary, evidenceImage, date);
          effect := CaseOpened(caseNum);
        } else {
          effect := DeferFailed;
        }
      case OfficerStatsCommand(officerName, arrest, incident) =>
        effect := StatsReplied(OfficerStatsReply(arrest, incident, officerName));
      case ConfirmButton(appendSucceeds) =>
        var request, outcome := Confirm(appendSucceeds);
        effect := Appended(request, outcome);
      case CancelButton =>
        Cancel();
        effect := Canceled;
      case Other =>
        effect := Ignored;
    }
  }

  // ---------------------------------------------------------------- the sheet the rows land in

  /**
   * The two tabs below their header rows: the rows `/officerstats` reads
   * (`A2:I`, bot.js:136-137) and the confirm button appends to.
   */
  datatype Sheet = Sheet(arrestLog: seq<seq<string>>, incidentReport: seq<seq<string>>)

  /** An undefined value travels as an empty cell. */
  function CellText(c: Cell): string {
    match c
    case Text(v) => v
    case Undefined => ""
  }

  function StoredRow(row: seq<Cell>): (stored: seq<string>)
    ensures |stored| == |row|
    ensures forall i :: 0 <= i < |row| ==> stored[i] == CellText(row[i])
  {
    seq(|row|, i requires 0 <= i < |row| => CellText(row[i]))
  }

  /** The append effect: the row goes to the end of the tab its range names. */
  function AppendToSheet(sheet: Sheet, request: AppendRequest): (after: Sheet)
    ensures request.range == ArrestLogRange ==>
      after == sheet.(arrestLog := sheet.arrestLog + [StoredRow(request.row)])
    ensures request.range == IncidentReportRange ==>
      after == sheet.(incidentReport := sheet.incidentReport + [StoredRow(request.row)])
  {
    if request.range == ArrestLogRange then sheet.(arrestLog := sheet.arrestLog + [StoredRow(request.row)])
    else if request.range == IncidentReportRange then sheet.(incidentReport := sheet.incidentReport + [StoredRow(request.row)])
    else sheet
  }

  /** The statistics `/officerstats` shows for the sheet as it stands. */
  function StatsOf(sheet: Sheet, name: string): (stats: Stats)
    ensures stats.arrestCases == CountByOfficer(sheet.arrestLog, name)
    ensures stats.incidentCases == CountByOfficer(sheet.incidentReport, name)
    ensures stats.totalCases == stats.arrestCases + stats.incidentCases
  {
    OfficerStatsReply(Fetched(Some(sheet.arrestLog)), Fetched(Some(sheet.incidentReport)), name).stats
  }

  /** The stored confirm row of a case holds the case's officer in the column the statistics read. */
  lemma StoredRowNamesOfficer(r: CaseRecord, name: string)
    ensures ByOfficer(StoredRow(ConfirmRow(Current(r))), name) <==> name == r.officer
  {
    var row := ConfirmRow(Current(r));
    assert row[OfficerColumn] == Text(r.officer);
    assert StoredRow(row)[OfficerColumn] == r.officer;
  }

  /**
   * Confirming a case and then asking for statistics: the case counts once,
   * for its own officer only, as an arrest exactly when its type is
   * "Arrest Log" and as an incident otherwise.
   */
  lemma ConfirmedCaseCountsForItsOfficer(r: CaseRecord, sheet: Sheet, name: string)
    ensures
      var after := AppendToSheet(sheet, AppendRequest(AppendRange(Current(r)), ConfirmRow(Current(r))));
      var one := if name == r.officer then 1 else 0;
      && StatsOf(after, name).totalCases == StatsOf(sheet, name).totalCases + one
      && StatsOf(after, name).arrestCases
         == StatsOf(sheet, name).arrestCases + (if r.reportType == ArrestLogType then one else 0)
      && StatsOf(after, name).incidentCases
         == StatsOf(sheet, name).incidentCases + (if r.reportType == ArrestLogType then 0 else one)
  {
    var row := StoredRow(ConfirmRow(Current(r)));
    StoredRowNamesOfficer(r, name);
    var request := AppendRequest(AppendRange(Current(r)), ConfirmRow(Current(r)));
    if r.reportType == ArrestLogType {
      assert AppendToSheet(sheet, request) == sheet.(arrestLog := sheet.arrestLog + [row]);
      CountAppendRow(sheet.arrestLog, row, name);
    } else {
      assert AppendToSheet(sheet, request) == sheet.(incidentReport := sheet.incidentReport + [row]);
      CountAppendRow(sheet.incidentReport, row, name);
    }
  }
}
