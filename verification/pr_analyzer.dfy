/**
 * The three tools of `PRAnalyzer`: `fetch_mr_details`, `analyze_code_changes`
 * and `store_in_confluence`, with the markup they render. The GitLab and
 * Confluence clients are oracles; the pages a call asks Confluence to create
 * are returned as a list of requests, so that "nothing was created" can be
 * stated.
 */
module PRAnalyzer {
  import opened Wrappers
  import opened Text
  import opened GitLabPR
  import opened ChangeStats

  /** `page['_links']` of a created page. */
  datatype PageLinks = PageLinks(base: string, webui: string)

  /** The arguments of one `create_page` call. */
  datatype PageRequest = PageRequest(space: string, title: string, body: string, parentId: Option<string>)

  /** The Confluence client with the configured space. */
  datatype Confluence = Confluence(
    space: string,
    getPageId: (string, string) -> Option<string>,
    createPage: PageRequest -> Result<PageLinks, string>)

  /** The analyzer's client handles; Confluence is absent unless URL, user name and token are all set. */
  datatype Analyzer = Analyzer(gl: GitLabApi, confluence: Option<Confluence>)

  /** What a tool call raises. */
  datatype ToolError =
    | Remote(error: GitLabError)   // a python-gitlab exception, re-raised unchanged
    | Raised(message: string)      // the Exception raised by get_merge_requests
    | NotConfigured                // ValueError("Confluence integration is not configured")
    | NotARecord                   // the list of all MRs used where one MR's dict is expected
    | WikiError(message: string)   // an exception from create_page

  /** One merge request's record with its `changes`. */
  datatype MRDetails = MRDetails(record: MRRecord, changes: seq<Change>)

  /** `fetch_mr_details` returns either one augmented record or the list of all records. */
  datatype Fetched = Single(details: MRDetails) | Listing(records: seq<MRRecord>)

  /** `mr.changes()['changes'] if mr.state == 'opened' else []`: the diff is only requested for an opened MR. */
  function OpenedChanges(gl: GitLabApi, p: Project, mr: MergeRequest): (r: Result<seq<Change>, GitLabError>)
    ensures mr.state == Opened ==> r == gl.changes(p, mr)
    ensures mr.state != Opened ==> r == Success([])
  {
    if mr.state == Opened then gl.changes(p, mr) else Success([])
  }

  /** `fetch_mr_details(project_id)`: the records of the opened merge requests, any failure rewrapped. */
  function FetchAll(gl: GitLabApi, projectId: string): (r: Result<seq<MRRecord>, ToolError>)
    ensures r.Success? <==> MergeRequestsOf(gl, projectId, Opened).Success?
    ensures r.Success? ==> r.value == MergeRequestsOf(gl, projectId, Opened).value
    ensures r.Failure? ==> r.error == Raised(MergeRequestsOf(gl, projectId, Opened).error)
  {
    match MergeRequestsOf(gl, projectId, Opened)
    case Failure(msg) => Failure(Raised(msg))
    case Success(records) => Success(records)
  }

  /**
   * `fetch_mr_details(project_id, mr_id)`. A non-zero id fetches that merge
   * request directly (no '%2F' fallback); an absent or zero id, being falsy,
   * lists all opened merge requests instead.
   */
  function FetchMRDetails(gl: GitLabApi, projectId: string, mrId: Option<int>): (r: Result<Fetched, ToolError>)
    ensures r.Success? ==> (r.value.Single? <==> mrId.Some? && mrId.value != 0)
    ensures r.Success? && r.value.Single? && r.value.details.record.state != Opened ==> r.value.details.changes == []
    ensures r.Success? && r.value.Single? ==>
      exists p, mr :: gl.projectsGet(projectId) == Success(p) && gl.mergeRequestsGet(p, mrId.value) == Success(mr)
        && r.value.details.record == ToRecord(mr)
        && (mr.state == Opened ==> gl.changes(p, mr) == Success(r.value.details.changes))
    ensures mrId.Some? && mrId.value != 0 ==>
      forall p, mr, cs ::
        gl.projectsGet(projectId) == Success(p) && gl.mergeRequestsGet(p, mrId.value) == Success(mr)
        && OpenedChanges(gl, p, mr) == Success(cs)
        ==> r == Success(Single(MRDetails(ToRecord(mr), cs)))
    ensures mrId.Some? && mrId.value != 0 && r.Failure? ==>
      var project := gl.projectsGet(projectId);
      && r.error.Remote?
      && (project.Failure? ==> r.error.error == project.error)
      && (project.Success? && gl.mergeRequestsGet(project.value, mrId.value).Failure? ==>
            r.error.error == gl.mergeRequestsGet(project.value, mrId.value).error)
      && (project.Success? && gl.mergeRequestsGet(project.value, mrId.value).Success? ==>
            var changes := OpenedChanges(gl, project.value, gl.mergeRequestsGet(project.value, mrId.value).value);
            changes.Failure? && r.error.error == changes.error)
    ensures (mrId.None? || mrId == Some(0)) ==>
      r == match FetchAll(gl, projectId) {
        case Failure(e) => Failure(e)
        case Success(records) => Success(Listing(records))
      }
  {
    if mrId.Some? && mrId.value != 0 then
      match gl.projectsGet(projectId)
      case Failure(e) => Failure(Remote(e))
      case Success(p) =>
        match gl.mergeRequestsGet(p, mrId.value)
        case Failure(e) => Failure(Remote(e))
        case Success(mr) =>
          match OpenedChanges(gl, p, mr)
          case Failure(e) => Failure(Remote(e))
          case Success(changes) => Success(Single(MRDetails(ToRecord(mr), changes)))
    else
      match FetchAll(gl, projectId)
      case Failure(e) => Failure(e)
      case Success(records) => Success(Listing(records))
  }

  /** For an MR that is not opened, the diff endpoint is never consulted: any other diff gives the same result. */
  lemma ClosedMRIgnoresDiff(gl: GitLabApi, other: (Project, MergeRequest) -> Result<seq<Change>, GitLabError>,
                            projectId: string, mrId: int, p: Project, mr: MergeRequest)
    requires mrId != 0
    requires gl.projectsGet(projectId) == Success(p) && gl.mergeRequestsGet(p, mrId) == Success(mr)
    requires mr.state != Opened
    ensures FetchMRDetails(gl, projectId, Some(mrId)) == Success(Single(MRDetails(ToRecord(mr), [])))
    ensures FetchMRDetails(gl.(changes := other), projectId, Some(mrId)) == FetchMRDetails(gl, projectId, Some(mrId))
  {
  }

  /**
   * `analyze_code_changes(project_id, mr_id)`: fetch the merge request and
   * run the aggregation loop over its changes.
   */
  method AnalyzeCodeChanges(a: Analyzer, projectId: string, mrId: int) returns (r: Result<Analysis, ToolError>)
    ensures match FetchMRDetails(a.gl, projectId, Some(mrId)) {
      case Failure(e) => r == Failure(e)
      case Success(Listing(_)) => r == Failure(NotARecord)
      case Success(Single(d)) => r == Success(AnalysisOf(d.changes))
    }
    ensures r.Success? ==> mrId != 0
  {
    var fetched := FetchMRDetails(a.gl, projectId, Some(mrId));
    if fetched.Failure? {
      return Failure(fetched.error);
    }
    if fetched.value.Listing? {
      return Failure(NotARecord);
    }
    var analysis := Analyze(fetched.value.details.changes);
    r := Success(analysis);
  }

  /** The analysis of an MR that is not opened is all zeros, with no types and no files. */
  lemma ClosedMRAnalysisIsEmpty(a: Analyzer, projectId: string, mrId: int, p: Project, mr: MergeRequest)
    requires mrId != 0
    requires a.gl.projectsGet(projectId) == Success(p) && a.gl.mergeRequestsGet(p, mrId) == Success(mr)
    requires mr.state != Opened
    ensures FetchMRDetails(a.gl, projectId, Some(mrId)).Success?
    ensures AnalysisOf(FetchMRDetails(a.gl, projectId, Some(mrId)).value.details.changes) == EmptyAnalysis
  {
    ClosedMRIgnoresDiff(a.gl, a.gl.changes, projectId, mrId, p, mr);
  }

  // ---- Markup ----

  const ParentPageTitle := "PR Analysis Reports"
  const SummaryHeading := "h2. Merge Requests Summary\n\n"
  const TableHeader := "||File Path||Type||Additions||Deletions||"

  /** `f"MR Summary - {project_id}"`. */
  function SummaryTitle(projectId: string): string { "MR Summary - " + projectId }

  /** `f"MR Analysis - {mr_details['title']}"`. */
  function AnalysisTitle(title: string): string { "MR Analysis - " + title }

  /** The heading block appended for one merge request on the summary page. */
  function SummaryBlock(mr: MRRecord): string
  {
    "\nh3. " + mr.title + "\n* ID: " + NatToString(mr.id) + "\n* State: " + mr.state
    + "\n* Author: " + mr.author.name + "\n* Source Branch: " + mr.sourceBranch
    + "\n* Target Branch: " + mr.targetBranch + "\n* [View in GitLab](" + mr.webUrl + ")\n\n"
  }

  /** The block of every merge request, in order. */
  function SummaryBlocks(mrs: seq<MRRecord>): seq<string>
  {
    seq(|mrs|, i requires 0 <= i < |mrs| => SummaryBlock(mrs[i]))
  }

  lemma SummaryBlocksSnoc(mrs: seq<MRRecord>, i: nat)
    requires i < |mrs|
    ensures SummaryBlocks(mrs[..i + 1]) == SummaryBlocks(mrs[..i]) + [SummaryBlock(mrs[i])]
  {
  }

  /** The `content +=` loop that builds the summary page (pr_analyzer.py:162-173). */
  method RenderSummary(mrs: seq<MRRecord>) returns (content: string)
    ensures content == SummaryHeading + Concat(SummaryBlocks(mrs))
  {
    content := SummaryHeading;
    var i := 0;
    while i < |mrs|
      invariant 0 <= i <= |mrs|
      invariant content == SummaryHeading + Concat(SummaryBlocks(mrs[..i]))
    {
      var block := SummaryBlock(mrs[i]);
      SummaryBlocksSnoc(mrs, i);
      ConcatSnoc(SummaryBlocks(mrs[..i]), block);
      AppendAssoc(SummaryHeading, Concat(SummaryBlocks(mrs[..i])), block);
      content := content + block;
      i := i + 1;
    }
    assert mrs[..|mrs|] == mrs;
  }

  /** On the summary page the block of the i-th merge request follows the heading and the blocks of those before it. */
  lemma SummaryBlockPlacement(mrs: seq<MRRecord>, i: nat)
    requires i < |mrs|
    ensures OccursAt(SummaryHeading + Concat(SummaryBlocks(mrs)), SummaryBlock(mrs[i]),
                     |SummaryHeading| + |Concat(SummaryBlocks(mrs[..i]))|)
  {
    var blocks := SummaryBlocks(mrs);
    ConcatPlacement(blocks, i);
    assert blocks[..i] == SummaryBlocks(mrs[..i]);
    OccursAfterPrefix(SummaryHeading, Concat(blocks), blocks[i], |Concat(blocks[..i])|);
  }

  /** The basic-information section shared by both single-MR pages. */
  function BasicInfo(mr: MRRecord): string
  {
    "h3. Basic Information\n* Title: " + mr.title + "\n* ID: " + NatToString(mr.id)
    + "\n* State: " + mr.state + "\n* Author: " + mr.author.name
    + "\n* Source Branch: " + mr.sourceBranch + "\n* Target Branch: " + mr.targetBranch
    + "\n* [View in GitLab](" + mr.webUrl + ")\n"
  }

  /** One row of the detailed-changes table: `f"|{path}|{type}|{additions}|{deletions}|"`. */
  function Row(f: FileEntry): string
  {
    "|" + f.path + "|" + f.fileType + "|" + NatToString(f.additions) + "|" + NatToString(f.deletions) + "|"
  }

  /** The row of every file entry, in order. */
  function Rows(files: seq<FileEntry>): seq<string>
  {
    seq(|files|, i requires 0 <= i < |files| => Row(files[i]))
  }

  /** `chr(10).join(...)` over the file entries. */
  function Table(files: seq<FileEntry>): string
  {
    Join(Rows(files), '\n')
  }

  /** The page body when no analysis is given; the `changes` payload between the code markers is not rendered. */
  function DetailsBody(mr: MRRecord): string
  {
    DetailsHeading + BasicInfo(mr) + "\nh3. Changes\n{{code}}\n{{code}}\n"
  }

  // Both single-MR pages open with the newline that follows the f-string's opening quotes.
  const DetailsHeading := "\nh2. Merge Request Details\n\n"
  const AnalysisHeading := "\nh2. Merge Request Analysis Report\n\n"
  const TableIntro := "h3. Detailed File Changes\n" + TableHeader + "\n"

  /** The detailed-changes section: its heading, the table header and the table, then a newline. */
  function TableSection(files: seq<FileEntry>): string
  {
    TableIntro + Table(files) + "\n"
  }

  /** The code-analysis and file-types sections of a full report. */
  function CodeAnalysisSection(a: Analysis): string
  {
    "\nh3. Code Analysis\n* Total Files Changed: " + NatToString(a.totalFilesChanged)
    + "\n* Total Additions: " + NatToString(a.totalAdditions)
    + "\n* Total Deletions: " + NatToString(a.totalDeletions)
    + "\n\nh3. File Types Changed\n{{code}}\n{{code}}\n\n"
  }

  /** The page body of a full analysis report; the `file_types` payload between the code markers is not rendered. */
  function AnalysisBody(mr: MRRecord, a: Analysis): string
  {
    ReportFront(mr, a) + TableSection(a.files)
  }

  /** Everything of a full report before its detailed-changes section. */
  function ReportFront(mr: MRRecord, a: Analysis): string
  {
    AnalysisHeading + BasicInfo(mr) + CodeAnalysisSection(a)
  }

  /** Both single-MR pages carry the merge request's basic information right after their heading. */
  lemma BasicInfoPlacement(mr: MRRecord, a: Analysis)
    ensures OccursAt(DetailsBody(mr), BasicInfo(mr), |DetailsHeading|)
    ensures OccursAt(AnalysisBody(mr, a), BasicInfo(mr), |AnalysisHeading|)
  {
    MiddleOccurs(DetailsHeading, BasicInfo(mr), "\nh3. Changes\n{{code}}\n{{code}}\n");
    var front := ReportFront(mr, a);
    MiddleOccurs(AnalysisHeading, BasicInfo(mr), CodeAnalysisSection(a));
    OccursBeforeSuffix(front, BasicInfo(mr), |AnalysisHeading|, TableSection(a.files));
  }

  /** `body` ends with the table of `files` followed by a newline. */
  predicate EndsWithTable(body: string, files: seq<FileEntry>)
  {
    var table := Table(files);
    |table| + 1 <= |body| && OccursAt(body, table, |body| - |table| - 1) && body[|body| - 1] == '\n'
  }

  lemma SectionEndsWithTable(front: string, files: seq<FileEntry>)
    ensures EndsWithTable(front + TableSection(files), files)
  {
    EndsWithLine(front, TableIntro, Table(files));
  }

  /** The full report ends with the table of its file entries and a final newline. */
  lemma AnalysisBodyEndsWithTable(mr: MRRecord, a: Analysis)
    ensures EndsWithTable(AnalysisBody(mr, a), a.files)
  {
    SectionEndsWithTable(ReportFront(mr, a), a.files);
  }

  /** A rendered count holds only digits. */
  lemma DigitsHaveNoSeparator(n: nat, sep: char)
    requires !('0' <= sep <= '9')
    ensures sep !in NatToString(n)
  {
  }

  /** The cells of a row, the empty text before the first '|' and after the last one included. */
  function RowCells(f: FileEntry): seq<string>
  {
    ["", f.path, f.fileType, NatToString(f.additions), NatToString(f.deletions), ""]
  }

  lemma RowIsJoinOfCells(f: FileEntry)
    ensures Join(RowCells(f), '|') == Row(f)
  {
    var cells := RowCells(f);
    var adds, dels := NatToString(f.additions), NatToString(f.deletions);
    var bar := "|";
    assert cells[5..] == [""];
    assert cells[4..] == [dels] + cells[5..];
    JoinCons(dels, cells[5..], '|');
    var j4 := dels + bar;
    assert Join(cells[4..], '|') == j4;
    assert cells[3..] == [adds] + cells[4..];
    JoinCons(adds, cells[4..], '|');
    var j3 := adds + bar + j4;
    assert Join(cells[3..], '|') == j3;
    assert cells[2..] == [f.fileType] + cells[3..];
    JoinCons(f.fileType, cells[3..], '|');
    var j2 := f.fileType + bar + j3;
    assert Join(cells[2..], '|') == j2;
    assert cells[1..] == [f.path] + cells[2..];
    JoinCons(f.path, cells[2..], '|');
    var j1 := f.path + bar + j2;
    assert Join(cells[1..], '|') == j1;
    assert cells == [""] + cells[1..];
    JoinCons("", cells[1..], '|');
    assert Join(cells, '|') == bar + j1;
  }

  /**
   * A row splits on '|' into an empty cell, the path, the type, the two
   * counts in decimal and an empty cell, and the counts read back exactly.
   */
  lemma RowRoundTrip(f: FileEntry)
    requires '|' !in f.path && '|' !in f.fileType
    ensures Split(Row(f), '|') == RowCells(f)
    ensures ParseNat(NatToString(f.additions)) == f.additions
    ensures ParseNat(NatToString(f.deletions)) == f.deletions
  {
    DigitsHaveNoSeparator(f.additions, '|');
    DigitsHaveNoSeparator(f.deletions, '|');
    RowIsJoinOfCells(f);
    SplitJoin(RowCells(f), '|');
    ParseNatToString(f.additions);
    ParseNatToString(f.deletions);
  }

  /** A character that is neither '|' nor a digit is in a row only if it is in the path or the type. */
  lemma RowWithout(f: FileEntry, c: char)
    requires c != '|' && !('0' <= c <= '9')
    requires c !in f.path && c !in f.fileType
    ensures c !in Row(f)
  {
    DigitsHaveNoSeparator(f.additions, c);
    DigitsHaveNoSeparator(f.deletions, c);
    RowIsJoinOfCells(f);
    var cells := RowCells(f);
    assert forall k :: 0 <= k < |cells| ==> c !in cells[k];
    JoinWithout(cells, '|', c);
  }

  /**
   * The table has exactly one line per file entry, in order: splitting it on
   * newlines gives back the rows, provided no path or type holds a newline.
   */
  lemma TableLines(files: seq<FileEntry>)
    requires |files| >= 1
    requires forall i :: 0 <= i < |files| ==> '\n' !in files[i].path && '\n' !in files[i].fileType
    ensures var lines := Split(Table(files), '\n');
      |lines| == |files| && forall i :: 0 <= i < |files| ==> lines[i] == Row(files[i])
  {
    forall i | 0 <= i < |files|
      ensures '\n' !in Rows(files)[i]
    {
      RowWithout(files[i], '\n');
    }
    SplitJoin(Rows(files), '\n');
  }

  /** With no file entries the table is empty. */
  lemma EmptyTable()
    ensures Table([]) == ""
  {
  }

  /**
   * The page `store_in_confluence` is about to create, as (title, body), or
   * the error raised before any page is created.
   */
  function PlannedPage(gl: GitLabApi, projectId: string, mrId: Option<int>, analysis: Option<Analysis>)
    : (r: Result<(string, string), ToolError>)
    ensures mrId.None? && r.Success? ==> r.value.0 == SummaryTitle(projectId)
    ensures mrId.Some? && r.Success? ==>
      && FetchMRDetails(gl, projectId, mrId).Success? && FetchMRDetails(gl, projectId, mrId).value.Single?
      && r.value.0 == AnalysisTitle(FetchMRDetails(gl, projectId, mrId).value.details.record.title)
    ensures mrId == Some(0) ==> r.Failure?
    ensures mrId.None? ==> (r.Success? <==> FetchAll(gl, projectId).Success?)
    ensures mrId.None? && r.Failure? ==> r.error == FetchAll(gl, projectId).error
    ensures mrId.Some? && mrId.value != 0 ==> (r.Success? <==> FetchMRDetails(gl, projectId, mrId).Success?)
    ensures mrId.Some? && r.Failure? && FetchMRDetails(gl, projectId, mrId).Failure? ==>
      r.error == FetchMRDetails(gl, projectId, mrId).error
    ensures mrId.None? && r.Success? ==>
      FetchAll(gl, projectId).Success? && r.value.1 == SummaryHeading + Concat(SummaryBlocks(FetchAll(gl, projectId).value))
    ensures mrId.Some? && r.Success? ==>
      var rec := FetchMRDetails(gl, projectId, mrId).value.details.record;
      r.value.1 == (if analysis.None? then DetailsBody(rec) else AnalysisBody(rec, analysis.value))
  {
    if mrId.None? then
      match FetchAll(gl, projectId)
      case Failure(e) => Failure(e)
      case Success(records) => Success((SummaryTitle(projectId), SummaryHeading + Concat(SummaryBlocks(records))))
    else
      match FetchMRDetails(gl, projectId, mrId)
      case Failure(e) => Failure(e)
      case Success(Listing(_)) => Failure(NotARecord)
      case Success(Single(d)) =>
        var body := if analysis.None? then DetailsBody(d.record) else AnalysisBody(d.record, analysis.value);
        Success((AnalysisTitle(d.record.title), body))
  }

  /**
   * `store_in_confluence(project_id, mr_id, analysis)`: refuse without a
   * Confluence client, render the page, create it under "PR Analysis
   * Reports" and return its URL. `requests` lists the `create_page` calls made.
   */
  method StoreInConfluence(a: Analyzer, projectId: string, mrId: Option<int>, analysis: Option<Analysis>)
    returns (r: Result<string, ToolError>, requests: seq<PageRequest>)
    ensures a.confluence.None? ==> r == Failure(NotConfigured) && requests == []
    ensures a.confluence.Some? ==>
      var wiki := a.confluence.value;
      match PlannedPage(a.gl, projectId, mrId, analysis) {
        case Failure(e) => r == Failure(e) && requests == []
        case Success(page) =>
          && requests == [PageRequest(wiki.space, page.0, page.1, wiki.getPageId(wiki.space, ParentPageTitle))]
          && r == match wiki.createPage(requests[0]) {
               case Failure(msg) => Failure(WikiError(msg))
               case Success(links) => Success(links.base + links.webui)
             }
      }
    ensures |requests| <= 1 && (r.Success? ==> |requests| == 1)
  {
    if a.confluence.None? {
      return Failure(NotConfigured), [];
    }
    var wiki := a.confluence.value;
    var title: string, content: string;
    if mrId.None? {
      var fetched := FetchAll(a.gl, projectId);
      if fetched.Failure? {
        return Failure(fetched.error), [];
      }
      content := RenderSummary(fetched.value);
      title := SummaryTitle(projectId);
    } else {
      var fetched := FetchMRDetails(a.gl, projectId, mrId);
      if fetched.Failure? {
        return Failure(fetched.error), [];
      }
      if fetched.value.Listing? {
        return Failure(NotARecord), [];
      }
      var mr := fetched.value.details.record;
      if analysis.None? {
        content := DetailsBody(mr);
      } else {
        content := AnalysisBody(mr, analysis.value);
      }
      title := AnalysisTitle(mr.title);
    }
    var parentId := wiki.getPageId(wiki.space, ParentPageTitle);
    var request := PageRequest(wiki.space, title, content, parentId);
    requests := [request];
    match wiki.createPage(request)
    case Failure(msg) => r := Failure(WikiError(msg));
    case Success(links) => r := Success(links.base + links.webui);
  }
}
