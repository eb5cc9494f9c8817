/**
 * The project-access facade `GitLabPRManager.get_merge_requests`: resolve a
 * project by its identifier, falling back once to the identifier with every
 * '/' percent-encoded, list its merge requests in one state and map each to
 * a normalised record. The hosting client is an oracle, `GitLabApi`.
 */
module GitLabPR {
  import opened Wrappers
  import opened Text

  /** The python-gitlab exceptions the facade tells apart; `message` is `str(e)`. */
  datatype GitLabError =
    | AuthenticationError(message: string)  // GitlabAuthenticationError
    | GetError(message: string)             // GitlabGetError, raised by `projects.get` and `mergerequests.get`
    | OtherError(message: string)           // anything else, e.g. GitlabListError from `mergerequests.list`

  /** A project handle as returned by `projects.get`. */
  datatype Project = Project(id: nat, name: string)

  /** The `author` attribute of a merge request; the server sends more keys than the record keeps. */
  datatype User = User(id: nat, name: string, username: string)

  /** One changed file of `mr.changes()['changes']`. */
  datatype Change = Change(newPath: string, diff: string)

  /** The attributes of a merge-request handle that the program reads. */
  datatype MergeRequest = MergeRequest(
    id: nat,         // instance-wide id, not used by the record
    iid: nat,        // project-scoped number, the record's `id`
    title: string,
    description: string,
    state: string,
    createdAt: string,
    updatedAt: string,
    author: User,
    sourceBranch: string,
    targetBranch: string,
    webUrl: string)

  /** The author part of a normalised record: only `name` and `username`. */
  datatype AuthorInfo = AuthorInfo(name: string, username: string)

  /** The normalised merge-request record built at gitlab_pr.py:63-77. */
  datatype MRRecord = MRRecord(
    id: nat,
    title: string,
    description: string,
    state: string,
    createdAt: string,
    updatedAt: string,
    author: AuthorInfo,
    sourceBranch: string,
    targetBranch: string,
    webUrl: string)

  /** The hosting-platform client: each remote call either returns or raises. */
  datatype GitLabApi = GitLabApi(
    projectsGet: string -> Result<Project, GitLabError>,
    mergeRequestsList: (Project, string) -> Result<seq<MergeRequest>, GitLabError>,
    mergeRequestsGet: (Project, int) -> Result<MergeRequest, GitLabError>,
    changes: (Project, MergeRequest) -> Result<seq<Change>, GitLabError>)

  /** `project_id.replace('/', '%2F')`. */
  function EncodeSlashes(s: string): (r: string)
    ensures '/' !in r
    ensures |r| == |s| + 2 * CountChar(s, '/')
    ensures '/' !in s ==> r == s
  {
    if s == [] then ""
    else
      assert s == [s[0]] + s[1..];
      EncodeChar(s[0]) + EncodeSlashes(s[1..])
  }

  /** The replacement of one character: '/' becomes "%2F", anything else stays. */
  function EncodeChar(c: char): string
  {
    if c == '/' then "%2F" else [c]
  }

  /** The inverse of `replace('/', '%2F')`: every `%2F` read back as '/'. */
  function DecodeSlashes(s: string): string
  {
    if |s| >= 3 && s[..3] == "%2F" then "/" + DecodeSlashes(s[3..])
    else if s == [] then ""
    else [s[0]] + DecodeSlashes(s[1..])
  }

  lemma DecodeAfterEncodedSlash(t: string)
    ensures DecodeSlashes("%2F" + t) == "/" + DecodeSlashes(t)
  {
    assert ("%2F" + t)[..3] == "%2F" && ("%2F" + t)[3..] == t;
  }

  lemma DecodeAfterPlainChar(c: char, t: string)
    requires c != '%'
    ensures DecodeSlashes([c] + t) == [c] + DecodeSlashes(t)
  {
    var s := [c] + t;
    assert s[0] == c && s[1..] == t;
    assert |s| >= 3 ==> s[..3][0] != "%2F"[0];
  }

  /** For an identifier without '%', reading every `%2F` of the encoded fallback back as '/' recovers the identifier. */
  lemma {:induction false} DecodeEncodeSlashes(s: string)
    requires '%' !in s
    ensures DecodeSlashes(EncodeSlashes(s)) == s
  {
    if s != [] {
      assert s == [s[0]] + s[1..];
      DecodeEncodeSlashes(s[1..]);
      if s[0] == '/' {
        DecodeAfterEncodedSlash(EncodeSlashes(s[1..]));
      } else {
        DecodeAfterPlainChar(s[0], EncodeSlashes(s[1..]));
      }
    }
  }

  lemma EncodeFirst(s: string)
    requires s != []
    ensures EncodeSlashes(s) == EncodeChar(s[0]) + EncodeSlashes(s[1..])
  {
  }

  /** Encoding works character by character, so it distributes over concatenation. */
  lemma {:induction false} EncodeConcat(x: string, y: string)
    ensures EncodeSlashes(x + y) == EncodeSlashes(x) + EncodeSlashes(y)
  {
    if x == [] {
      assert x + y == y;
    } else {
      var xy, h := x + y, EncodeChar(x[0]);
      assert xy[0] == x[0] && xy[1..] == x[1..] + y;
      calc {
        EncodeSlashes(xy);
        { EncodeFirst(xy); }
        h + EncodeSlashes(x[1..] + y);
        { EncodeConcat(x[1..], y); }
        h + (EncodeSlashes(x[1..]) + EncodeSlashes(y));
        { AppendAssoc(h, EncodeSlashes(x[1..]), EncodeSlashes(y)); }
        (h + EncodeSlashes(x[1..])) + EncodeSlashes(y);
        { EncodeFirst(x); }
        EncodeSlashes(x) + EncodeSlashes(y);
      }
    }
  }

  /** Without the '%' restriction the fallback is ambiguous: "a/b" and "a%2Fb" share one encoding. */
  lemma EncodingIsNotInjective(a: string, b: string)
    ensures EncodeSlashes(a + "/" + b) == EncodeSlashes(a + "%2F" + b)
  {
    var slash, escaped := "/", "%2F";
    assert EncodeSlashes(slash) == escaped by {
      EncodeFirst(slash);
      assert slash[1..] == [];
    }
    assert EncodeSlashes(escaped) == escaped by {
      assert '/' !in escaped;
    }
    EncodeConcat(a + slash, b);
    EncodeConcat(a, slash);
    EncodeConcat(a + escaped, b);
    EncodeConcat(a, escaped);
  }

  /** The identifiers passed to `projects.get`, in order, and what the last call gave. */
  datatype Resolution = Resolution(attempts: seq<string>, project: Result<Project, GitLabError>)

  /**
   * The nested try/except at gitlab_pr.py:49-54: a direct lookup, and only
   * after a GitlabGetError one more lookup with the encoded identifier.
   */
  function ResolveProject(gl: GitLabApi, projectId: string): (r: Resolution)
    ensures 1 <= |r.attempts| <= 2 && r.attempts[0] == projectId
    ensures |r.attempts| == 2 <==> gl.projectsGet(projectId).Failure? && gl.projectsGet(projectId).error.GetError?
    ensures |r.attempts| == 2 ==> r.attempts[1] == EncodeSlashes(projectId)
    ensures r.project == gl.projectsGet(r.attempts[|r.attempts| - 1])
  {
    var direct := gl.projectsGet(projectId);
    if direct.Failure? && direct.error.GetError? then
      var encoded := EncodeSlashes(projectId);
      Resolution([projectId, encoded], gl.projectsGet(encoded))
    else
      Resolution([projectId], direct)
  }

  /** A slash-free identifier that fails with a get-error is looked up a second time unchanged, to the same effect. */
  lemma RetryOfSlashFreeIdentifier(gl: GitLabApi, projectId: string)
    requires '/' !in projectId
    requires gl.projectsGet(projectId).Failure? && gl.projectsGet(projectId).error.GetError?
    ensures ResolveProject(gl, projectId).attempts == [projectId, projectId]
    ensures ResolveProject(gl, projectId).project == gl.projectsGet(projectId)
  {
  }

  /** The default state of `get_merge_requests`, and the only state whose diff `fetch_mr_details` requests. */
  const Opened := "opened"

  const AuthFailedMessage := "Authentication failed. Please check your GitLab token."
  const GetFailedPrefix := "Failed to retrieve merge requests for project "
  const UnexpectedPrefix := "An unexpected error occurred: "

  /** The message of the `Exception` that gitlab_pr.py:83-91 raises in place of `e`. */
  function RewrapError(projectId: string, e: GitLabError): (msg: string)
    ensures e.AuthenticationError? ==> msg == AuthFailedMessage
    ensures e.GetError? ==> OccursAt(msg, projectId, |GetFailedPrefix|) && Mentions(msg, e.message)
    ensures e.OtherError? ==> msg == UnexpectedPrefix + e.message
  {
    match e
    case AuthenticationError(_) => AuthFailedMessage
    case GetError(m) =>
      var msg := GetFailedPrefix + projectId + ". Error: " + m;
      assert OccursAt(msg, m, |msg| - |m|);
      msg
    case OtherError(m) => UnexpectedPrefix + m
  }

  /** The record built for one listed merge request. */
  function ToRecord(mr: MergeRequest): (rec: MRRecord)
    ensures Normalises(rec, mr)
  {
    MRRecord(mr.iid, mr.title, mr.description, mr.state, mr.createdAt, mr.updatedAt,
             AuthorInfo(mr.author.name, mr.author.username),
             mr.sourceBranch, mr.targetBranch, mr.webUrl)
  }

  /** The record keeps the merge request's `iid` as its `id` and copies every other field it holds. */
  predicate Normalises(rec: MRRecord, mr: MergeRequest) {
    && rec.id == mr.iid
    && rec.title == mr.title && rec.description == mr.description && rec.state == mr.state
    && rec.createdAt == mr.createdAt && rec.updatedAt == mr.updatedAt
    && rec.author.name == mr.author.name && rec.author.username == mr.author.username
    && rec.sourceBranch == mr.sourceBranch && rec.targetBranch == mr.targetBranch
    && rec.webUrl == mr.webUrl
  }

  /** Specification of `get_merge_requests(project_id, state)`: all records or one rewrapped error. */
  function MergeRequestsOf(gl: GitLabApi, projectId: string, state: string): Result<seq<MRRecord>, string>
  {
    match ResolveProject(gl, projectId).project
    case Failure(e) => Failure(RewrapError(projectId, e))
    case Success(p) =>
      match gl.mergeRequestsList(p, state)
      case Failure(e) => Failure(RewrapError(projectId, e))
      case Success(mrs) => Success(seq(|mrs|, i requires 0 <= i < |mrs| => ToRecord(mrs[i])))
  }

  /**
   * `GitLabPRManager.get_merge_requests`: the lookup with its fallback, the
   * listing in the requested state (by default "opened"), and the loop that
   * appends one normalised record per listed merge request.
   */
  method GetMergeRequests(gl: GitLabApi, projectId: string, state: string := Opened)
    returns (r: Result<seq<MRRecord>, string>)
    ensures r == MergeRequestsOf(gl, projectId, state)
    ensures r.Success? ==>
      exists p :: ResolveProject(gl, projectId).project == Success(p) && gl.mergeRequestsList(p, state).Success? &&
        var mrs := gl.mergeRequestsList(p, state).value;
        |r.value| == |mrs| && forall i :: 0 <= i < |mrs| ==> Normalises(r.value[i], mrs[i])
  {
    var project := gl.projectsGet(projectId);
    if project.Failure? && project.error.GetError? {
      project := gl.projectsGet(EncodeSlashes(projectId));
    }
    if project.Failure? {
      return Failure(RewrapError(projectId, project.error));
    }
    var listed := gl.mergeRequestsList(project.value, state);
    if listed.Failure? {
      return Failure(RewrapError(projectId, listed.error));
    }
    var mrs := listed.value;
    var mrList: seq<MRRecord> := [];
    var i := 0;
    while i < |mrs|
      invariant 0 <= i <= |mrs|
      invariant |mrList| == i
      invariant forall j :: 0 <= j < i ==> mrList[j] == ToRecord(mrs[j])
    {
      mrList := mrList + [ToRecord(mrs[i])];
      i := i + 1;
    }
    assert mrList == seq(|mrs|, i requires 0 <= i < |mrs| => ToRecord(mrs[i]));
    r := Success(mrList);
  }

  /** A failed lookup or listing never yields a partial list; a get-error names the project, an authentication error says so. */
  lemma MergeRequestsErrors(gl: GitLabApi, projectId: string, state: string)
    ensures var res := ResolveProject(gl, projectId);
      res.project.Failure? ==>
        && MergeRequestsOf(gl, projectId, state) == Failure(RewrapError(projectId, res.project.error))
        && (res.project.error.GetError? ==> OccursAt(MergeRequestsOf(gl, projectId, state).error, projectId, |GetFailedPrefix|))
        && (res.project.error.AuthenticationError? ==> MergeRequestsOf(gl, projectId, state).error == AuthFailedMessage)
  {
  }

  /** Records keep the listing's order, so distinct `iid`s in the listing give distinct record ids. */
  lemma RecordIdsDistinct(mrs: seq<MergeRequest>)
    requires forall i, j :: 0 <= i < j < |mrs| ==> mrs[i].iid != mrs[j].iid
    ensures var recs := seq(|mrs|, i requires 0 <= i < |mrs| => ToRecord(mrs[i]));
      forall i, j :: 0 <= i < j < |recs| ==> recs[i].id != recs[j].id
  {
  }
}
