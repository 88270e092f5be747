/**
 * Creating Jira issues from stored sheet rows. An issue's summary and description are built
 * from the row's data (or from templates), sent to the Jira REST API, and the created issue's
 * key and browse link are written back to the row. A batch creates issues for many rows and
 * sorts every row into created, skipped or failed.
 *
 * The remote call, `str.format` and the clock are parameters: `post` gives the outcome of one
 * request, `format` the result of filling a template with the row's data, `now` the instant.
 */
module Jira {
  import opened Wrappers
  import opened Text
  import opened Queries
  import opened Models

  /** Python truthiness of an optional string: present and not empty. */
  predicate Truthy(s: Option<string>) {
    s.Some? && s.value != ""
  }

  /** `str(n)` for any integer. */
  function IntToString(n: int): (s: string)
    ensures s != []
  {
    if n < 0 then "-" + NatToString(-n) else NatToString(n)
  }

  // ---------------------------------------------------------------------------
  // Default summary and description

  /** Whether an entry is rendered: its value is not None. */
  predicate HasValue(e: Entry) {
    e.value != Null
  }

  /** One summary part: `f"{key}: {value}"`. */
  function SummaryItem(e: Entry): (s: string)
    ensures s != []
  {
    e.key + ": " + Render(e.value)
  }

  /** One description line: `f"*{key}*: {value}"`. */
  function DescriptionItem(e: Entry): string {
    "*" + e.key + "*: " + Render(e.value)
  }

  /** The entries whose value is not None, each rendered by `item`, in order. */
  function Rendered(es: seq<Entry>, item: Entry -> string): seq<string> {
    if es == [] then []
    else
      var last := es[|es| - 1];
      Rendered(es[..|es| - 1], item) + (if HasValue(last) then [item(last)] else [])
  }

  /** `Rendered` renders exactly the entries a filter on `HasValue` keeps. */
  lemma {:induction false} RenderedIsShown(es: seq<Entry>, item: Entry -> string)
    ensures var shown := Where(es, HasValue);
            |Rendered(es, item)| == |shown|
            && forall k :: 0 <= k < |shown| ==> Rendered(es, item)[k] == item(shown[k])
  {
    if es != [] {
      var init, last := es[..|es| - 1], es[|es| - 1];
      assert es == init + [last];
      RenderedIsShown(init, item);
      WhereAppend(init, last, HasValue);
    }
  }

  /** Nothing is rendered exactly when every value is None. */
  lemma RenderedEmptyIff(es: seq<Entry>, item: Entry -> string)
    ensures Rendered(es, item) == [] <==> forall i :: 0 <= i < |es| ==> es[i].value == Null
  {
    RenderedIsShown(es, item);
    var shown := Where(es, HasValue);
    if shown != [] {
      assert shown[0] in es && HasValue(shown[0]);
    }
    if exists i :: 0 <= i < |es| && es[i].value != Null {
      var i :| 0 <= i < |es| && es[i].value != Null;
      assert es[i] in shown;
    }
  }

  /** `list(data.items())[:3]`. */
  function FirstThree(data: seq<Entry>): (head: seq<Entry>)
    ensures |head| == (if |data| < 3 then |data| else 3) && head == data[..|head|]
  {
    if |data| < 3 then data else data[..3]
  }

  /** The summary used when no item of the first three has a value. */
  function FallbackSummary(rowNumber: int): string {
    "Задача из Excel (строка " + IntToString(rowNumber) + ")"
  }

  /** The summary without a template: the first three items with a value, or the fallback. */
  function DefaultSummary(data: seq<Entry>, rowNumber: int): (s: string)
    ensures s != []
  {
    var joined := Join(Rendered(FirstThree(data), SummaryItem), " | ");
    if joined != "" then joined else FallbackSummary(rowNumber)
  }

  /** A join whose first part is not empty is not empty. */
  lemma JoinNotEmpty(parts: seq<string>, sep: string)
    requires parts != [] && parts[0] != []
    ensures Join(parts, sep) != []
  {
  }

  /**
   * The default summary is the fallback exactly when none of the first three items has a
   * value; otherwise it is their `key: value` parts joined by " | ".
   */
  lemma DefaultSummaryCases(data: seq<Entry>, rowNumber: int)
    ensures (forall i :: 0 <= i < |data| && i < 3 ==> data[i].value == Null)
            ==> DefaultSummary(data, rowNumber) == FallbackSummary(rowNumber)
    ensures (exists i :: 0 <= i < |data| && i < 3 && data[i].value != Null)
            ==> DefaultSummary(data, rowNumber) == Join(Rendered(FirstThree(data), SummaryItem), " | ")
  {
    var head := FirstThree(data);
    RenderedEmptyIff(head, SummaryItem);
    RenderedIsShown(head, SummaryItem);
    var parts := Rendered(head, SummaryItem);
    if parts != [] {
      assert parts[0] == SummaryItem(Where(head, HasValue)[0]);
      JoinNotEmpty(parts, " | ");
      var i :| 0 <= i < |head| && head[i].value != Null;
      assert data[i] == head[i];
    } else {
      forall i | 0 <= i < |data| && i < 3
        ensures data[i].value == Null
      {
        assert data[i] == head[i];
      }
    }
  }

  const DescriptionHeader := "Данные из Excel файла:"

  /** The description without a template: the header, then one line per item with a value. */
  function DefaultDescription(data: seq<Entry>): (s: string)
    ensures |s| >= |DescriptionHeader| && s[..|DescriptionHeader|] == DescriptionHeader
  {
    JoinAfterHead(DescriptionHeader, Rendered(data, DescriptionItem), "\n");
    Join([DescriptionHeader] + Rendered(data, DescriptionItem), "\n")
  }

  /** Each line preceded by `sep`, concatenated. */
  function Prefixed(lines: seq<string>, sep: string): string {
    if lines == [] then "" else sep + lines[0] + Prefixed(lines[1..], sep)
  }

  lemma {:induction false} JoinAfterHead(head: string, lines: seq<string>, sep: string)
    ensures Join([head] + lines, sep) == head + Prefixed(lines, sep)
    decreases |lines|
  {
    if lines != [] {
      assert ([head] + lines)[1..] == lines;
      assert [lines[0]] + lines[1..] == lines;
      JoinAfterHead(lines[0], lines[1..], sep);
    }
  }

  /**
   * The default description starts with the header and adds a newline and a line for each
   * item with a value; it is just the header when no item has one.
   */
  lemma DefaultDescriptionShape(data: seq<Entry>)
    ensures DefaultDescription(data) == DescriptionHeader + Prefixed(Rendered(data, DescriptionItem), "\n")
    ensures (forall i :: 0 <= i < |data| ==> data[i].value == Null) <==> DefaultDescription(data) == DescriptionHeader
  {
    JoinAfterHead(DescriptionHeader, Rendered(data, DescriptionItem), "\n");
    RenderedEmptyIff(data, DescriptionItem);
    var lines := Rendered(data, DescriptionItem);
    if lines != [] {
      assert |Prefixed(lines, "\n")| > 0;
    }
  }

  /** The summary parts loop over the first three items, then the join with its fallback. */
  method BuildSummary(data: seq<Entry>, rowNumber: int) returns (summary: string)
    ensures summary == DefaultSummary(data, rowNumber)
  {
    var items := FirstThree(data);
    var parts: seq<string> := [];
    for i := 0 to |items|
      invariant parts == Rendered(items[..i], SummaryItem)
    {
      assert items[..i + 1][..i] == items[..i];
      if items[i].value != Null {
        parts := parts + [SummaryItem(items[i])];
      }
    }
    assert items[..|items|] == items;
    var joined := Join(parts, " | ");
    summary := if joined != "" then joined else FallbackSummary(rowNumber);
  }

  /** The description lines loop over all items, then the join by newlines. */
  method BuildDescription(data: seq<Entry>) returns (description: string)
    ensures description == DefaultDescription(data)
  {
    var lines: seq<string> := [DescriptionHeader];
    for i := 0 to |data|
      invariant lines == [DescriptionHeader] + Rendered(data[..i], DescriptionItem)
    {
      assert data[..i + 1][..i] == data[..i];
      if data[i].value != Null {
        lines := lines + [DescriptionItem(data[i])];
      }
    }
    assert data[..|data|] == data;
    description := Join(lines, "\n");
  }

  // ---------------------------------------------------------------------------
  // Requests and outcomes

  /** The settings the service reads. */
  datatype Settings = Settings(url: string, email: Option<string>, apiToken: Option<string>)

  const AuthError := "JIRA_EMAIL and JIRA_API_TOKEN must be configured in settings"
  const DefaultProject := "PROJ"
  /** Jira's limit on the length of a summary. */
  const SummaryLimit := 255

  /** The fields of the issue sent; the description goes into a single text paragraph. */
  datatype Payload = Payload(projectKey: string, summary: string, description: string, issueType: string)

  /** One POST to the issue endpoint with basic authentication. */
  datatype Request = Request(url: string, auth: (string, string), payload: Payload)

  /** What a POST ends in: a created issue, an HTTP error status, or any other exception. */
  datatype PostOutcome =
    | Accepted(key: string, id: Option<string>)
    | Rejected(status: nat, text: string)
    | Raised(message: string)

  /** The dictionary `create_issue` returns. */
  datatype Issue = Issue(key: string, url: Option<string>, id: Option<string>, alreadyExists: bool)

  /** The keyword arguments of `create_issue` and `create_issues_batch`. */
  datatype Options = Options(projectKey: Option<string>, issueType: string, summaryTemplate: Option<string>, descriptionTemplate: Option<string>)

  const DefaultOptions := Options(None, "Task", None, None)

  /** `template.format(**data)`, which fails with a message on a missing key. */
  type Formatter = (string, seq<Entry>) -> Result<string>

  /** The Jira server's answer to one request. */
  type Poster = Request -> PostOutcome

  /** A row's Jira fields. */
  datatype Link = Link(key: Option<string>, url: Option<string>, createdAt: Option<Instant>)

  function LinkOf(row: ExcelRow): Link
    reads row
  {
    Link(row.jiraKey, row.jiraUrl, row.jiraCreatedAt)
  }

  /** What one `create_issue` call returns or raises, the request it sent, and the row's new link. */
  datatype Outcome = Outcome(result: Result<Issue>, sent: Option<Request>, link: Link)

  /** The summary to send, before truncation. Only a template can fail; the default summary
      is never empty. */
  function SummaryOf(data: seq<Entry>, rowNumber: int, opts: Options, format: Formatter): (r: Result<string>)
    ensures r.Failure? ==> Truthy(opts.summaryTemplate)
    ensures !Truthy(opts.summaryTemplate) ==> r.Success? && r.value != []
  {
    if Truthy(opts.summaryTemplate) then format(opts.summaryTemplate.value, data)
    else Success(DefaultSummary(data, rowNumber))
  }

  /** The description to send. Only a template can fail; the default description starts with
      its header. */
  function DescriptionOf(data: seq<Entry>, opts: Options, format: Formatter): (r: Result<string>)
    ensures r.Failure? ==> Truthy(opts.descriptionTemplate)
    ensures !Truthy(opts.descriptionTemplate) ==>
              r.Success? && |r.value| >= |DescriptionHeader| && r.value[..|DescriptionHeader|] == DescriptionHeader
  {
    if Truthy(opts.descriptionTemplate) then format(opts.descriptionTemplate.value, data)
    else Success(DefaultDescription(data))
  }

  /** The issue fields: the project defaults to "PROJ" and the summary is cut to Jira's limit. */
  function PayloadFor(opts: Options, summary: string, description: string): (p: Payload)
    ensures |p.summary| == (if |summary| <= SummaryLimit then |summary| else SummaryLimit)
    ensures p.summary == summary[..|p.summary|]
    ensures |summary| <= SummaryLimit ==> p.summary == summary
    ensures p.projectKey == if Truthy(opts.projectKey) then opts.projectKey.value else DefaultProject
    ensures p.description == description && p.issueType == opts.issueType
  {
    var project := if Truthy(opts.projectKey) then opts.projectKey.value else DefaultProject;
    Payload(project, PrefixSlice(summary, SummaryLimit), description, opts.issueType)
  }

  function ApiError(status: nat, text: string): string {
    "Jira API error: " + NatToString(status) + " - " + text
  }

  function RequestError(message: string): string {
    "Error creating Jira issue: " + message
  }

  // ---------------------------------------------------------------------------
  // Batches

  datatype CreatedEntry = CreatedEntry(rowId: nat, jiraKey: string, jiraUrl: Option<string>)
  datatype SkippedEntry = SkippedEntry(rowId: nat, reason: string, jiraKey: string)
  datatype ErrorEntry = ErrorEntry(rowId: nat, error: string)

  /** The statistics `create_issues_batch` returns. */
  datatype BatchResults = BatchResults(created: seq<CreatedEntry>, skipped: seq<SkippedEntry>, errors: seq<ErrorEntry>)

  const NoResults := BatchResults([], [], [])
  const HasKeyReason := "Already has Jira key"
  const ExistsReason := "Already exists"

  /** Every skipped entry gives the reason that the row already had a key. */
  predicate AllHadKeys(skipped: seq<SkippedEntry>) {
    forall k :: 0 <= k < |skipped| ==> skipped[k].reason == HasKeyReason
  }

  /** The results, the rows' links and the requests sent so far. */
  datatype BatchState = BatchState(results: BatchResults, links: map<ExcelRow, Link>, sent: seq<Request>)

  /** The rows' links, as a map from row to its Jira fields. */
  function LinksOf(rows: seq<ExcelRow>): (links: map<ExcelRow, Link>)
    reads set r | r in rows
    ensures forall r :: r in rows ==> r in links && links[r] == LinkOf(r)
  {
    map r | r in rows :: LinkOf(r)
  }

  /** The rows that already had a key, as the batch reports them when no row repeats. */
  function KeyedRows(rows: seq<ExcelRow>, links: map<ExcelRow, Link>): seq<SkippedEntry>
    requires forall r :: r in rows ==> r in links
  {
    if rows == [] then []
    else
      var row := rows[|rows| - 1];
      KeyedRows(rows[..|rows| - 1], links)
      + (if Truthy(links[row].key) then [SkippedEntry(row.id, HasKeyReason, links[row].key.value)] else [])
  }

  // ---------------------------------------------------------------------------
  // The service

  /** `JiraService`: the Jira address and credentials, read once from the settings. */
  class JiraService {
    const baseUrl: string
    const email: Option<string>
    const apiToken: Option<string>

    /** The address is kept without its trailing slashes. */
    constructor (settings: Settings)
      ensures baseUrl == TrimEndChar(settings.url, '/')
      ensures email == settings.email && apiToken == settings.apiToken
    {
      baseUrl := TrimEndChar(settings.url, '/');
      email := settings.email;
      apiToken := settings.apiToken;
    }

    /** `_get_auth`: the credentials, or a failure when either is missing or empty. */
    function Auth(): (r: Result<(string, string)>)
      ensures r.Failure? <==> !Truthy(email) || !Truthy(apiToken)
      ensures r.Failure? ==> r.error == AuthError
      ensures r.Success? ==> r.value == (email.value, apiToken.value)
    {
      if !Truthy(email) || !Truthy(apiToken) then Failure(AuthError)
      else Success((email.value, apiToken.value))
    }

    function IssueEndpoint(): string {
      baseUrl + "/rest/api/3/issue"
    }

    function BrowseUrl(key: string): string {
      baseUrl + "/browse/" + key
    }

    /**
     * `create_issue` on a row with Jira fields `link`: an existing key is returned as it is;
     * otherwise the summary, description and credentials are prepared (a failure there is
     * raised as it is), the request is sent, and its outcome decides the result and the link.
     */
    function IssueOutcome(link: Link, data: seq<Entry>, rowNumber: int, opts: Options,
                          format: Formatter, post: Poster, now: Instant): (o: Outcome)
      ensures Truthy(link.key) ==> o.sent.None? && o.link == link && o.result.Success? && o.result.value.alreadyExists
      ensures (!Truthy(link.key) && !Truthy(opts.summaryTemplate) && !Truthy(opts.descriptionTemplate) && Auth().Success?)
              ==> o.sent.Some?
      ensures o.link != link ==> o.result.Success? && o.sent.Some? && o.link.key == Some(o.result.value.key)
      ensures o.result.Success? && !o.result.value.alreadyExists ==> o.sent.Some?
    {
      if Truthy(link.key) then Outcome(Success(Issue(link.key.value, link.url, None, true)), None, link)
      else
        match SummaryOf(data, rowNumber, opts, format)
        case Failure(e) => Outcome(Failure(e), None, link)
        case Success(summary) =>
          match DescriptionOf(data, opts, format)
          case Failure(e) => Outcome(Failure(e), None, link)
          case Success(description) =>
            match Auth()
            case Failure(e) => Outcome(Failure(e), None, link)
            case Success(auth) =>
              var request := Request(IssueEndpoint(), auth, PayloadFor(opts, summary, description));
              match post(request)
              case Accepted(key, id) =>
                var url := BrowseUrl(key);
                Outcome(Success(Issue(key, Some(url), id, false)), Some(request), Link(Some(key), Some(url), Some(now)))
              case Rejected(status, text) => Outcome(Failure(ApiError(status, text)), Some(request), link)
              case Raised(m) => Outcome(Failure(RequestError(m)), Some(request), link)
    }

    /** A row that already has a key is returned with `already_exists`, unchanged and unsent. */
    lemma ExistingKeyShortCircuits(link: Link, data: seq<Entry>, rowNumber: int, opts: Options,
                                   format: Formatter, post: Poster, now: Instant)
      requires Truthy(link.key)
      ensures var o := IssueOutcome(link, data, rowNumber, opts, format, post, now);
              o.result == Success(Issue(link.key.value, link.url, None, true)) && o.sent == None && o.link == link
    {
    }

    /**
     * Without a key, the row changes only when the server created the issue: it then holds
     * the new key, its browse link and the instant; every success is a new issue that was sent.
     */
    lemma NewIssueLink(link: Link, data: seq<Entry>, rowNumber: int, opts: Options,
                       format: Formatter, post: Poster, now: Instant)
      requires !Truthy(link.key)
      ensures var o := IssueOutcome(link, data, rowNumber, opts, format, post, now);
              (o.result.Failure? ==> o.link == link)
              && (o.result.Success? ==>
                    !o.result.value.alreadyExists && o.sent.Some?
                    && post(o.sent.value) == Accepted(o.result.value.key, o.result.value.id)
                    && o.link == Link(Some(o.result.value.key), Some(BrowseUrl(o.result.value.key)), Some(now)))
    {
    }

    /**
     * A request is sent only once the summary, description and credentials are ready; it goes
     * to the issue endpoint with those credentials, and its fields are `PayloadFor` of the
     * summary and description: the project defaulting to "PROJ" and the summary cut to its
     * first 255 characters.
     */
    lemma SentRequest(link: Link, data: seq<Entry>, rowNumber: int, opts: Options,
                      format: Formatter, post: Poster, now: Instant)
      ensures var o := IssueOutcome(link, data, rowNumber, opts, format, post, now);
              o.sent.Some? <==>
                !Truthy(link.key) && SummaryOf(data, rowNumber, opts, format).Success?
                && DescriptionOf(data, opts, format).Success? && Auth().Success?
      ensures var o := IssueOutcome(link, data, rowNumber, opts, format, post, now);
              o.sent.Some? ==>
                var summary := SummaryOf(data, rowNumber, opts, format).value;
                o.sent.value.url == IssueEndpoint() && o.sent.value.auth == (email.value, apiToken.value)
                && o.sent.value.payload == PayloadFor(opts, summary, DescriptionOf(data, opts, format).value)
                && |o.sent.value.payload.summary| == (if |summary| <= SummaryLimit then |summary| else SummaryLimit)
                && o.sent.value.payload.summary == summary[..|o.sent.value.payload.summary|]
                && o.sent.value.payload.projectKey
                   == (if Truthy(opts.projectKey) then opts.projectKey.value else DefaultProject)
                && o.sent.value.payload.description == DescriptionOf(data, opts, format).value
                && o.sent.value.payload.issueType == opts.issueType
    {
    }

    /**
     * A row without a key that sends nothing fails with the error of the first step that
     * raised: the summary template, then the description template, then the credentials
     * check with its configuration message. These errors are not wrapped, and the row is
     * left alone.
     */
    lemma UnsentFailure(link: Link, data: seq<Entry>, rowNumber: int, opts: Options,
                        format: Formatter, post: Poster, now: Instant)
      requires !Truthy(link.key)
      ensures var o := IssueOutcome(link, data, rowNumber, opts, format, post, now);
              var summary, description := SummaryOf(data, rowNumber, opts, format), DescriptionOf(data, opts, format);
              o.sent.None? ==>
                o.link == link
                && o.result == Failure(if summary.Failure? then summary.error
                                       else if description.Failure? then description.error
                                       else AuthError)
    {
    }

    /** A rejected request fails with the status and the response text; any other error is wrapped. */
    lemma RequestFailures(link: Link, data: seq<Entry>, rowNumber: int, opts: Options,
                          format: Formatter, post: Poster, now: Instant)
      ensures var o := IssueOutcome(link, data, rowNumber, opts, format, post, now);
              o.sent.Some? ==>
                (post(o.sent.value).Rejected? ==>
                   o.result == Failure(ApiError(post(o.sent.value).status, post(o.sent.value).text)))
                && (post(o.sent.value).Raised? ==> o.result == Failure(RequestError(post(o.sent.value).message)))
    {
    }

    /** `create_issue`. */
    method CreateIssue(row: ExcelRow, opts: Options, format: Formatter, post: Poster, now: Instant)
      returns (r: Result<Issue>, sent: Option<Request>)
      modifies row
      ensures Outcome(r, sent, LinkOf(row)) == IssueOutcome(old(LinkOf(row)), row.data, row.rowNumber, opts, format, post, now)
    {
      if Truthy(row.jiraKey) {
        return Success(Issue(row.jiraKey.value, row.jiraUrl, None, true)), None;
      }
      var data := row.data;
      var summary: string;
      if Truthy(opts.summaryTemplate) {
        var filled := format(opts.summaryTemplate.value, data);
        if filled.Failure? {
          return Failure(filled.error), None;
        }
        summary := filled.value;
      } else {
        summary := BuildSummary(data, row.rowNumber);
      }
      var description: string;
      if Truthy(opts.descriptionTemplate) {
        var filled := format(opts.descriptionTemplate.value, data);
        if filled.Failure? {
          return Failure(filled.error), None;
        }
        description := filled.value;
      } else {
        description := BuildDescription(data);
      }
      var payload := PayloadFor(opts, summary, description);
      var url := baseUrl + "/rest/api/3/issue";
      var auth := Auth();
      if auth.Failure? {
        return Failure(auth.error), None;
      }
      var request := Request(url, auth.value, payload);
      sent := Some(request);
      match post(request) {
        case Accepted(key, id) =>
          var browse := baseUrl + "/browse/" + key;
          row.jiraKey := Some(key);
          row.jiraUrl := Some(browse);
          row.jiraCreatedAt := Some(now);
          r := Success(Issue(key, Some(browse), id, false));
        case Rejected(status, text) =>
          r := Failure("Jira API error: " + NatToString(status) + " - " + text);
        case Raised(m) =>
          r := Failure("Error creating Jira issue: " + m);
      }
    }

    /**
     * One row of a batch, processed at position `k`: a row with a key is skipped; otherwise
     * its issue is created, and a success lands in created (or skipped, should the issue
     * already exist) and a failure in errors with its message.
     */
    function BatchStep(st: BatchState, row: ExcelRow, k: nat, opts: Options, format: Formatter,
                       post: Poster, clock: nat -> Instant): (next: BatchState)
      requires row in st.links
      ensures next.links.Keys == st.links.Keys
    {
      var link := st.links[row];
      var res := st.results;
      if Truthy(link.key) then
        st.(results := res.(skipped := res.skipped + [SkippedEntry(row.id, HasKeyReason, link.key.value)]))
      else
        var o := IssueOutcome(link, row.data, row.rowNumber, opts, format, post, clock(k));
        var results :=
          match o.result
          case Failure(e) => res.(errors := res.errors + [ErrorEntry(row.id, e)])
          case Success(issue) =>
            if !issue.alreadyExists then res.(created := res.created + [CreatedEntry(row.id, issue.key, issue.url)])
            else res.(skipped := res.skipped + [SkippedEntry(row.id, ExistsReason, issue.key)]);
        BatchState(results, st.links[row := o.link], st.sent + (if o.sent.Some? then [o.sent.value] else []))
    }

    /** `create_issues_batch` over `rows` whose Jira fields start as `links`; row k is stamped `clock(k)`. */
    function Batch(rows: seq<ExcelRow>, links: map<ExcelRow, Link>, opts: Options, format: Formatter,
                   post: Poster, clock: nat -> Instant): (b: BatchState)
      requires forall r :: r in rows ==> r in links
      ensures b.links.Keys == links.Keys
    {
      if rows == [] then BatchState(NoResults, links, [])
      else
        var prev := Batch(rows[..|rows| - 1], links, opts, format, post, clock);
        BatchStep(prev, rows[|rows| - 1], |rows| - 1, opts, format, post, clock)
    }

    /**
     * Every row lands in exactly one of created, skipped and errors, so a failing row does not
     * stop the rest; every created issue was sent, and only created and failed rows sent one.
     */
    lemma {:induction false} BatchPartition(rows: seq<ExcelRow>, links: map<ExcelRow, Link>, opts: Options,
                                            format: Formatter, post: Poster, clock: nat -> Instant)
      requires forall r :: r in rows ==> r in links
      ensures var b := Batch(rows, links, opts, format, post, clock);
              |b.results.created| + |b.results.skipped| + |b.results.errors| == |rows|
              && |b.results.created| <= |b.sent| <= |b.results.created| + |b.results.errors|
    {
      if rows != [] {
        BatchPartition(rows[..|rows| - 1], links, opts, format, post, clock);
        var prev := Batch(rows[..|rows| - 1], links, opts, format, post, clock);
        BatchStepCounts(prev, rows[|rows| - 1], |rows| - 1, opts, format, post, clock);
      }
    }

    /** One row adds exactly one entry, and sends a request only when it is created or fails. */
    lemma BatchStepCounts(st: BatchState, row: ExcelRow, k: nat, opts: Options, format: Formatter,
                          post: Poster, clock: nat -> Instant)
      requires row in st.links
      ensures var next := BatchStep(st, row, k, opts, format, post, clock);
              |next.results.created| + |next.results.skipped| + |next.results.errors|
                == |st.results.created| + |st.results.skipped| + |st.results.errors| + 1
              && |next.sent| - |st.sent| >= |next.results.created| - |st.results.created|
              && |next.sent| - |st.sent|
                 <= (|next.results.created| - |st.results.created|) + (|next.results.errors| - |st.results.errors|)
    {
      if !Truthy(st.links[row].key) {
        NewIssueLink(st.links[row], row.data, row.rowNumber, opts, format, post, clock(k));
      }
    }

    /**
     * What one row adds. A keyed row adds a skipped entry with its key and changes nothing else.
     * Any other row adds either a created entry, for the request it sent, whose key and browse
     * link are the ones now written to the row with the batch instant, or an error entry that
     * leaves the row's Jira fields alone. No other row's fields change.
     */
    lemma BatchStepEntry(st: BatchState, row: ExcelRow, k: nat, opts: Options, format: Formatter,
                         post: Poster, clock: nat -> Instant)
      requires row in st.links
      ensures var next := BatchStep(st, row, k, opts, format, post, clock);
              forall r :: r in st.links && r != row ==> next.links[r] == st.links[r]
      ensures var next, link, res := BatchStep(st, row, k, opts, format, post, clock), st.links[row], st.results;
              Truthy(link.key) ==>
                next.links == st.links && next.sent == st.sent
                && next.results == res.(skipped := res.skipped + [SkippedEntry(row.id, HasKeyReason, link.key.value)])
      ensures var next, link, res := BatchStep(st, row, k, opts, format, post, clock), st.links[row], st.results;
              !Truthy(link.key) ==>
                next.results.skipped == res.skipped
                && ((next.results.errors == res.errors
                     && |next.results.created| == |res.created| + 1
                     && next.results.created[..|res.created|] == res.created
                     && |next.sent| == |st.sent| + 1 && next.sent[..|st.sent|] == st.sent
                     && var e := next.results.created[|res.created|];
                        e.rowId == row.id && e.jiraUrl == Some(BrowseUrl(e.jiraKey))
                        && post(next.sent[|st.sent|]).Accepted? && post(next.sent[|st.sent|]).key == e.jiraKey
                        && next.links[row] == Link(Some(e.jiraKey), Some(BrowseUrl(e.jiraKey)), Some(clock(k))))
                    || (next.results.created == res.created
                        && |next.results.errors| == |res.errors| + 1
                        && next.results.errors[..|res.errors|] == res.errors
                        && next.results.errors[|res.errors|].rowId == row.id
                        && next.links[row] == link
                        && |st.sent| <= |next.sent| <= |st.sent| + 1 && next.sent[..|st.sent|] == st.sent))
    {
      if !Truthy(st.links[row].key) {
        NewIssueLink(st.links[row], row.data, row.rowNumber, opts, format, post, clock(k));
      }
    }

    /** The "Already exists" branch is never taken: every skipped row already had a key. */
    lemma {:induction false} BatchSkipsOnlyKeyed(rows: seq<ExcelRow>, links: map<ExcelRow, Link>, opts: Options,
                                                 format: Formatter, post: Poster, clock: nat -> Instant)
      requires forall r :: r in rows ==> r in links
      ensures AllHadKeys(Batch(rows, links, opts, format, post, clock).results.skipped)
    {
      if rows != [] {
        var init, row := rows[..|rows| - 1], rows[|rows| - 1];
        BatchSkipsOnlyKeyed(init, links, opts, format, post, clock);
        var prev := Batch(init, links, opts, format, post, clock);
        if !Truthy(prev.links[row].key) {
          NewIssueLink(prev.links[row], row.data, row.rowNumber, opts, format, post, clock(|rows| - 1));
        }
      }
    }

    /** A row the batch has not reached keeps its Jira fields. */
    lemma {:induction false} BatchUntouched(rows: seq<ExcelRow>, links: map<ExcelRow, Link>, opts: Options,
                                            format: Formatter, post: Poster, clock: nat -> Instant, r: ExcelRow)
      requires forall x :: x in rows ==> x in links
      requires r in links && r !in rows
      ensures Batch(rows, links, opts, format, post, clock).links[r] == links[r]
    {
      if rows != [] {
        BatchUntouched(rows[..|rows| - 1], links, opts, format, post, clock, r);
      }
    }

    /** When no row repeats, the skipped rows are exactly those that had a key, in order. */
    lemma {:induction false} BatchSkipsKeyedRows(rows: seq<ExcelRow>, links: map<ExcelRow, Link>, opts: Options,
                                                 format: Formatter, post: Poster, clock: nat -> Instant)
      requires forall r :: r in rows ==> r in links
      requires NoDuplicates(rows)
      ensures Batch(rows, links, opts, format, post, clock).results.skipped == KeyedRows(rows, links)
    {
      if rows != [] {
        var init, row := rows[..|rows| - 1], rows[|rows| - 1];
        BatchSkipsKeyedRows(init, links, opts, format, post, clock);
        assert row !in init;
        BatchUntouched(init, links, opts, format, post, clock, row);
        var prev := Batch(init, links, opts, format, post, clock);
        if !Truthy(links[row].key) {
          NewIssueLink(links[row], row.data, row.rowNumber, opts, format, post, clock(|rows| - 1));
        }
      }
    }

    /**
     * When no row repeats, each row ends with the Jira fields it had if it had a key, and
     * otherwise with those its own `create_issue` call left.
     */
    lemma {:induction false} BatchFinalLink(rows: seq<ExcelRow>, links: map<ExcelRow, Link>, opts: Options,
                                            format: Formatter, post: Poster, clock: nat -> Instant, k: nat)
      requires forall r :: r in rows ==> r in links
      requires NoDuplicates(rows) && k < |rows|
      ensures var row := rows[k];
              Batch(rows, links, opts, format, post, clock).links[row]
              == if Truthy(links[row].key) then links[row]
                 else IssueOutcome(links[row], row.data, row.rowNumber, opts, format, post, clock(k)).link
    {
      var init, last := rows[..|rows| - 1], rows[|rows| - 1];
      if k == |rows| - 1 {
        assert last !in init;
        BatchUntouched(init, links, opts, format, post, clock, last);
      } else {
        assert rows[k] == init[k];
        BatchFinalLink(init, links, opts, format, post, clock, k);
      }
    }

    /** One pass of the batch loop: the row is skipped, created or recorded as an error. */
    method BatchRow(row: ExcelRow, k: nat, results: BatchResults, sent: seq<Request>, ghost st: BatchState,
                    opts: Options, format: Formatter, post: Poster, clock: nat -> Instant)
      returns (results': BatchResults, sent': seq<Request>)
      requires row in st.links && st.links[row] == LinkOf(row) && st.results == results && st.sent == sent
      modifies row
      ensures var next := BatchStep(st, row, k, opts, format, post, clock);
              results' == next.results && sent' == next.sent && LinkOf(row) == next.links[row]
    {
      results', sent' := results, sent;
      if Truthy(row.jiraKey) {
        results' := results.(skipped := results.skipped + [SkippedEntry(row.id, "Already has Jira key", row.jiraKey.value)]);
      } else {
        var r, request := CreateIssue(row, opts, format, post, clock(k));
        if request.Some? {
          sent' := sent + [request.value];
        }
        match r {
          case Failure(e) =>
            results' := results.(errors := results.errors + [ErrorEntry(row.id, e)]);
          case Success(issue) =>
            if !issue.alreadyExists {
              results' := results.(created := results.created + [CreatedEntry(row.id, issue.key, issue.url)]);
            } else {
              results' := results.(skipped := results.skipped + [SkippedEntry(row.id, "Already exists", issue.key)]);
            }
        }
      }
    }

    /** `create_issues_batch`: the rows' Jira fields, the results and the requests follow `Batch`. */
    method CreateIssuesBatch(rows: seq<ExcelRow>, opts: Options, format: Formatter, post: Poster, clock: nat -> Instant)
      returns (results: BatchResults, sent: seq<Request>)
      modifies set r | r in rows
      ensures var b := Batch(rows, old(LinksOf(rows)), opts, format, post, clock);
              results == b.results && sent == b.sent && forall r :: r in rows ==> LinkOf(r) == b.links[r]
    {
      ghost var links := LinksOf(rows);
      results := NoResults;
      sent := [];
      for i := 0 to |rows|
        invariant var b := Batch(rows[..i], links, opts, format, post, clock);
                  results == b.results && sent == b.sent && forall r :: r in rows ==> LinkOf(r) == b.links[r]
      {
        assert rows[..i + 1][..i] == rows[..i];
        ghost var st := Batch(rows[..i], links, opts, format, post, clock);
        results, sent := BatchRow(rows[i], i, results, sent, st, opts, format, post, clock);
      }
      assert rows[..|rows|] == rows;
    }
  }
}
