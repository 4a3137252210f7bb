/** lib/snowflake-query.tsx: the statement request `snowflakeQuery` sends and
    the normalisation of whatever comes back into a `SnowflakeResponse`.
    The network round trip and `response.json()` are an input (`Outcome`). */
module SnowflakeQuery {
  import opened Wrappers
  import opened Types

  /** The environment values read when a query is issued. An unset variable
      is written into the template literals as "undefined". */
  datatype Config = Config(
    instance: Option<string>,
    database: Option<string>,
    schema: Option<string>,
    warehouse: Option<string>,
    role: Option<string>)

  /** `${v}` in a template literal. */
  function Interpolate(v: Option<string>): string {
    v.GetOr("undefined")
  }

  const StatementTimeout := 60
  const UrlPrefix := "https://"
  const UrlSuffix := ".snowflakecomputing.com/api/v2/statements"

  /** The JSON body of the statement request. */
  datatype StatementBody = StatementBody(
    statement: string,
    timeout: int,
    database: string,
    schema: string,
    warehouse: string,
    role: string)

  datatype Request = Request(httpMethod: string, url: string, headers: seq<(string, string)>, body: StatementBody)

  /** The request `snowflakeQuery` hands to `fetch`. */
  function BuildRequest(cfg: Config, sql: string, token: string): Request {
    Request(
      "POST",
      UrlPrefix + Interpolate(cfg.instance) + UrlSuffix,
      [("Authorization", "Bearer " + token),
       ("Content-Type", "application/json"),
       ("Accept", "application/json")],
      StatementBody(sql, StatementTimeout, Interpolate(cfg.database), Interpolate(cfg.schema),
                    Interpolate(cfg.warehouse), Interpolate(cfg.role)))
  }

  /** The value of the first header called `name`. */
  function Header(headers: seq<(string, string)>, name: string): (r: Option<string>)
    ensures r.Some? ==> exists j :: 0 <= j < |headers| && headers[j] == (name, r.value)
  {
    if headers == [] then None
    else if headers[0].0 == name then Some(headers[0].1)
    else
      var r := Header(headers[1..], name);
      assert r.Some? ==> exists j :: 0 <= j < |headers[1..]| && headers[1..][j] == (name, r.value);
      r
  }

  /** The credential of an `Authorization` value in the Bearer scheme of
      section 2.1 of RFC 6750, or `None` for any other value. */
  function BearerCredential(value: string): Option<string> {
    if |value| >= 7 && value[..7] == "Bearer " then Some(value[7..]) else None
  }

  /** The account instance a statements URL addresses, or `None` for any other URL. */
  function InstanceOf(url: string): Option<string> {
    if |url| >= |UrlPrefix| + |UrlSuffix| && url[..|UrlPrefix|] == UrlPrefix
       && url[|url| - |UrlSuffix|..] == UrlSuffix
    then Some(url[|UrlPrefix|..|url| - |UrlSuffix|])
    else None
  }

  /** The request is a POST to the statements endpoint of the configured
      instance, carries the token as a Bearer credential and JSON headers, and
      its body holds the statement, a 60-second timeout and the configured
      database, schema, warehouse and role. */
  lemma RequestShape(cfg: Config, sql: string, token: string)
    ensures var req := BuildRequest(cfg, sql, token);
      && req.httpMethod == "POST"
      && InstanceOf(req.url) == Some(Interpolate(cfg.instance))
      && Header(req.headers, "Authorization").Some?
      && BearerCredential(Header(req.headers, "Authorization").value) == Some(token)
      && Header(req.headers, "Content-Type") == Some("application/json")
      && Header(req.headers, "Accept") == Some("application/json")
      && req.body.statement == sql
      && req.body.timeout == 60
      && req.body.database == Interpolate(cfg.database)
      && req.body.schema == Interpolate(cfg.schema)
      && req.body.warehouse == Interpolate(cfg.warehouse)
      && req.body.role == Interpolate(cfg.role)
  {
    var req := BuildRequest(cfg, sql, token);
    var inst := Interpolate(cfg.instance);
    assert req.url[..|UrlPrefix|] == UrlPrefix;
    assert req.url[|req.url| - |UrlSuffix|..] == UrlSuffix;
    assert req.url[|UrlPrefix|..|req.url| - |UrlSuffix|] == inst;
    assert ("Bearer " + token)[..7] == "Bearer ";
    assert ("Bearer " + token)[7..] == token;
    assert Header(req.headers[2..], "Accept") == Some("application/json");
    assert Header(req.headers[1..], "Accept") == Some("application/json");
  }

  /** One entry of `resultSetMetaData.rowType`. */
  datatype Column = Column(name: string)

  /** `resultSetMetaData` missing, present without `rowType`, or with it. */
  datatype MetaData = MetaDataAbsent | RowTypeAbsent | RowType(columns: seq<Column>)

  /** The parsed response body: the fields the normaliser reads. */
  datatype Payload = Payload(
    code: Option<string>,
    message: Option<string>,
    metaData: MetaData,
    data: Option<seq<Row>>)

  /** How the request ended: a response whose body parsed, a response whose
      body `response.json()` could not parse, or a `fetch` that threw. */
  datatype Outcome =
    | Responded(status: int, payload: Payload)
    | Unparsable(status: int, parseError: Thrown)
    | FetchFailed(fetchError: Thrown)

  /** The message the `catch` block reports for a thrown value. */
  function ErrorText(err: Thrown): (r: string)
    ensures err.ErrorObject? ==> r == err.message
    ensures err.StringValue? ==> r == err.text
    // `instanceof Error` is false for other objects, null and undefined
    ensures !err.ErrorObject? && !err.StringValue? ==> r == "Unknown error"
  {
    match err
    case ErrorObject(m) => m
    case StringValue(s) => s
    case _ => "Unknown error"
  }

  /** The headings of a successful response: the name of each `rowType`
      entry in order, or `None` when `resultSetMetaData` or `rowType` is missing. */
  function ColumnNames(meta: MetaData): (r: Option<seq<string>>)
    ensures r.Some? <==> meta.RowType?
    ensures meta.RowType? ==>
              |r.value| == |meta.columns| &&
              forall j :: 0 <= j < |meta.columns| ==> r.value[j] == meta.columns[j].name
  {
    match meta
    case RowType(cols) => Some(seq(|cols|, j requires 0 <= j < |cols| => cols[j].name))
    case _ => None
  }

  /** `snowflakeQuery`'s result for a given outcome of the request. */
  function Normalise(o: Outcome): (r: SnowflakeResponse)
    // only a parsed 200 response succeeds
    ensures r.success <==> o.Responded? && o.status == 200
    // a parsed response: its status and its `code` are carried through
    ensures o.Responded? ==> r.status == o.status && r.sqlStatus == o.payload.code
    // a parsed non-200 response: the error is its `message`
    ensures o.Responded? && o.status != 200 ==> r.error == o.payload.message
    // success: no error, headings from rowType, data verbatim
    ensures r.success ==> r.error == None && r.headings == ColumnNames(o.payload.metaData)
                          && r.data == o.payload.data
    // failure of any kind: headings and data are cleared
    ensures !r.success ==> r.headings == None && r.data == None
    // anything thrown, including an unparsable body on any status
    ensures o.Unparsable? ==> r.status == -1 && r.sqlStatus == None && r.error == Some(ErrorText(o.parseError))
    ensures o.FetchFailed? ==> r.status == -1 && r.sqlStatus == None && r.error == Some(ErrorText(o.fetchError))
  {
    match o
    case FetchFailed(err) => Caught(err)
    case Unparsable(_, err) => Caught(err)
    case Responded(status, p) =>
      if status != 200 then
        SnowflakeResponse(false, status, p.code, p.message, None, None)
      else
        SnowflakeResponse(true, status, p.code, None, ColumnNames(p.metaData), p.data)
  }

  function Caught(err: Thrown): SnowflakeResponse {
    SnowflakeResponse(false, -1, None, Some(ErrorText(err)), None, None)
  }

  /** A real HTTP status is never negative, so status -1 marks exactly the
      outcomes in which no response body was read. */
  lemma SentinelStatus(o: Outcome)
    requires o.Responded? ==> o.status >= 0
    ensures Normalise(o).status == -1 <==> !o.Responded?
  {
  }
}
