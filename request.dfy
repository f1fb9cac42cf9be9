/** What `request` hands to the connection: the path with the query
    parameters, the body, and the outgoing headers -- a copy of the client's
    table with the form content type filled in, under an `Authorization`
    header when a user name is set. `urlencode` and the Base64 encoding of
    the credentials are parameters. */
module Request {
  import opened Base
  import opened Headers
  import opened Query

  /** The `data` argument: None, a dict (sent form-encoded), or a string. */
  datatype Data = NoData | Form(fields: seq<(string, string)>) | Raw(text: string)

  /** The keyword arguments of `_request`: `url`, and `body` and `headers`
      when present. */
  datatype RequestArgs = RequestArgs(url: string, body: Option<string>, headers: Option<HeaderTable>)

  const FormType: string := "application/x-www-form-urlencoded"

  /** The content-type key in the client's own spelling. */
  function ContentTypeKey(c: NameCase): string {
    match c
    case LowerCase => "content-type"
    case UpperCase => "CONTENT-TYPE"
  }

  /** The copied table after the body was looked at: a form body makes
      sure there is a table and a content type in it. */
  function FormHeaders(c: NameCase, headers: Option<HeaderTable>, data: Data): Option<HeaderTable> {
    if !data.Form? then headers
    else
      var h := headers.GetOr(map[]);
      Some(if ContentTypeKey(c) !in h then h[ContentTypeKey(c) := Text(FormType)] else h)
  }

  /** `"{0}".format(x)` of an optional string. */
  function PyStr(s: Option<string>): string {
    if s.None? then "None" else s.value
  }

  /** `"Basic " + b64encode("user:password")`. */
  function BasicAuthorization(b64: string -> string, user: string, password: Option<string>): HeaderValue {
    Text("Basic " + b64(user + ":" + PyStr(password)))
  }

  /** The `headers` argument: an `Authorization` entry updated by the
      (copied) table when a user name is set, else the table itself. */
  function OutgoingHeaders(c: NameCase, headers: Option<HeaderTable>, data: Data, authUsername: Option<string>,
                           authPassword: Option<string>, b64: string -> string): Option<HeaderTable> {
    var h := FormHeaders(c, headers, data);
    if authUsername.Some? then
      Some(map["Authorization" := BasicAuthorization(b64, authUsername.value, authPassword)] + h.GetOr(map[]))
    else h
  }

  /** The outgoing headers are present exactly when there is a table, a
      form or a user name, and every header of the client's table goes out
      with its value -- so a table entry spelled `Authorization` wins over
      the credentials. */
  lemma OutgoingHeadersKeepTable(c: NameCase, headers: Option<HeaderTable>, data: Data,
                                 authUsername: Option<string>, authPassword: Option<string>, b64: string -> string)
    ensures var r := OutgoingHeaders(c, headers, data, authUsername, authPassword, b64);
      && (r.None? <==> headers.None? && !data.Form? && authUsername.None?)
      && (r.Some? ==> forall k :: k in headers.GetOr(map[]) ==> k in r.value && r.value[k] == headers.GetOr(map[])[k])
  {
  }

  /** A form gets the default content type under the client's spelling
      unless the table had one; the credentials go out as `Basic`
      authorization, an unset password as the text `None`; nothing else is
      added to the table. */
  lemma OutgoingHeadersAdd(c: NameCase, headers: Option<HeaderTable>, data: Data,
                           authUsername: Option<string>, authPassword: Option<string>, b64: string -> string)
    ensures var r := OutgoingHeaders(c, headers, data, authUsername, authPassword, b64);
      var h := headers.GetOr(map[]);
      && (data.Form? ==>
            && ContentTypeKey(c) in r.value
            && (ContentTypeKey(c) !in h ==> r.value[ContentTypeKey(c)] == Text(FormType)))
      && (authUsername.Some? && "Authorization" !in h ==>
            && "Authorization" in r.value
            && r.value["Authorization"]
               == Text("Basic " + b64(authUsername.value + ":" +
                                      if authPassword.None? then "None" else authPassword.value)))
      && (r.Some? ==> forall k :: k in r.value ==>
            k in h || (data.Form? && k == ContentTypeKey(c)) || (authUsername.Some? && k == "Authorization"))
  {
  }

  /** `request(method, separator, params, data)` up to the call of
      `_request`, for a client whose fields are `path`, `headers`,
      `authUsername` and `authPassword`. */
  function Compose(c: NameCase, path: string, headers: Option<HeaderTable>, authUsername: Option<string>,
                   authPassword: Option<string>, separator: string, params: Option<string>, data: Data,
                   b64: string -> string, urlencode: seq<(string, string)> -> string): (r: RequestArgs)
    ensures r.url == ComposePath(path, params, separator)
    ensures r.body.None? <==> data.NoData?
    ensures data.Form? ==> r.body == Some(urlencode(data.fields))
    ensures data.Raw? ==> r.body == Some(data.text)
    ensures r.headers == OutgoingHeaders(c, headers, data, authUsername, authPassword, b64)
  {
    var body := match data
      case NoData => None
      case Form(fields) => Some(urlencode(fields))
      case Raw(text) => Some(text);
    RequestArgs(ComposePath(path, params, separator), body,
                OutgoingHeaders(c, headers, data, authUsername, authPassword, b64))
  }
}
