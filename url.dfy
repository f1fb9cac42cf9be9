/** The request target of the raw clients: what `_configure` derives from a
    split URL, the URL the `pas_http_client` raw client's `url` property
    rebuilds from it, and the host name `_get_connection` connects to.
    `urlsplit` itself is not modelled: its result is the `UrlParts` record. */
module Url {
  import opened Base

  /** The attributes of `urlsplit(url)` that `_configure` reads. */
  datatype UrlParts = UrlParts(scheme: string, hostname: Option<string>, username: Option<string>,
                               password: Option<string>, port: Option<nat>, path: string,
                               query: string)

  /** `http.client.HTTP_PORT` and `http.client.HTTPS_PORT`. */
  const HttpPort: nat := 80
  const HttpsPort: nat := 443

  /** An IPv6 literal (any host with a `:`) is kept in brackets. */
  function BracketedHost(hostname: string): string {
    if ':' in hostname then "[" + hostname + "]" else hostname
  }

  /** The explicit port, else 443 for `https`, else 80 (whatever the scheme). */
  function DefaultedPort(scheme: string, port: Option<nat>): (r: nat)
    ensures port.Some? ==> r == port.value
    ensures port.None? ==> r == if scheme == "https" then HttpsPort else HttpPort
  {
    if port.Some? then port.value else if scheme == "https" then HttpsPort else HttpPort
  }

  /** The path, followed by `?query` only when the query is not empty. */
  function PathAndQuery(path: string, query: string): (r: string)
    ensures query == "" ==> r == path
    ensures query != "" ==> r == path + "?" + query
  {
    if query != "" then path + "?" + query else path
  }

  /** The host argument of the connection: a bracketed host loses the first
      and last character, and a link-local `fe80::` address gets the
      `%interface` zone when an interface is set. */
  function ConnectionHost(host: string, interface: Option<string>): string {
    if ':' in host then
      var inner := PyTo(PyFrom(host, 1), -1);
      if PyTo(inner, 6) == "fe80::" && interface.Some? then inner + "%" + interface.value else inner
    else host
  }

  /** The connection host of a configured client is its URL's host name
      again, with the zone appended for a link-local address. */
  lemma ConnectionHostOfBracketed(hostname: string, interface: Option<string>)
    ensures ConnectionHost(BracketedHost(hostname), interface)
         == if ':' in hostname && StartsWith(hostname, "fe80::") && interface.Some?
            then hostname + "%" + interface.value else hostname
  {
    if ':' in hostname {
      var b := "[" + hostname + "]";
      assert ':' in b by { assert b[1..|b| - 1] == hostname; }
      assert PyTo(PyFrom(b, 1), -1) == hostname;
    }
  }

  /** The port is written out unless it is the default port of `https` or
      `http`. */
  predicate ShowsPort(scheme: string, port: nat) {
    (scheme != "https" || port != HttpsPort) && (scheme != "http" || port != HttpPort)
  }

  /** `name:password@`, each side quoted and an absent side empty, when
      either credential is present; nothing otherwise. */
  function UserInfo(quotePlus: string -> string, name: Option<string>, password: Option<string>): (r: string)
    ensures name.None? && password.None? <==> r == ""
  {
    if name.Some? || password.Some? then
      (if name.Some? then quotePlus(name.value) else "") + ":"
      + (if password.Some? then quotePlus(password.value) else "") + "@"
    else ""
  }

  /** The `url` property of the `pas_http_client` raw client, over the
      fields it reads. */
  function PasUrl(quotePlus: string -> string, scheme: string, name: Option<string>, password: Option<string>,
                  host: string, port: nat, path: string): string {
    scheme + "://" + UserInfo(quotePlus, name, password) + host
    + (if ShowsPort(scheme, port) then ":" + Decimal(port) else "") + path
  }

  /** The rebuilt URL of a client configured from `u`: the lower-cased
      scheme, the credentials, the (bracketed) host, the port only when it
      is not the default of its scheme -- so a URL without a port on any
      scheme but `http` and `https` gains `:80` -- then path and query. */
  lemma ConfiguredUrl(quotePlus: string -> string, u: UrlParts, hostname: string)
    requires u.hostname == Some(hostname)
    ensures var scheme := Lower(u.scheme);
      var port := DefaultedPort(scheme, u.port);
      var front := scheme + "://" + UserInfo(quotePlus, u.username, u.password) + BracketedHost(hostname);
      var url := PasUrl(quotePlus, scheme, u.username, u.password, BracketedHost(hostname), port,
                        PathAndQuery(u.path, u.query));
      && (u.port.None? && (scheme == "http" || scheme == "https") ==> url == front + PathAndQuery(u.path, u.query))
      && (u.port.None? && scheme != "http" && scheme != "https" ==>
            url == front + ":80" + PathAndQuery(u.path, u.query))
      && (u.port.Some? && ShowsPort(scheme, u.port.value) ==>
            url == front + ":" + Decimal(u.port.value) + PathAndQuery(u.path, u.query))
      && (u.port.Some? && !ShowsPort(scheme, u.port.value) ==> url == front + PathAndQuery(u.path, u.query))
  {
    assert Decimal(80) == Decimal(8) + [DecimalDigit(0)];
  }
}
