/** The raw HTTP client objects: the `pas_http_client` `AbstractRawClient`
    and its `RawClient`, the `dNG` `AbstractRawClient` and the standalone
    `dNG` `RawClient`. One class holds the fields they share; `variant`
    says which of the four an object is. */
module Client {
  import opened Base
  import opened Headers
  import opened Query
  import opened Url
  import opened Response
  import opened Request

  datatype Variant = PasAbstract | PasRaw | DngAbstract | DngRaw {
    /** The abstract classes leave `_configure` and `_request` unimplemented. */
    predicate IsAbstract() {
      this == PasAbstract || this == DngAbstract
    }

    /** Only the `dNG` raw client upper-cases header names. */
    function Case(): NameCase {
      if this == DngRaw then UpperCase else LowerCase
    }
  }

  /** Why `_configure` fails: `TypeException` (pas) / `TypeError` (dNG) for
      a URL without a host name, or the `NotImplementedException` /
      `NotImplementedError` of the abstract classes. */
  datatype ConfigureError = InvalidUrl | NotImplemented

  class RawClient {
    const variant: Variant
    /** `headers`: None until the first `set_header` or `reset_headers`. */
    var headers: Option<HeaderTable>
    /** `auth_username` / `auth_password`, sent as `Authorization`. */
    var authUsername: Option<string>
    var authPassword: Option<string>
    /** `_auth_name` / `_auth_password`: where the `pas_http_client` raw
        client's `_configure` keeps the URL's credentials. */
    var urlAuthName: Option<string>
    var urlAuthPassword: Option<string>
    var scheme: string
    var host: string
    var port: nat
    var path: string
    /** `ipv6_link_local_interface` */
    var interface: Option<string>

    /** The fields as `__init__` sets them before it configures the URL. */
    constructor (variant: Variant)
      ensures this.variant == variant
      ensures headers.None? && authUsername.None? && authPassword.None?
      ensures urlAuthName.None? && urlAuthPassword.None? && interface.None?
    {
      this.variant := variant;
      headers, authUsername, authPassword := None, None, None;
      urlAuthName, urlAuthPassword := None, None;
      scheme, host, port, path := "", "", 0, "";
      interface := None;
    }

    /** `set_header(name, value, value_appends)`: the header table and
        nothing else changes, as `WithHeader` describes. */
    method SetHeader(name: string, value: Option<HeaderValue>, valueAppends: bool)
      modifies this`headers
      ensures headers == Some(WithHeader(variant.Case(), old(headers), name, value, valueAppends))
    {
      var table := if headers.None? then map[] else headers.value;
      var key := if variant == DngRaw then Upper(name) else Lower(name);
      if value.None? {
        if key in table {
          table := table - {key};
        }
      } else if key !in table {
        table := table[key := value.value];
      } else if valueAppends {
        var current := table[key];
        if current.Items? {
          table := table[key := Items(current.items + [value.value])];
        } else {
          table := table[key := Items([current, value.value])];
        }
      }
      headers := Some(table);
    }

    /** `reset_headers()` */
    method ResetHeaders()
      modifies this`headers
      ensures headers == Some(map[])
    {
      headers := Some(map[]);
    }

    /** `set_basic_auth(username, password)`: None becomes the empty string,
        so afterwards both are set. */
    method SetBasicAuth(username: Option<string>, password: Option<string>)
      modifies this`authUsername, this`authPassword
      ensures authUsername == Some(username.GetOr("")) && authPassword == Some(password.GetOr(""))
    {
      authUsername := Some(if username.None? then "" else username.value);
      authPassword := Some(if password.None? then "" else password.value);
    }

    /** `set_ipv6_link_local_interface(interface)` */
    method SetIpv6LinkLocalInterface(name: Option<string>)
      modifies this`interface
      ensures interface == name
    {
      interface := name;
    }

    /** `_configure(url)` on the split URL `u`. The scheme is stored
        lower-cased before a missing host name is noticed; after that
        nothing is changed. The `pas_http_client` raw client keeps the URL's
        credentials apart from the request credentials, the `dNG` raw client
        uses them for requests. */
    method Configure(u: UrlParts) returns (error: Option<ConfigureError>)
      modifies this`scheme, this`host, this`port, this`path
      modifies this`authUsername, this`authPassword, this`urlAuthName, this`urlAuthPassword
      ensures variant.IsAbstract() ==> error == Some(NotImplemented) && scheme == old(scheme)
      ensures !variant.IsAbstract() ==> scheme == Lower(u.scheme)
      ensures !variant.IsAbstract() && u.hostname.None? ==> error == Some(InvalidUrl)
      ensures error.Some? ==>
        && host == old(host) && port == old(port) && path == old(path)
        && authUsername == old(authUsername) && authPassword == old(authPassword)
        && urlAuthName == old(urlAuthName) && urlAuthPassword == old(urlAuthPassword)
      ensures error.None? <==> !variant.IsAbstract() && u.hostname.Some?
      ensures error.None? ==>
        && host == BracketedHost(u.hostname.value)
        && port == DefaultedPort(Lower(u.scheme), u.port)
        && path == PathAndQuery(u.path, u.query)
      ensures error.None? && variant == PasRaw ==>
        && urlAuthName == u.username && urlAuthPassword == u.password
        && authUsername == old(authUsername) && authPassword == old(authPassword)
      ensures error.None? && variant == DngRaw ==>
        && authUsername == u.username && authPassword == u.password
        && urlAuthName == old(urlAuthName) && urlAuthPassword == old(urlAuthPassword)
    {
      if variant.IsAbstract() {
        return Some(NotImplemented);
      }
      scheme := Lower(u.scheme);
      if u.hostname.None? {
        return Some(InvalidUrl);
      }
      if variant == PasRaw {
        urlAuthName, urlAuthPassword := u.username, u.password;
      } else {
        authUsername, authPassword := u.username, u.password;
      }
      var hostname := u.hostname.value;
      host := if ':' in hostname then "[" + hostname + "]" else hostname;
      if u.port.Some? {
        port := u.port.value;
      } else if scheme == "https" {
        port := HttpsPort;
      } else {
        port := HttpPort;
      }
      path := u.path;
      if u.query != "" {
        path := path + "?" + u.query;
      }
      error := None;
    }

    /** `request(method, separator, params, data)`: the arguments composed
        from the fields, handed to `_request` -- here `send`, which the
        abstract classes do not have -- with any exception turned into the
        error dict. Being a function, it cannot change the header table. */
    function Request(verb: string, separator: string, params: Option<string>, data: Data,
                     b64: string -> string, urlencode: seq<(string, string)> -> string,
                     send: (string, RequestArgs) -> Attempt): (r: Reply)
      reads this
      ensures variant.IsAbstract() ==> r == Reply(None, None, Caught("NotImplemented"), false)
      ensures !variant.IsAbstract() ==>
        r == CatchAll(send(verb, Compose(variant.Case(), path, headers, authUsername, authPassword,
                                         separator, params, data, b64, urlencode)))
    {
      var args := Compose(variant.Case(), path, headers, authUsername, authPassword,
                          separator, params, data, b64, urlencode);
      CatchAll(if variant.IsAbstract() then Thrown("NotImplemented") else send(verb, args))
    }
  }

  /** After `set_basic_auth`, every request of a raw client carries `Basic`
      authorization for those credentials -- unless the header table has
      its own `Authorization` entry. */
  lemma BasicAuthIsSent(c: NameCase, path: string, headers: Option<HeaderTable>, user: Option<string>,
                        password: Option<string>, separator: string, params: Option<string>, data: Data,
                        b64: string -> string, urlencode: seq<(string, string)> -> string)
    requires "Authorization" !in headers.GetOr(map[])
    ensures var args := Compose(c, path, headers, Some(user.GetOr("")), Some(password.GetOr("")),
                                separator, params, data, b64, urlencode);
      && args.headers.Some? && "Authorization" in args.headers.value
      && args.headers.value["Authorization"] == Text("Basic " + b64(user.GetOr("") + ":" + password.GetOr("")))
  {
    OutgoingHeadersAdd(c, headers, data, Some(user.GetOr("")), Some(password.GetOr("")), b64);
  }
}
