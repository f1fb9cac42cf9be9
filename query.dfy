/** Query composition of the raw clients: `_build_request_parameters`, which
    renders a parameter dict as separator-joined `key=value` pairs, and the
    path/query concatenation at the start of `request`. The percent-quoting
    function is a parameter: `quote_plus(_, "")` in the `pas_http_client`
    clients and the `dNG` abstract client, `quote(_, "")` in the `dNG` raw
    client. */
module Query {
  import opened Base

  /** A parameter value: a `bool`, rendered as `1` / `0`, or anything else,
      given here as its `str()`. */
  datatype ParamValue = Flag(b: bool) | Value(text: string)

  /** The `params` argument: a dict (its keys' `str()` with their values, in
      iteration order), or anything that is not a dict. */
  datatype Params = NotADict | Dict(entries: seq<(string, ParamValue)>)

  /** One `key=value` item. */
  function ParamItem(quote: string -> string, key: string, v: ParamValue): string {
    match v
    case Flag(b) => quote(key) + "=" + (if b then "1" else "0")
    case Value(text) => quote(key) + "=" + quote(text)
  }

  /** The items of all entries, in order. */
  function ParamItems(quote: string -> string, entries: seq<(string, ParamValue)>): (r: seq<string>)
    ensures |r| == |entries|
    ensures forall i :: 0 <= i < |entries| ==> r[i] == ParamItem(quote, entries[i].0, entries[i].1)
  {
    if entries == [] then []
    else ParamItems(quote, entries[..|entries| - 1])
         + [ParamItem(quote, entries[|entries| - 1].0, entries[|entries| - 1].1)]
  }

  /** `_build_request_parameters(params, separator)`. */
  method BuildRequestParameters(quote: string -> string, params: Params, separator: string)
    returns (r: Option<string>)
    ensures params.NotADict? <==> r.None?
    ensures params.Dict? ==> r == Some(Join(separator, ParamItems(quote, params.entries)))
  {
    if !params.Dict? {
      return None;
    }
    var entries := params.entries;
    var paramsList: seq<string> := [];
    for i := 0 to |entries|
      invariant paramsList == ParamItems(quote, entries[..i])
    {
      assert entries[..i + 1][..i] == entries[..i];
      var (key, value) := entries[i];
      assert ParamItems(quote, entries[..i + 1])
          == ParamItems(quote, entries[..i]) + [ParamItem(quote, key, value)];
      match value {
        case Value(text) =>
          paramsList := paramsList + [quote(key) + "=" + quote(text)];
        case Flag(b) =>
          if b {
            assert ParamItem(quote, key, value) == quote(key) + "=1";
            paramsList := paramsList + [quote(key) + "=1"];
          } else {
            assert ParamItem(quote, key, value) == quote(key) + "=0";
            paramsList := paramsList + [quote(key) + "=0"];
          }
      }
    }
    assert entries[..|entries|] == entries;
    return Some(Join(separator, paramsList));
  }

  /** With a one-character separator that the quoting never produces, the
      query string splits back into exactly one item per entry, in order;
      a `bool` value reads back as `1` or `0`. */
  lemma ParamsSplitBack(quote: string -> string, entries: seq<(string, ParamValue)>, c: char)
    requires |entries| >= 1
    requires c != '=' && c != '0' && c != '1'
    requires forall i :: 0 <= i < |entries| ==> c !in quote(entries[i].0)
    requires forall i :: 0 <= i < |entries| ==> entries[i].1.Value? ==> c !in quote(entries[i].1.text)
    ensures var parts := Split(Join([c], ParamItems(quote, entries)), c);
      && |parts| == |entries|
      && (forall i :: 0 <= i < |entries| && entries[i].1.Flag? ==>
            parts[i] == quote(entries[i].0) + (if entries[i].1.b then "=1" else "=0"))
      && (forall i :: 0 <= i < |entries| && entries[i].1.Value? ==>
            parts[i] == quote(entries[i].0) + "=" + quote(entries[i].1.text))
  {
    var items := ParamItems(quote, entries);
    forall i | 0 <= i < |items| ensures c !in items[i] {
      ItemHasNoSeparator(quote, entries[i].0, entries[i].1, c);
    }
    SplitJoin(c, items);
    forall i | 0 <= i < |entries| && entries[i].1.Flag?
      ensures items[i] == quote(entries[i].0) + (if entries[i].1.b then "=1" else "=0")
    {
      var (key, v) := entries[i];
      assert items[i] == ParamItem(quote, key, v);
      if v.b {
        assert quote(key) + "=" + "1" == quote(key) + "=1";
      } else {
        assert quote(key) + "=" + "0" == quote(key) + "=0";
      }
    }
  }

  /** An item holds the separator only where its quoted parts do. */
  lemma ItemHasNoSeparator(quote: string -> string, key: string, v: ParamValue, c: char)
    requires c != '=' && c != '0' && c != '1'
    requires c !in quote(key)
    requires v.Value? ==> c !in quote(v.text)
    ensures c !in ParamItem(quote, key, v)
  {
    var tail := if v.Flag? then (if v.b then "1" else "0") else quote(v.text);
    assert ParamItem(quote, key, v) == quote(key) + ("=" + tail);
    assert c !in "=" + tail;
  }

  // ---------------------------------------------------------------------
  // The request path

  /** What goes between the path and the query parameters: `?` when the
      path has no query yet, the separator unless the path already ends
      with one, nothing otherwise. */
  function Glue(path: string, separator: string): string {
    if '?' !in path then "?" else if EndsWith(path, separator) then "" else separator
  }

  /** The path `request` sends: string `params` are appended, anything else
      (here None) leaves the path as it is. */
  function ComposePath(path: string, params: Option<string>, separator: string): (r: string)
    ensures params.None? ==> r == path
    ensures params.Some? ==> r == path + Glue(path, separator) + params.value
  {
    if params.None? then path
    else if '?' !in path then path + "?" + params.value
    else if !EndsWith(path, separator) then path + separator + params.value
    else path + params.value
  }

  /** The text after the first occurrence of `c`, if any. */
  function After(s: string, c: char): (r: Option<string>)
    ensures r.None? <==> c !in s
  {
    if s == [] then None else if s[0] == c then Some(s[1..]) else After(s[1..], c)
  }

  lemma {:induction false} AfterAppend(s: string, c: char, t: string)
    ensures After(s + t, c) == if c in s then Some(After(s, c).value + t) else After(t, c)
  {
    if s != [] {
      assert (s + t)[1..] == s[1..] + t;
      if s[0] != c {
        AfterAppend(s[1..], c, t);
      }
    } else {
      assert s + t == t;
    }
  }

  /** The query string of the composed path: the parameters alone when the
      path had none, otherwise the old query, then the separator unless the
      path already ended with it, then the parameters. */
  lemma ComposePathQuery(path: string, params: string, separator: string)
    ensures '?' !in path ==> After(ComposePath(path, Some(params), separator), '?') == Some(params)
    ensures '?' in path ==> After(ComposePath(path, Some(params), separator), '?')
                            == Some(After(path, '?').value + Glue(path, separator) + params)
  {
    var g := Glue(path, separator);
    assert ComposePath(path, Some(params), separator) == path + (g + params);
    AfterAppend(path, '?', g + params);
    if '?' !in path {
      assert (g + params)[0] == '?' && (g + params)[1..] == params;
    } else {
      assert After(path, '?').value + (g + params) == After(path, '?').value + g + params;
    }
  }

  /** The composed path starts with the old path and ends with the
      parameters, and what stands in front of them ends with `?` or with
      the separator. */
  lemma ComposePathEnds(path: string, params: string, separator: string)
    ensures var r := ComposePath(path, Some(params), separator);
      && StartsWith(r, path) && EndsWith(r, params)
      && (EndsWith(r[..|r| - |params|], "?") || EndsWith(r[..|r| - |params|], separator))
  {
    var r := ComposePath(path, Some(params), separator);
    var g := Glue(path, separator);
    assert r[..|path|] == path;
    assert r[|r| - |params|..] == params;
    var front := r[..|r| - |params|];
    assert front == path + g;
    if g != "" {
      assert front[|front| - |g|..] == g;
    }
  }
}
