/** The request header table of the raw clients and its update rule,
    `set_header(name, value, value_appends)`. */
module Headers {
  import opened Base

  /** A header value as the table holds it: a string, or a list of values
      once several have been appended. */
  datatype HeaderValue = Text(text: string) | Items(items: seq<HeaderValue>)

  type HeaderTable = map<string, HeaderValue>

  /** How a client folds header names: the `pas_http_client` clients and the
      `dNG` abstract client lower-case them, the `dNG` raw client upper-cases. */
  datatype NameCase = LowerCase | UpperCase

  function FoldName(c: NameCase, name: string): (r: string)
    ensures |r| == |name|
    ensures c.LowerCase? ==> NoUpperCase(r)
    ensures c.UpperCase? ==> NoLowerCase(r)
  {
    match c
    case LowerCase => Lower(name)
    case UpperCase => Upper(name)
  }

  /** Names that differ only in ASCII letter case fold to the same key. */
  lemma FoldNameIgnoresCase(c: NameCase, name: string)
    ensures FoldName(c, Lower(name)) == FoldName(c, name) == FoldName(c, Upper(name))
  {
    LowerUpper(name);
  }

  lemma LowerUpper(s: string)
    ensures Lower(Upper(s)) == Lower(s) && Upper(Lower(s)) == Upper(s)
  {
    assert forall i :: 0 <= i < |s| ==> ToLowerChar(ToUpperChar(s[i])) == ToLowerChar(s[i]);
    assert forall i :: 0 <= i < |s| ==> ToUpperChar(ToLowerChar(s[i])) == ToUpperChar(s[i]);
  }

  /** A second value for a present name: appended to a list value, or the
      two made into a list. */
  function Appended(current: HeaderValue, v: HeaderValue): (r: HeaderValue)
    ensures r.Items? && |r.items| >= 1 && r.items[|r.items| - 1] == v
    ensures r.items[..|r.items| - 1] == if current.Items? then current.items else [current]
  {
    if current.Items? then Items(current.items + [v]) else Items([current, v])
  }

  /** The table after `set_header(name, value, appends)`; `table` is None
      before the first header was set. */
  function WithHeader(c: NameCase, table: Option<HeaderTable>, name: string,
                      value: Option<HeaderValue>, appends: bool): (r: HeaderTable)
    // no other name is touched
    ensures forall k :: k != FoldName(c, name) ==>
      (k in r <==> k in table.GetOr(map[])) && (k in r ==> r[k] == table.GetOr(map[])[k])
    // None deletes the name, present or not
    ensures value.None? ==> FoldName(c, name) !in r
    // an absent name is stored with the value given
    ensures value.Some? && FoldName(c, name) !in table.GetOr(map[]) ==>
      FoldName(c, name) in r && r[FoldName(c, name)] == value.value
    // a present name gets the value appended, or is left alone
    ensures value.Some? && FoldName(c, name) in table.GetOr(map[]) ==>
      FoldName(c, name) in r &&
      r[FoldName(c, name)] == if appends then Appended(table.GetOr(map[])[FoldName(c, name)], value.value)
                              else table.GetOr(map[])[FoldName(c, name)]
  {
    var t := table.GetOr(map[]);
    var key := FoldName(c, name);
    if value.None? then (if key in t then t - {key} else t)
    else if key !in t then t[key := value.value]
    else if appends then t[key := Appended(t[key], value.value)]
    else t
  }

  /** Setting a header and then setting it to None leaves the table without
      it and otherwise as it was. */
  lemma SetThenDelete(c: NameCase, table: HeaderTable, name: string, v: HeaderValue, appends: bool,
                      appends2: bool)
    ensures WithHeader(c, Some(WithHeader(c, Some(table), name, Some(v), appends)), name, None, appends2)
         == table - {FoldName(c, name)}
  {
    var r := WithHeader(c, Some(WithHeader(c, Some(table), name, Some(v), appends)), name, None, appends2);
    assert forall k :: k in r <==> k in table - {FoldName(c, name)};
  }

  /** Setting a header again without `value_appends` never replaces it:
      the first value set wins. */
  lemma FirstValueWins(c: NameCase, table: Option<HeaderTable>, name: string, v: HeaderValue, w: HeaderValue)
    ensures var once := WithHeader(c, table, name, Some(v), false);
      WithHeader(c, Some(once), name, Some(w), false) == once
  {
  }

  /** The first header set makes a table of that one entry. */
  lemma FirstHeader(c: NameCase, name: string, v: HeaderValue, appends: bool, t: HeaderTable)
    requires t == WithHeader(c, None, name, Some(v), appends)
    ensures t == map[FoldName(c, name) := v]
  {
  }

  /** Appending under another spelling of the one name in a table. */
  lemma AppendRespelled(c: NameCase, name: string, spelled: string, current: HeaderValue, v: HeaderValue,
                        t: HeaderTable, t': HeaderTable)
    requires FoldName(c, spelled) == FoldName(c, name)
    requires t == map[FoldName(c, name) := current]
    requires t' == WithHeader(c, Some(t), spelled, Some(v), true)
    ensures t' == map[FoldName(c, name) := Appended(current, v)]
  {
  }

  /** Two appends to a header set once make the list of all three values,
      under any spelling of the name. */
  lemma AppendTwice(c: NameCase, name: string, a: string, b: string, x: string,
                    t1: HeaderTable, t2: HeaderTable, t3: HeaderTable)
    requires t1 == WithHeader(c, None, name, Some(Text(a)), true)
    requires t2 == WithHeader(c, Some(t1), Upper(name), Some(Text(b)), true)
    requires t3 == WithHeader(c, Some(t2), Lower(name), Some(Text(x)), true)
    ensures t3 == map[FoldName(c, name) := Items([Text(a), Text(b), Text(x)])]
  {
    FoldNameIgnoresCase(c, name);
    FirstHeader(c, name, Text(a), true, t1);
    AppendRespelled(c, name, Upper(name), Text(a), Text(b), t1, t2);
    AppendRespelled(c, name, Lower(name), Items([Text(a), Text(b)]), Text(x), t2, t3);
    assert [Text(a), Text(b)] + [Text(x)] == [Text(a), Text(b), Text(x)];
  }
}
