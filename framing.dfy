/** The two pieces of chunked transfer-coding framing the reader uses:
    locating the CRLF that ends a chunk-size line (`bytes.find(b"\r\n")`)
    and reading the base-16 size in front of it (`int(octets, 16)`). */
module Framing {
  import opened Base

  const CR: byte := 13
  const LF: byte := 10

  /** A CRLF pair starts at index `i` of `s`. */
  predicate CrlfAt(s: Bytes, i: int) {
    0 <= i && i + 1 < |s| && s[i] == CR && s[i + 1] == LF
  }

  predicate HasCrlf(s: Bytes) {
    exists i :: 0 <= i < |s| && CrlfAt(s, i)
  }

  /** `s.find(b"\r\n")`: the index of the first CRLF, or -1 when there is none. */
  function FindCrlf(s: Bytes): (r: int)
    ensures -1 <= r && (r >= 0 ==> CrlfAt(s, r))
  {
    if |s| < 2 then -1
    else if s[0] == CR && s[1] == LF then 0
    else
      var t := FindCrlf(s[1..]);
      if t < 0 then -1 else t + 1
  }

  /** `find` reports the first CRLF, and -1 exactly when there is none. */
  lemma {:induction false} FindCrlfFirst(s: Bytes)
    ensures var r := FindCrlf(s);
      (r == -1 <==> !HasCrlf(s)) && (r >= 0 ==> forall j :: 0 <= j < r ==> !CrlfAt(s, j))
  {
    if |s| >= 2 && !(s[0] == CR && s[1] == LF) {
      FindCrlfFirst(s[1..]);
      assert !CrlfAt(s, 0);
      assert forall j :: 1 <= j ==> (CrlfAt(s, j) <==> CrlfAt(s[1..], j - 1));
    }
  }

  /** Appending bytes cannot move a CRLF that is already there. */
  lemma FindCrlfPrefix(s: Bytes, t: Bytes)
    requires HasCrlf(s)
    ensures FindCrlf(s + t) == FindCrlf(s)
  {
    FindCrlfFirst(s);
    FindCrlfFirst(s + t);
    var i := FindCrlf(s);
    assert CrlfAt(s + t, i);
    forall j | 0 <= j < i ensures !CrlfAt(s + t, j) {
      assert !CrlfAt(s, j);
    }
    var k := FindCrlf(s + t);
    assert k != -1;
    assert !(k < i) && !(i < k);
  }

  // ---------------------------------------------------------------------
  // Base-16 numbers

  predicate IsHexDigit(b: byte) {
    (48 <= b <= 57) || (97 <= b <= 102) || (65 <= b <= 70)
  }

  function HexDigitValue(b: byte): (v: nat)
    requires IsHexDigit(b)
    ensures v < 16
  {
    if b <= 57 then (b - 48) as nat
    else if b >= 97 then (b - 97 + 10) as nat
    else (b - 65 + 10) as nat
  }

  predicate AllHexDigits(s: Bytes) {
    forall i :: 0 <= i < |s| ==> IsHexDigit(s[i])
  }

  /** The value of a string of hex digits, most significant first. */
  function HexValue(s: Bytes): nat
    requires AllHexDigits(s)
  {
    if s == [] then 0 else 16 * HexValue(s[..|s| - 1]) + HexDigitValue(s[|s| - 1])
  }

  /** The value of a string of hex digits, or None at the first other byte. */
  function HexDigits(s: Bytes): Option<nat> {
    if s == [] then Some(0)
    else if !IsHexDigit(s[|s| - 1]) then None
    else match HexDigits(s[..|s| - 1])
      case None => None
      case Some(v) => Some(16 * v + HexDigitValue(s[|s| - 1]))
  }

  /** `int(octets, 16)`, restricted to what a chunk-size line of the
      transfer coding may hold: one or more hex digits. Anything else -- the
      empty string, a `;` chunk extension, any other byte -- fails, as
      Python raises `ValueError` for it. */
  function ParseHex(s: Bytes): Option<nat> {
    if s == [] then None else HexDigits(s)
  }

  lemma {:induction false} HexDigitsMeans(s: Bytes)
    ensures HexDigits(s).Some? <==> AllHexDigits(s)
    ensures HexDigits(s).Some? ==> HexDigits(s).value == HexValue(s)
  {
    if s != [] {
      var init := s[..|s| - 1];
      HexDigitsMeans(init);
      assert forall i :: 0 <= i < |init| ==> init[i] == s[i];
      if IsHexDigit(s[|s| - 1]) && AllHexDigits(init) {
        assert AllHexDigits(s) by {
          forall i | 0 <= i < |s| ensures IsHexDigit(s[i]) {
            if i < |init| { assert s[i] == init[i]; }
          }
        }
      }
    }
  }

  /** `int(octets, 16)` succeeds exactly on a non-empty string of hex
      digits, and then gives their base-16 value. */
  lemma ParseHexMeans(s: Bytes)
    ensures ParseHex(s).Some? <==> |s| > 0 && AllHexDigits(s)
    ensures ParseHex(s).Some? ==> ParseHex(s).value == HexValue(s)
  {
    HexDigitsMeans(s);
  }

  // ---------------------------------------------------------------------
  // The inverse: lower-case hex rendering, as a server writes chunk sizes

  function HexDigit(d: nat): (b: byte)
    requires d < 16
    ensures IsHexDigit(b) && HexDigitValue(b) == d
  {
    if d < 10 then (48 + d) as byte else (97 + d - 10) as byte
  }

  function HexEncode(n: nat): (r: Bytes)
    ensures |r| >= 1 && AllHexDigits(r)
  {
    if n < 16 then [HexDigit(n)] else HexEncode(n / 16) + [HexDigit(n % 16)]
  }

  /** Every size a server can write is read back as that size. */
  lemma ParseHexEncode(n: nat)
    ensures ParseHex(HexEncode(n)) == Some(n)
  {
    HexValueEncode(n);
    ParseHexMeans(HexEncode(n));
  }

  lemma {:induction false} HexValueEncode(n: nat)
    ensures HexValue(HexEncode(n)) == n
  {
    if n >= 16 {
      HexValueEncode(n / 16);
      var s := HexEncode(n);
      assert s[..|s| - 1] == HexEncode(n / 16);
    }
  }

  /** A size line never contains the CRLF that terminates it. */
  lemma HexEncodeHasNoCrlf(n: nat)
    ensures !HasCrlf(HexEncode(n))
  {
    var s := HexEncode(n);
    assert forall i :: 0 <= i < |s| ==> s[i] != CR;
    FindCrlfFirst(s);
  }

  /** A size line as a server writes it, `HexEncode(n)` and CRLF, followed
      by anything: `find` stops at that CRLF, the octets in front of it read
      back as `n`, and what follows it is exactly the rest. */
  lemma EncodedSizeLine(n: nat, rest: Bytes, line: Bytes)
    requires line == HexEncode(n) + [CR, LF] + rest
    ensures FindCrlf(line) == |HexEncode(n)|
    ensures ParseHex(line[..FindCrlf(line)]) == Some(n)
    ensures line[FindCrlf(line) + 2..] == rest
  {
    var e := HexEncode(n);
    var head := e + [CR, LF];
    HexEncodeHasNoCrlf(n);
    assert CrlfAt(head, |e|);
    forall j | 0 <= j < |e| ensures !CrlfAt(head, j) {
      if j + 1 < |e| {
        assert head[j] == e[j] && head[j + 1] == e[j + 1];
        assert !CrlfAt(e, j);
      } else {
        assert head[j] == e[j] && IsHexDigit(e[j]);
      }
    }
    FindCrlfFirst(head);
    assert FindCrlf(head) == |e|;
    FindCrlfPrefix(head, rest);
    assert line == head + rest;
    assert line[..|e|] == e;
    ParseHexEncode(n);
    assert line[|e| + 2..] == rest;
  }
}
