/**
 * The string operations the decoder applies to graph input and output names:
 * `str.startswith`, `name.split("_layer_")[-1]` and Python's `int(...)` on
 * the result, plus the character classes (`str.isspace`, ASCII letters) that
 * `int` and the English-text heuristic use.
 */
module Names {
  import opened Wrappers

  predicate StartsWith(s: string, prefix: string)
  {
    |prefix| <= |s| && s[..|prefix|] == prefix
  }

  /** Python's `str.isspace` for one character. */
  predicate IsSpace(c: char)
  {
    c == ' ' || ('\t' <= c <= '\r') || ('\U{1c}' <= c <= '\U{1f}') ||
    c == '\U{85}' || c == '\U{a0}' || c == '\U{1680}' || ('\U{2000}' <= c <= '\U{200a}') ||
    c == '\U{2028}' || c == '\U{2029}' || c == '\U{202f}' || c == '\U{205f}' || c == '\U{3000}'
  }

  predicate IsAscii(c: char)
  {
    c < '\U{80}'
  }

  /** `c.isascii() and c.isalpha()`: the ASCII letters. */
  predicate IsAsciiLetter(c: char)
  {
    'a' <= c <= 'z' || 'A' <= c <= 'Z'
  }

  predicate IsDigit(c: char)
  {
    '0' <= c <= '9'
  }

  // ---------------------------------------------------------------------------
  // name.split(sep)[-1]

  predicate OccursAt(s: string, sep: string, j: nat)
  {
    j + |sep| <= |s| && s[j..j + |sep|] == sep
  }

  /** The first position at or after i where `sep` occurs in s. */
  function FindFrom(s: string, sep: string, i: nat): (r: Option<nat>)
    requires i <= |s|
    ensures r.Some? ==> i <= r.value && OccursAt(s, sep, r.value)
    ensures r.Some? ==> forall j :: i <= j < r.value ==> !OccursAt(s, sep, j)
    ensures r.None? ==> forall j :: i <= j ==> !OccursAt(s, sep, j)
    decreases |s| - i
  {
    if i + |sep| > |s| then None
    else if s[i..i + |sep|] == sep then Some(i)
    else FindFrom(s, sep, i + 1)
  }

  /**
   * `s.split(sep)[-1]`: what follows the last separator found by Python's
   * left-to-right, non-overlapping scan (the whole of s when there is none).
   */
  function LastPiece(s: string, sep: string): (r: string)
    requires |sep| > 0
    ensures |r| <= |s|
    ensures FindFrom(r, sep, 0).None?
    decreases |s|
  {
    match FindFrom(s, sep, 0)
    case None => s
    case Some(i) => LastPiece(s[i + |sep|..], sep)
  }

  /** r is what remains of s after dropping some prefix. */
  predicate IsSuffix(r: string, s: string)
  {
    |r| <= |s| && r == s[|s| - |r|..]
  }

  /** The last piece of a split is a suffix of the string split. */
  lemma {:induction false} LastPieceIsSuffix(s: string, sep: string)
    requires |sep| > 0
    ensures IsSuffix(LastPiece(s, sep), s)
    decreases |s|
  {
    match FindFrom(s, sep, 0)
    case None =>
    case Some(i) =>
      var rest := s[i + |sep|..];
      var r := LastPiece(rest, sep);
      LastPieceAfter(s, sep, i);
      LastPieceIsSuffix(rest, sep);
      SuffixOfSuffix(s, i + |sep|, r);
  }

  lemma SuffixOfSuffix(s: string, k: nat, r: string)
    requires k <= |s| && IsSuffix(r, s[k..])
    ensures IsSuffix(r, s)
  {
    assert s[k..][|s| - k - |r|..] == s[|s| - |r|..];
  }

  // ---------------------------------------------------------------------------
  // int(text)

  function TrimStart(s: string): (r: string)
    ensures |r| <= |s| && r == s[|s| - |r|..]
    ensures r == [] || !IsSpace(r[0])
  {
    if s == [] || !IsSpace(s[0]) then s else TrimStart(s[1..])
  }

  function TrimEnd(s: string): (r: string)
    ensures |r| <= |s| && r == s[..|r|]
    ensures r == [] || !IsSpace(r[|r| - 1])
  {
    if s == [] || !IsSpace(s[|s| - 1]) then s else TrimEnd(s[..|s| - 1])
  }

  /** Digits with single underscores between digits: the body Python's `int` accepts in base 10. */
  predicate DigitGroups(s: string)
  {
    |s| > 0 && IsDigit(s[0]) && IsDigit(s[|s| - 1]) &&
    forall i :: 0 <= i < |s| ==> DigitOrJoin(s, i)
  }

  /** Position i of s holds a digit, or an underscore with a digit on each side. */
  predicate DigitOrJoin(s: string, i: nat)
    requires i < |s|
  {
    IsDigit(s[i]) || (s[i] == '_' && 0 < i < |s| - 1 && IsDigit(s[i - 1]) && IsDigit(s[i + 1]))
  }

  function RemoveUnderscores(s: string): string
  {
    if s == [] then [] else (if s[0] == '_' then [] else [s[0]]) + RemoveUnderscores(s[1..])
  }

  function DigitValue(c: char): nat
    requires IsDigit(c)
  {
    (c as int) - ('0' as int)
  }

  function DecimalValue(s: string): nat
    requires forall i :: 0 <= i < |s| ==> IsDigit(s[i])
  {
    if s == [] then 0 else 10 * DecimalValue(s[..|s| - 1]) + DigitValue(s[|s| - 1])
  }

  lemma {:induction false} RemoveUnderscoresDigits(s: string)
    requires forall i :: 0 <= i < |s| ==> IsDigit(s[i]) || s[i] == '_'
    ensures forall i :: 0 <= i < |RemoveUnderscores(s)| ==> IsDigit(RemoveUnderscores(s)[i])
  {
    if s != [] {
      RemoveUnderscoresDigits(s[1..]);
    }
  }

  lemma DigitGroupsChars(s: string)
    requires DigitGroups(s)
    ensures forall i :: 0 <= i < |s| ==> IsDigit(s[i]) || s[i] == '_'
  {
    forall i | 0 <= i < |s|
      ensures IsDigit(s[i]) || s[i] == '_'
    {
      assert DigitOrJoin(s, i);
    }
  }

  /** The value of a base-10 digit body (underscores ignored), if it is well formed. */
  function ParseDigitGroups(s: string): Option<nat>
  {
    if DigitGroups(s) then
      DigitGroupsChars(s);
      RemoveUnderscoresDigits(s);
      Some(DecimalValue(RemoveUnderscores(s)))
    else None
  }

  /**
   * Python's `int(s)` for a string: surrounding whitespace ignored, an
   * optional sign, then base-10 digits with single underscores between them;
   * None where Python raises ValueError.
   */
  function ParseInt(s: string): Option<int>
  {
    var t := TrimEnd(TrimStart(s));
    if |t| > 0 && (t[0] == '+' || t[0] == '-') then
      match ParseDigitGroups(t[1..])
      case None => None
      case Some(v) =>
        var signed: int := if t[0] == '-' then -(v as int) else v;
        Some(signed)
    else
      match ParseDigitGroups(t)
      case None => None
      case Some(v) => Some(v)
  }

  /** `int(name.split("_layer_")[-1])`: the layer number a cache tensor's name carries. */
  function LayerIndex(name: string): Option<int>
  {
    ParseInt(LastPiece(name, "_layer_"))
  }

  // ---------------------------------------------------------------------------
  // Round trip: the names an exporter writes parse back to their layer numbers

  /** `str(n)` for a natural number. */
  function NatToString(n: nat): (r: string)
    ensures |r| > 0 && forall i :: 0 <= i < |r| ==> IsDigit(r[i])
  {
    if n < 10 then [('0' as int + n) as char]
    else NatToString(n / 10) + [('0' as int + n % 10) as char]
  }

  lemma {:induction false} DecimalValueOfString(n: nat)
    ensures DecimalValue(NatToString(n)) == n
  {
    var r := NatToString(n);
    if n >= 10 {
      DecimalValueOfString(n / 10);
      assert r[..|r| - 1] == NatToString(n / 10);
    }
  }

  lemma {:induction false} RemoveUnderscoresNone(s: string)
    requires forall i :: 0 <= i < |s| ==> s[i] != '_'
    ensures RemoveUnderscores(s) == s
  {
    if s != [] {
      RemoveUnderscoresNone(s[1..]);
    }
  }

  /** Every decimal rendering of a natural number parses back to it. */
  lemma ParseIntOfString(n: nat)
    ensures ParseInt(NatToString(n)) == Some(n)
  {
    var d := NatToString(n);
    ParsePlainDigits(d);
    DecimalValueOfString(n);
  }

  /** A non-empty run of ASCII digits parses to its decimal value. */
  lemma ParsePlainDigits(d: string)
    requires |d| > 0 && forall i :: 0 <= i < |d| ==> IsDigit(d[i])
    ensures ParseInt(d) == Some(DecimalValue(d))
  {
    assert !IsSpace(d[0]);
    assert TrimStart(d) == d;
    assert !IsSpace(d[|d| - 1]);
    assert TrimEnd(d) == d;
    assert d[0] != '+' && d[0] != '-';
    assert DigitGroups(d);
    RemoveUnderscoresNone(d);
    assert ParseDigitGroups(d) == Some(DecimalValue(d));
  }

  /** A minus sign before a decimal rendering gives the negated number. */
  lemma ParseIntNegative(n: nat)
    ensures ParseInt("-" + NatToString(n)) == Some(-(n as int))
  {
    var d := NatToString(n);
    var s := "-" + d;
    assert !IsSpace(s[0]);
    assert TrimStart(s) == s;
    assert s[|s| - 1] == d[|d| - 1];
    assert !IsSpace(s[|s| - 1]);
    assert TrimEnd(s) == s;
    assert s[1..] == d;
    assert DigitGroups(d);
    RemoveUnderscoresNone(d);
    DecimalValueOfString(n);
    assert ParseDigitGroups(d) == Some(n);
  }

  /** Blank text is no number: `int` raises on it. */
  lemma ParseIntBlank(s: string)
    requires forall i :: 0 <= i < |s| ==> IsSpace(s[i])
    ensures ParseInt(s).None?
  {
    assert TrimStart(s) == [];
  }

  lemma NoSeparatorInDigits(d: string, sep: string)
    requires forall i :: 0 <= i < |d| ==> IsDigit(d[i])
    requires |sep| > 0 && sep[0] == '_'
    ensures FindFrom(d, sep, 0).None?
  {
    forall j: nat
      ensures !OccursAt(d, sep, j)
    {
      if j + |sep| <= |d| {
        assert d[j..j + |sep|][0] == d[j];
      }
    }
  }

  /** The cache tensor names the exporters write. */
  predicate IsLayerPrefix(prefix: string)
  {
    prefix == "present_k_layer_" || prefix == "present_v_layer_" ||
    prefix == "past_k_layer_" || prefix == "past_v_layer_"
  }

  lemma FirstSeparator(s: string, sep: string, k: nat)
    requires OccursAt(s, sep, k)
    requires forall j :: 0 <= j < k ==> !OccursAt(s, sep, j)
    ensures FindFrom(s, sep, 0) == Some(k)
  {
  }

  /** Within a cache prefix, `_layer_` first occurs where the prefix ends with it. */
  lemma {:induction false} NoEarlySeparator(prefix: string, j: nat)
    requires IsLayerPrefix(prefix) && j < |prefix| - |"_layer_"|
    ensures !OccursAt(prefix, "_layer_", j)
  {
    assert prefix[j..j + 7][0] == prefix[j] && prefix[j..j + 7][1] == prefix[j + 1];
    assert prefix[j] != '_' || prefix[j + 1] != 'l';
  }

  /** `split` drops everything up to the first separator, then continues on the rest. */
  lemma {:induction false} LastPieceAfter(s: string, sep: string, k: nat)
    requires |sep| > 0 && FindFrom(s, sep, 0) == Some(k)
    ensures LastPiece(s, sep) == LastPiece(s[k + |sep|..], sep)
  {
    match FindFrom(s, sep, 0)
    case Some(i) =>
      assert i == k;
  }

  /** A cache name `<prefix><n>` carries layer number n. */
  lemma LayerIndexOfName(prefix: string, n: nat)
    requires IsLayerPrefix(prefix)
    ensures LayerIndex(prefix + NatToString(n)) == Some(n)
  {
    var sep := "_layer_";
    var d := NatToString(n);
    var s := prefix + d;
    var k := |prefix| - |sep|;
    assert s[k..k + |sep|] == prefix[k..];
    forall j | 0 <= j < k
      ensures !OccursAt(s, sep, j)
    {
      NoEarlySeparator(prefix, j);
      assert s[j..j + |sep|] == prefix[j..j + |sep|];
    }
    FirstSeparator(s, sep, k);
    LastPieceAfter(s, sep, k);
    assert s[k + |sep|..] == d;
    NoSeparatorInDigits(d, sep);
    ParseIntOfString(n);
  }
}
