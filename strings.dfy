/**
 * The three pieces of Python string behaviour the executor relies on to decide
 * whether a statement returns rows: `str.lstrip()`, `str.upper()` and
 * `str.startswith()`. Only the ASCII range is modelled.
 */
module Strings {

  /** Python's `str.isspace()` on ASCII: space, `\t \n \v \f \r`, and the
      separators `\x1c`-`\x1f`, which Python also counts as whitespace. */
  predicate IsSpace(c: char) {
    c == ' ' || ('\t' <= c <= '\r') || ('\U{1C}' <= c <= '\U{1F}')
  }

  /** `s.lstrip()`: drops the leading whitespace. */
  function LStrip(s: string): (r: string)
    ensures |r| <= |s| && r == s[|s| - |r|..]
    ensures forall i :: 0 <= i < |s| - |r| ==> IsSpace(s[i])
    ensures r == [] || !IsSpace(r[0])
  {
    if s != [] && IsSpace(s[0]) then LStrip(s[1..]) else s
  }

  /** ASCII upper-casing of one character; every other character is kept. */
  function UpperChar(c: char): (u: char)
    ensures 'a' <= c <= 'z' ==> u as int == c as int - 32
    ensures !('a' <= c <= 'z') ==> u == c
  {
    if 'a' <= c <= 'z' then (c as int - 32) as char else c
  }

  /** `s.upper()`, character by character. */
  function Upper(s: string): (r: string)
    ensures |r| == |s|
    ensures forall i :: 0 <= i < |s| ==> r[i] == UpperChar(s[i])
  {
    if s == [] then [] else [UpperChar(s[0])] + Upper(s[1..])
  }

  /** `s.startswith(p)`. */
  predicate StartsWith(s: string, p: string) {
    |p| <= |s| && s[..|p|] == p
  }

  /** The executor's test `stmt.lstrip().upper().startswith("SELECT")`. */
  predicate IsSelect(text: string) {
    StartsWith(Upper(LStrip(text)), "SELECT")
  }

  /** `text[k..k+6]` spells SELECT in any mix of cases. */
  ghost predicate KeywordAt(text: string, k: nat)
    requires k + 6 <= |text|
  {
    forall j :: 0 <= j < 6 ==> UpperChar(text[k + j]) == "SELECT"[j]
  }

  /** Everything before position `k` is whitespace. */
  ghost predicate BlankBefore(text: string, k: nat)
    requires k <= |text|
  {
    forall i :: 0 <= i < k ==> IsSpace(text[i])
  }

  /** A reading of the SELECT test that does not go through the three
      string functions: some run of leading whitespace is followed by the
      six letters of SELECT, in any case. */
  ghost predicate OpensWithSelect(text: string) {
    exists k: nat :: k + 6 <= |text| && BlankBefore(text, k) && KeywordAt(text, k)
  }

  lemma IsSelectIff(text: string)
    ensures IsSelect(text) <==> OpensWithSelect(text)
  {
    var r := LStrip(text);
    var m := |text| - |r|;
    if IsSelect(text) {
      assert KeywordAt(text, m) by {
        forall j | 0 <= j < 6 ensures UpperChar(text[m + j]) == "SELECT"[j] {
          assert Upper(r)[..6][j] == "SELECT"[j];
        }
      }
      assert BlankBefore(text, m);
    }
    if OpensWithSelect(text) {
      var k: nat :| k + 6 <= |text| && BlankBefore(text, k) && KeywordAt(text, k);
      assert UpperChar(text[k + 0]) == "SELECT"[0] == 'S';
      assert !IsSpace(text[k]);
      assert k == m;
      assert Upper(r)[..6] == "SELECT" by {
        forall j | 0 <= j < 6 ensures Upper(r)[j] == "SELECT"[j] {
          assert r[j] == text[k + j];
        }
      }
    }
  }

  /** A text that starts with a non-blank character whose upper case is not
      `S` is never a SELECT. */
  lemma NotSelectByFirst(text: string)
    requires text != [] && !IsSpace(text[0]) && UpperChar(text[0]) != 'S'
    ensures !IsSelect(text)
  {
    assert LStrip(text) == text;
  }

  /** A text that starts with the lower-case word `select` is a SELECT,
      whatever follows. */
  lemma SelectWord(text: string)
    requires |text| >= 6 && text[..6] == "select"
    ensures IsSelect(text)
  {
    assert text[0] == 's';
    assert LStrip(text) == text;
    assert Upper(text)[..6] == "SELECT";
  }
}
