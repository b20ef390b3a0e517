/**
 * The JavaScript string operations the diary's view logic relies on:
 * `trim`, `toLowerCase`, `includes` and `split` with a one-character separator.
 */
module JsText {

  /** The ECMAScript WhiteSpace and LineTerminator code points that `trim` strips. */
  predicate IsJsWhitespace(c: char) {
    var n := c as int;
    n == 0x09 || n == 0x0B || n == 0x0C || n == 0x20 || n == 0xA0 || n == 0xFEFF
    || n == 0x0A || n == 0x0D || n == 0x2028 || n == 0x2029
    || n == 0x1680 || 0x2000 <= n <= 0x200A || n == 0x202F || n == 0x205F || n == 0x3000
  }

  /** Every character of `s` is whitespace. */
  predicate AllWhitespace(s: string) {
    forall k :: 0 <= k < |s| ==> IsJsWhitespace(s[k])
  }

  /** Drops the leading whitespace. */
  function TrimStart(s: string): (r: string)
    ensures |r| <= |s| && r == s[|s| - |r|..]
    ensures AllWhitespace(s[..|s| - |r|])
    ensures r == [] || !IsJsWhitespace(r[0])
  {
    if s != [] && IsJsWhitespace(s[0]) then
      var r := TrimStart(s[1..]);
      assert s[1..][..|s| - 1 - |r|] == s[1..|s| - |r|];
      r
    else s
  }

  /** Drops the trailing whitespace. */
  function TrimEnd(s: string): (r: string)
    ensures |r| <= |s| && r == s[..|r|]
    ensures AllWhitespace(s[|r|..])
    ensures r == [] || !IsJsWhitespace(r[|r| - 1])
  {
    if s != [] && IsJsWhitespace(s[|s| - 1]) then
      var r := TrimEnd(s[..|s| - 1]);
      assert s[|r|..] == s[..|s| - 1][|r|..] + [s[|s| - 1]];
      r
    else s
  }

  /** `String.prototype.trim`: `s` without its leading and trailing whitespace. */
  function Trim(s: string): (r: string)
    ensures exists i :: OccursAt(s, r, i) && AllWhitespace(s[..i]) && AllWhitespace(s[i + |r|..])
    ensures r == [] || (!IsJsWhitespace(r[0]) && !IsJsWhitespace(r[|r| - 1]))
  {
    var t := TrimStart(s);
    var r := TrimEnd(t);
    var i := |s| - |t|;
    assert AllWhitespace(s[..i]);
    assert s[i + |r|..] == t[|r|..] && AllWhitespace(t[|r|..]);
    assert s[i..i + |r|] == t[..|r|] == r;
    assert OccursAt(s, r, i);
    r
  }

  /** A string trims to the empty string exactly when it is all whitespace. */
  lemma {:induction false} TrimEmptyIffBlank(s: string)
    ensures Trim(s) == [] <==> AllWhitespace(s)
  {
    var t := TrimStart(s);
    if !AllWhitespace(s) {
      var k :| 0 <= k < |s| && !IsJsWhitespace(s[k]);
      assert k >= |s| - |t| by {
        assert forall j :: 0 <= j < |s| - |t| ==> s[j] == s[..|s| - |t|][j];
      }
      assert t[k - (|s| - |t|)] == s[k];
      var r := TrimEnd(t);
      assert t == t[|r|..] ==> r == [];
    }
  }

  /** `toLowerCase`, on the ASCII letters. */
  function ToLower(s: string): (r: string)
    ensures |r| == |s|
    ensures forall k :: 0 <= k < |s| ==> r[k] == LowerChar(s[k])
  {
    seq(|s|, k requires 0 <= k < |s| => LowerChar(s[k]))
  }

  function LowerChar(c: char): char {
    if 'A' <= c <= 'Z' then (c as int + 32) as char else c
  }

  /** `needle` occurs in `s` at offset `i`. */
  predicate OccursAt(s: string, needle: string, i: int) {
    0 <= i && i + |needle| <= |s| && s[i..i + |needle|] == needle
  }

  /** `String.prototype.includes`: `needle` is a contiguous part of `s` (the empty string always is). */
  function Includes(s: string, needle: string): (b: bool)
    ensures b <==> exists i :: OccursAt(s, needle, i)
  {
    if |s| < |needle| then
      assert forall i :: !OccursAt(s, needle, i);
      false
    else if s[..|needle|] == needle then
      assert OccursAt(s, needle, 0);
      true
    else
      var b := Includes(s[1..], needle);
      assert b ==> exists i :: OccursAt(s, needle, i) by {
        if b {
          var i :| OccursAt(s[1..], needle, i);
          assert s[1..][i..i + |needle|] == s[i + 1..i + 1 + |needle|];
          assert OccursAt(s, needle, i + 1);
        }
      }
      assert (exists i :: OccursAt(s, needle, i)) ==> b by {
        if exists i :: OccursAt(s, needle, i) {
          var i :| OccursAt(s, needle, i);
          assert i != 0;
          assert s[1..][i - 1..i - 1 + |needle|] == s[i..i + |needle|];
          assert OccursAt(s[1..], needle, i - 1);
        }
      }
      b
  }

  /** Glues `parts` back together with `sep` between consecutive parts. */
  function Join(parts: seq<string>, sep: char): string
    requires |parts| >= 1
  {
    if |parts| == 1 then parts[0] else parts[0] + [sep] + Join(parts[1..], sep)
  }

  /** `s.split(sep)` for a one-character separator: the maximal separator-free runs, empty ones included. */
  function Split(s: string, sep: char): (parts: seq<string>)
    ensures |parts| >= 1
    ensures forall k :: 0 <= k < |parts| ==> sep !in parts[k]
    ensures Join(parts, sep) == s
  {
    if s == [] then [""]
    else
      var rest := Split(s[1..], sep);
      if s[0] == sep then
        assert [s[0]] + s[1..] == s;
        [""] + rest
      else
        var parts := [[s[0]] + rest[0]] + rest[1..];
        assert parts[1..] == rest[1..];
        assert s == [s[0]] + s[1..];
        parts
  }
}
