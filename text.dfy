/** The string operations the product handlers rely on: `toLowerCase`,
    `trim` and `includes`, restricted to ASCII. */
module Text {

  /** An ASCII upper-case letter is mapped to its lower-case letter; every other
      character is left as it is. */
  function LowerChar(c: char): char
  {
    if IsUpper(c) then (c as int + 32) as char else c
  }

  predicate IsUpper(c: char)
  {
    'A' <= c <= 'Z'
  }

  /** `s.toLowerCase()` over ASCII. */
  function Lower(s: string): (r: string)
    ensures |r| == |s|
    ensures forall i :: 0 <= i < |s| ==> r[i] == LowerChar(s[i])
    ensures forall i :: 0 <= i < |r| ==> !IsUpper(r[i])
  {
    if s == [] then [] else [LowerChar(s[0])] + Lower(s[1..])
  }

  /** Lower-casing twice changes nothing more than lower-casing once. */
  lemma {:induction false} LowerIdempotent(s: string)
    ensures Lower(Lower(s)) == Lower(s)
  {
    assert forall i :: 0 <= i < |s| ==> LowerChar(LowerChar(s[i])) == LowerChar(s[i]);
  }

  /** Comparison of two strings after lower-casing both. */
  predicate EqualsIgnoreCase(a: string, b: string)
  {
    Lower(a) == Lower(b)
  }

  /** The whitespace `trim` removes, restricted to ASCII: space, tab, line
      feed, vertical tab, form feed and carriage return. */
  predicate IsSpace(c: char)
  {
    c == ' ' || '\t' <= c <= '\r'
  }

  /** Every character of `s` is whitespace (the empty string included). */
  predicate Blank(s: string)
  {
    forall i :: 0 <= i < |s| ==> IsSpace(s[i])
  }

  /** `trimStart`: drops the leading whitespace. */
  function TrimStart(s: string): (r: string)
    ensures |r| <= |s|
  {
    if s != [] && IsSpace(s[0]) then TrimStart(s[1..]) else s
  }

  /** `trimEnd`: drops the trailing whitespace. */
  function TrimEnd(s: string): (r: string)
    ensures |r| <= |s|
  {
    if s != [] && IsSpace(s[|s| - 1]) then TrimEnd(s[..|s| - 1]) else s
  }

  /** What `TrimStart` removes is whitespace and what it keeps is the rest of
      the string, which does not start with whitespace. */
  lemma {:induction false} TrimStartSpec(s: string)
    ensures var r := TrimStart(s);
      && r == s[|s| - |r|..]
      && Blank(s[..|s| - |r|])
      && (r == [] || !IsSpace(r[0]))
  {
    if s != [] && IsSpace(s[0]) {
      TrimStartSpec(s[1..]);
      var r := TrimStart(s);
      assert s[1..][|s| - 1 - |r|..] == s[|s| - |r|..];
      assert s[..|s| - |r|] == [s[0]] + s[1..][..|s| - 1 - |r|];
    }
  }

  /** What `TrimEnd` removes is whitespace and what it keeps is the start of
      the string, which does not end with whitespace. */
  lemma {:induction false} TrimEndSpec(s: string)
    ensures var r := TrimEnd(s);
      && r == s[..|r|]
      && Blank(s[|r|..])
      && (r == [] || !IsSpace(r[|r| - 1]))
  {
    if s != [] && IsSpace(s[|s| - 1]) {
      TrimEndSpec(s[..|s| - 1]);
      var r := TrimEnd(s);
      assert s[..|s| - 1][..|r|] == s[..|r|];
      assert s[|r|..] == s[..|s| - 1][|r|..] + [s[|s| - 1]];
    }
  }

  /** `s.trim()` over ASCII whitespace: the part of `s` left between the
      leading and the trailing whitespace, which neither starts nor ends
      with whitespace. */
  function Trim(s: string): (r: string)
    ensures exists i, j | 0 <= i <= j <= |s| ::
              r == s[i..j] && Blank(s[..i]) && Blank(s[j..])
    ensures r == [] || (!IsSpace(r[0]) && !IsSpace(r[|r| - 1]))
  {
    var t := TrimStart(s);
    var r := TrimEnd(t);
    TrimStartSpec(s);
    TrimEndSpec(t);
    var i := |s| - |t|;
    assert s[i..i + |r|] == r;
    assert s[i + |r|..] == t[|r|..];
    r
  }

  /** Trimming leaves nothing exactly when the string is all whitespace. */
  lemma {:induction false} TrimEmptyIffBlank(s: string)
    ensures Trim(s) == [] <==> Blank(s)
  {
    var t := TrimStart(s);
    TrimStartSpec(s);
    TrimEndSpec(t);
    if Trim(s) == [] {
      assert Blank(t[0..]);
    }
  }

  /** A string with a character that is not whitespace trims to a
      non-empty string. */
  lemma {:induction false} TrimNonEmpty(s: string, i: nat)
    requires i < |s| && !IsSpace(s[i])
    ensures Trim(s) != []
  {
    TrimEmptyIffBlank(s);
  }

  /** `part` occurs in `text` starting at index `i`. */
  predicate OccursAt(text: string, part: string, i: nat)
  {
    i + |part| <= |text| && text[i..i + |part|] == part
  }

  /** `text.includes(part)`: some position of `text` starts an occurrence of
      `part`. */
  function Includes(text: string, part: string): (r: bool)
    ensures r <==> exists i: nat :: OccursAt(text, part, i)
    decreases |text|
  {
    if |part| > |text| then false
    else if text[..|part|] == part then (assert OccursAt(text, part, 0); true)
    else
      var rest := Includes(text[1..], part);
      assert forall i: nat :: OccursAt(text[1..], part, i) <==> OccursAt(text, part, i + 1) by {
        forall i: nat ensures OccursAt(text[1..], part, i) <==> OccursAt(text, part, i + 1) {
          if i + 1 + |part| <= |text| {
            assert text[1..][i..i + |part|] == text[i + 1..i + 1 + |part|];
          }
        }
      }
      assert !OccursAt(text, part, 0);
      assert (exists i: nat :: OccursAt(text, part, i)) ==> exists i: nat :: OccursAt(text[1..], part, i) by {
        if exists i: nat :: OccursAt(text, part, i) {
          var i: nat :| OccursAt(text, part, i);
          assert i > 0;
          assert OccursAt(text[1..], part, i - 1);
        }
      }
      rest
  }

  /** The empty string occurs in every string. */
  lemma {:induction false} IncludesEmpty(text: string)
    ensures Includes(text, [])
  {
    assert OccursAt(text, [], 0);
  }
}
