/** String operations the components rely on: ASCII lower-casing
    (`toLowerCase` / `str.lower`), substring search (`includes`, Python `in`,
    `indexOf`) and JavaScript's `String.prototype.trim`. */
module Text {
  import opened Wrappers

  predicate IsUpper(c: char) { 'A' <= c <= 'Z' }

  /** No ASCII upper-case letter occurs in `s`. */
  predicate IsLowerCase(s: string) { forall i :: 0 <= i < |s| ==> !IsUpper(s[i]) }

  /** Lower-cases one ASCII letter; every other character is left alone. */
  function LowerChar(c: char): (r: char)
    ensures !IsUpper(r)
    ensures !IsUpper(c) ==> r == c
    ensures IsUpper(c) ==> 'a' <= r <= 'z' && r as int == c as int + 32
  {
    if IsUpper(c) then (c as int + 32) as char else c
  }

  /** `s.toLowerCase()` restricted to ASCII: same length, position by position. */
  function Lower(s: string): (r: string)
    ensures |r| == |s|
    ensures forall i :: 0 <= i < |s| ==> r[i] == LowerChar(s[i])
    ensures IsLowerCase(r)
  {
    seq(|s|, i requires 0 <= i < |s| => LowerChar(s[i]))
  }

  /** Lower-casing twice is lower-casing once, and lower-case text is a fixed point. */
  lemma LowerOfLowerCase(s: string)
    requires IsLowerCase(s)
    ensures Lower(s) == s
  {
  }

  lemma LowerIdempotent(s: string)
    ensures Lower(Lower(s)) == Lower(s)
  {
    LowerOfLowerCase(Lower(s));
  }

  /** `p` occurs in `s` starting at index `i`. */
  ghost predicate OccursAt(s: string, p: string, i: int)
  {
    0 <= i && i + |p| <= |s| && s[i..i + |p|] == p
  }

  lemma OccursShift(s: string, p: string)
    requires |s| > 0
    ensures forall j {:trigger OccursAt(s[1..], p, j)} :: OccursAt(s[1..], p, j) ==> OccursAt(s, p, j + 1)
    ensures forall j {:trigger OccursAt(s, p, j)} :: 1 <= j && OccursAt(s, p, j) ==> OccursAt(s[1..], p, j - 1)
  {
    forall j | OccursAt(s[1..], p, j) ensures OccursAt(s, p, j + 1) {
      assert s[1..][j..j + |p|] == s[j + 1..j + 1 + |p|];
    }
    forall j | 1 <= j && OccursAt(s, p, j) ensures OccursAt(s[1..], p, j - 1) {
      assert s[1..][j - 1..j - 1 + |p|] == s[j..j + |p|];
    }
  }

  /** The index of the first occurrence of `p` in `s` (`indexOf`, `str.find`), if any. */
  function IndexOf(s: string, p: string): (r: Option<nat>)
    ensures r.Some? ==> OccursAt(s, p, r.value)
    ensures r.Some? ==> forall j :: 0 <= j < r.value ==> !OccursAt(s, p, j)
    ensures r.None? <==> forall j :: !OccursAt(s, p, j)
    decreases |s|
  {
    if |p| <= |s| && s[..|p|] == p then Some(0)
    else if |s| == 0 then None
    else
      OccursShift(s, p);
      match IndexOf(s[1..], p)
      case None => None
      case Some(i) => Some(i + 1)
  }

  /** `s.includes(p)` in JavaScript, `p in s` in Python. */
  predicate Includes(s: string, p: string)
    ensures Includes(s, p) <==> exists i :: OccursAt(s, p, i)
  {
    IndexOf(s, p).Some?
  }

  lemma IncludesSelf(s: string)
    ensures Includes(s, s)
  {
    assert OccursAt(s, s, 0);
  }

  lemma IncludesEmpty(s: string)
    ensures Includes(s, "")
  {
    assert OccursAt(s, "", 0);
  }

  /** A non-empty pattern never occurs in the empty string. */
  lemma NothingInEmpty(p: string)
    requires |p| > 0
    ensures !Includes("", p)
  {
  }

  /** A string with an occurrence of `p` contains every piece of `p`. */
  lemma {:induction false} IncludesTransitive(s: string, p: string, q: string)
    requires Includes(s, p) && Includes(p, q)
    ensures Includes(s, q)
  {
    var i :| OccursAt(s, p, i);
    var k :| OccursAt(p, q, k);
    forall m | 0 <= m < |q|
      ensures s[i + k + m] == q[m]
    {
      assert q[m] == p[k + m] == s[i..i + |p|][k + m];
    }
    assert OccursAt(s, q, i + k);
  }

  /** A lower-case pattern never occurs in text made only of upper-case letters. */
  lemma {:induction false} UpperCaseNeverIncludesLower(s: string, p: string)
    requires forall i :: 0 <= i < |s| ==> IsUpper(s[i])
    requires IsLowerCase(p) && |p| > 0
    ensures !Includes(s, p)
  {
    forall i | 0 <= i && i + |p| <= |s|
      ensures !OccursAt(s, p, i)
    {
      assert s[i..i + |p|][0] == s[i];
    }
  }

  /** JavaScript white space: the WhiteSpace and LineTerminator code points that `trim` removes. */
  predicate IsSpace(c: char)
  {
    c == ' ' || c == '\t' || c == '\n' || c == '\r' || c == '\U{000B}' || c == '\U{000C}'
    || c == '\U{00A0}' || c == '\U{1680}' || ('\U{2000}' <= c <= '\U{200A}')
    || c == '\U{2028}' || c == '\U{2029}' || c == '\U{202F}' || c == '\U{205F}'
    || c == '\U{3000}' || c == '\U{FEFF}'
  }

  /** Every character of `s` is white space (the empty string included). */
  predicate IsBlank(s: string) { forall i :: 0 <= i < |s| ==> IsSpace(s[i]) }

  /** The number of leading white-space characters. */
  function LeadingSpaces(s: string): (n: nat)
    ensures n <= |s|
    ensures forall k :: 0 <= k < n ==> IsSpace(s[k])
    ensures n < |s| ==> !IsSpace(s[n])
    decreases |s|
  {
    if |s| > 0 && IsSpace(s[0]) then
      var n := 1 + LeadingSpaces(s[1..]);
      assert forall k :: 1 <= k < n ==> s[k] == s[1..][k - 1];
      n
    else 0
  }

  /** The length of `s` without its trailing white space. */
  function TextEnd(s: string): (n: nat)
    ensures n <= |s|
    ensures forall k :: n <= k < |s| ==> IsSpace(s[k])
    ensures n > 0 ==> !IsSpace(s[n - 1])
    decreases |s|
  {
    if |s| > 0 && IsSpace(s[|s| - 1]) then
      var n := TextEnd(s[..|s| - 1]);
      assert forall k :: 0 <= k < |s| - 1 ==> s[k] == s[..|s| - 1][k];
      n
    else |s|
  }

  /** The contract of `LeadingSpaces` fixes its value. */
  lemma LeadingSpacesUnique(s: string, m: nat)
    requires m <= |s| && (forall k :: 0 <= k < m ==> IsSpace(s[k])) && (m < |s| ==> !IsSpace(s[m]))
    ensures LeadingSpaces(s) == m
  {
  }

  /** The contract of `TextEnd` fixes its value. */
  lemma TextEndUnique(s: string, m: nat)
    requires m <= |s| && (forall k :: m <= k < |s| ==> IsSpace(s[k])) && (m > 0 ==> !IsSpace(s[m - 1]))
    ensures TextEnd(s) == m
  {
  }

  /** `s.trim()`: drops leading and trailing white space and nothing else. */
  function Trim(s: string): (r: string)
    ensures r == "" <==> IsBlank(s)
    ensures |r| > 0 ==> !IsSpace(r[0]) && !IsSpace(r[|r| - 1])
    ensures |r| <= |s|
  {
    var a := LeadingSpaces(s);
    if a == |s| then "" else s[a..TextEnd(s)]
  }

  /** `t` is `s` behind `d` white-space characters and followed only by white space. */
  ghost predicate PaddedBy(t: string, s: string, d: nat)
  {
    && d + |s| <= |t|
    && (forall k :: 0 <= k < d ==> IsSpace(t[k]))
    && (forall k :: d + |s| <= k < |t| ==> IsSpace(t[k]))
    && (forall k :: 0 <= k < |s| ==> t[d + k] == s[k])
  }

  /** Where a character of `pad + s + pad` comes from. */
  lemma PaddedIndex(pad: string, s: string, k: int)
    requires 0 <= k < 2 * |pad| + |s|
    ensures k < |pad| ==> (pad + s + pad)[k] == pad[k]
    ensures |pad| <= k < |pad| + |s| ==> (pad + s + pad)[k] == s[k - |pad|]
    ensures |pad| + |s| <= k ==> (pad + s + pad)[k] == pad[k - |pad| - |s|]
  {
  }

  /** The same white space on both sides pads a text. */
  lemma PaddedBothSides(pad: string, s: string)
    requires IsBlank(pad)
    ensures PaddedBy(pad + s + pad, s, |pad|)
  {
    var t := pad + s + pad;
    forall k | 0 <= k < |pad| ensures IsSpace(t[k]) {
      PaddedIndex(pad, s, k);
    }
    forall k | |pad| + |s| <= k < |t| ensures IsSpace(t[k]) {
      PaddedIndex(pad, s, k);
    }
    forall k | 0 <= k < |s| ensures t[|pad| + k] == s[k] {
      PaddedIndex(pad, s, |pad| + k);
    }
  }

  /** A padded text is blank exactly when the text inside is. */
  lemma PaddedBlank(t: string, s: string, d: nat)
    requires PaddedBy(t, s, d)
    ensures IsBlank(t) <==> IsBlank(s)
  {
    if IsBlank(s) {
      forall k | d <= k < d + |s| ensures IsSpace(t[k]) {
        assert t[d + (k - d)] == s[k - d];
      }
    } else {
      var w :| 0 <= w < |s| && !IsSpace(s[w]);
      assert t[d + w] == s[w];
    }
  }

  /** Padding in front moves the first non-space character by its length. */
  lemma PaddedLeadingSpaces(t: string, s: string, d: nat)
    requires PaddedBy(t, s, d) && !IsBlank(s)
    ensures LeadingSpaces(t) == d + LeadingSpaces(s)
  {
    var a := LeadingSpaces(s);
    var w :| 0 <= w < |s| && !IsSpace(s[w]);
    assert a <= w;
    forall k | d <= k < d + a ensures IsSpace(t[k]) {
      assert t[d + (k - d)] == s[k - d];
    }
    assert t[d + a] == s[a];
    LeadingSpacesUnique(t, d + a);
  }

  /** Padding in front moves the end of the text by its length, and white space behind is dropped. */
  lemma PaddedTextEnd(t: string, s: string, d: nat)
    requires PaddedBy(t, s, d) && !IsBlank(s)
    ensures TextEnd(t) == d + TextEnd(s)
  {
    var e := TextEnd(s);
    var w :| 0 <= w < |s| && !IsSpace(s[w]);
    assert w < e;
    forall k | d + e <= k < d + |s| ensures IsSpace(t[k]) {
      assert t[d + (k - d)] == s[k - d];
    }
    assert t[d + (e - 1)] == s[e - 1];
    TextEndUnique(t, d + e);
  }

  /** A piece of the text inside is the piece of the padded text shifted by the padding. */
  lemma PaddedSlice(t: string, s: string, d: nat, a: nat, b: nat)
    requires PaddedBy(t, s, d) && a <= b <= |s|
    ensures t[d + a..d + b] == s[a..b]
  {
    forall k | 0 <= k < b - a ensures t[d + a..d + b][k] == s[a..b][k] {
      assert t[d + (a + k)] == s[a + k];
    }
  }

  /** A text that is not blank trims to the part between its leading and trailing white space. */
  lemma TrimIsSlice(t: string, a: nat, b: nat)
    requires !IsBlank(t) && a == LeadingSpaces(t) && b == TextEnd(t)
    ensures a <= b <= |t| && Trim(t) == t[a..b]
  {
  }

  /** What trimming keeps: a slice of the input with nothing but white space before and after it. */
  lemma TrimKeepsInnerText(s: string)
    ensures exists a, b :: 0 <= a <= b <= |s| && Trim(s) == s[a..b] && IsBlank(s[..a]) && IsBlank(s[b..])
  {
    var a := LeadingSpaces(s);
    var b := if a == |s| then a else TextEnd(s);
    if a < |s| {
      TrimIsSlice(s, a, b);
    }
    assert forall k :: 0 <= k < a ==> s[..a][k] == s[k];
    assert forall k :: 0 <= k < |s| - b ==> s[b..][k] == s[b + k];
    assert Trim(s) == s[a..b];
  }

  /** The trim bounds of a padded text that is not blank are those of the text inside, shifted by the padding. */
  lemma PaddedBounds(t: string, s: string, d: nat)
    requires PaddedBy(t, s, d) && !IsBlank(s)
    ensures !IsBlank(t)
    ensures LeadingSpaces(s) <= TextEnd(s)
    ensures LeadingSpaces(t) == d + LeadingSpaces(s) && TextEnd(t) == d + TextEnd(s)
    ensures t[d + LeadingSpaces(s)..d + TextEnd(s)] == s[LeadingSpaces(s)..TextEnd(s)]
  {
    var w :| 0 <= w < |s| && !IsSpace(s[w]);
    assert LeadingSpaces(s) <= w < TextEnd(s);
    PaddedBlank(t, s, d);
    PaddedLeadingSpaces(t, s, d);
    PaddedTextEnd(t, s, d);
    PaddedSlice(t, s, d, LeadingSpaces(s), TextEnd(s));
  }

  /** Two texts whose trim bounds differ by `d` and enclose the same text trim alike. */
  lemma TrimShift(t: string, s: string, d: nat, a: nat, b: nat)
    requires !IsBlank(t) && !IsBlank(s)
    requires a == LeadingSpaces(s) && b == TextEnd(s) && d + a == LeadingSpaces(t) && d + b == TextEnd(t)
    requires a <= b && d + b <= |t| && t[d + a..d + b] == s[a..b]
    ensures Trim(t) == Trim(s)
  {
    calc {
      Trim(t);
    == { TrimIsSlice(t, d + a, d + b); }
      t[d + a..d + b];
    ==
      s[a..b];
    == { TrimIsSlice(s, a, b); }
      Trim(s);
    }
  }

  /** A padded text that is not blank trims like the text inside. */
  lemma TrimPaddedText(t: string, s: string, d: nat)
    requires PaddedBy(t, s, d) && !IsBlank(s)
    ensures Trim(t) == Trim(s)
  {
    PaddedBounds(t, s, d);
    TrimShift(t, s, d, LeadingSpaces(s), TextEnd(s));
  }

  /** Padding does not change the trimmed text. */
  lemma TrimOfPadded(t: string, s: string, d: nat)
    requires PaddedBy(t, s, d)
    ensures Trim(t) == Trim(s)
  {
    PaddedBlank(t, s, d);
    if !IsBlank(s) {
      TrimPaddedText(t, s, d);
    }
  }

  /** Padding a text with white space on both sides does not change its trimmed form. */
  lemma TrimPadded(pad: string, s: string)
    requires IsBlank(pad)
    ensures Trim(pad + s + pad) == Trim(s)
  {
    PaddedBothSides(pad, s);
    TrimOfPadded(pad + s + pad, s, |pad|);
  }
}
