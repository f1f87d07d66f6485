/** The string operations the services lean on, over sequences of characters. */
module Text {
  /** The characters `str.strip()` removes. */
  predicate IsSpace(c: char) {
    var n := c as int;
    || 0x09 <= n <= 0x0d || 0x1c <= n <= 0x20 || n == 0x85 || n == 0xa0 || n == 0x1680
    || 0x2000 <= n <= 0x200a || n == 0x2028 || n == 0x2029 || n == 0x202f || n == 0x205f
    || n == 0x3000
  }

  /** How many leading characters `lstrip()` drops. */
  function LeadingSpaces(s: string): (n: nat)
    ensures n <= |s|
    ensures n < |s| ==> !IsSpace(s[n])
    ensures forall k :: 0 <= k < n ==> IsSpace(s[k])
  {
    if s != "" && IsSpace(s[0]) then 1 + LeadingSpaces(s[1..]) else 0
  }

  /** The length `rstrip()` leaves. */
  function LengthBeforeSpaces(s: string): (n: nat)
    ensures n <= |s|
    ensures n > 0 ==> !IsSpace(s[n - 1])
    ensures forall k :: n <= k < |s| ==> IsSpace(s[k])
  {
    if s != "" && IsSpace(s[|s| - 1]) then LengthBeforeSpaces(s[..|s| - 1]) else |s|
  }

  /** `str.strip()`. */
  function Strip(s: string): (r: string)
    ensures |r| <= |s|
  {
    var left := s[LeadingSpaces(s)..];
    left[..LengthBeforeSpaces(left)]
  }

  /** Text that neither begins nor ends with a space is left as it is. */
  lemma {:induction false} StripsToItself(s: string)
    requires s != "" ==> !IsSpace(s[0]) && !IsSpace(s[|s| - 1])
    ensures Strip(s) == s
  {
    assert s[0..] == s && s[..|s|] == s;
  }

  /** The length `rstrip(c)` leaves. */
  function LengthBefore(s: string, c: char): (n: nat)
    ensures n <= |s|
    ensures n > 0 ==> s[n - 1] != c
    ensures forall k :: n <= k < |s| ==> s[k] == c
  {
    if s != "" && s[|s| - 1] == c then LengthBefore(s[..|s| - 1], c) else |s|
  }

  /** `str.rstrip(c)` for one character. */
  function RStripChar(s: string, c: char): string {
    s[..LengthBefore(s, c)]
  }

  function LowerChar(c: char): char {
    if 'A' <= c <= 'Z' then ((c as int) + 32) as char else c
  }

  function UpperChar(c: char): char {
    if 'a' <= c <= 'z' then ((c as int) - 32) as char else c
  }

  /** `str.lower()` on ASCII letters. */
  function Lower(s: string): (r: string)
    ensures |r| == |s|
  {
    seq(|s|, i requires 0 <= i < |s| => LowerChar(s[i]))
  }

  /** `str.upper()` on ASCII letters. */
  function Upper(s: string): (r: string)
    ensures |r| == |s|
  {
    seq(|s|, i requires 0 <= i < |s| => UpperChar(s[i]))
  }

  const SMALL := "abcdefghijklmnopqrstuvwxyz"
  const CAPITAL := "ABCDEFGHIJKLMNOPQRSTUVWXYZ"

  /** Upper and lower case turn the letters of the alphabet into each other and leave everything else. */
  lemma {:induction false} CasesFold(s: string, k: nat)
    requires k < |s|
    ensures forall i :: 0 <= i < 26 ==> (s[k] == SMALL[i] ==> Upper(s)[k] == CAPITAL[i])
                                        && (s[k] == CAPITAL[i] ==> Lower(s)[k] == SMALL[i])
    ensures s[k] !in SMALL ==> Upper(s)[k] == s[k]
    ensures s[k] !in CAPITAL ==> Lower(s)[k] == s[k]
  {
    assert forall i :: 0 <= i < 26 ==> SMALL[i] as int == 97 + i && CAPITAL[i] as int == 65 + i;
    var n := s[k] as int;
    if 97 <= n <= 122 {
      assert SMALL[n - 97] == s[k];
    } else if 65 <= n <= 90 {
      assert CAPITAL[n - 65] == s[k];
    }
  }

  /** `part` occurs in `whole` starting at `at`. */
  predicate OccursAt(part: string, whole: string, at: nat) {
    at + |part| <= |whole| && whole[at..at + |part|] == part
  }

  ghost predicate Occurs(part: string, whole: string) {
    exists at: nat :: OccursAt(part, whole, at)
  }

  /** `rstrip` of `kept` followed by a run of `c` is `kept`. */
  lemma {:induction false} RStripIs(kept: string, run: string, c: char)
    requires forall k :: 0 <= k < |run| ==> run[k] == c
    requires kept != "" ==> kept[|kept| - 1] != c
    ensures RStripChar(kept + run, c) == kept
  {
    var s := kept + run;
    var n := LengthBefore(s, c);
    assert forall k :: |kept| <= k < |s| ==> s[k] == c;
    assert kept != "" ==> s[|kept| - 1] == kept[|kept| - 1];
    assert n == |kept|;
  }

  /** Only blanks. */
  predicate Blank(s: string) {
    forall k :: 0 <= k < |s| ==> IsSpace(s[k])
  }

  lemma {:induction false} StripEnds(s: string)
    ensures Strip(s) != "" ==> !IsSpace(Strip(s)[0]) && !IsSpace(Strip(s)[|Strip(s)| - 1])
    ensures Strip(s) == "" <==> Blank(s)
  {
    var lead := LeadingSpaces(s);
    var left := s[lead..];
    if left != "" {
      assert left[0] == s[lead];
    }
  }

  /** A stretch of `s` that starts and ends on non-space characters survives `Strip`. */
  lemma {:induction false} StripKeeps(s: string, from: nat, upto: nat)
    requires from < upto <= |s|
    requires !IsSpace(s[from]) && !IsSpace(s[upto - 1])
    ensures Occurs(s[from..upto], Strip(s))
  {
    hide IsSpace, LeadingSpaces, LengthBeforeSpaces;
    var cut := LeadingSpaces(s);
    var left := s[cut..];
    assert cut <= from;
    assert left[upto - 1 - cut] == s[upto - 1];
    var kept := left[..LengthBeforeSpaces(left)];
    assert upto - cut <= |kept|;
    SliceOfSlice(s, cut, |kept|, from, upto);
    assert OccursAt(s[from..upto], kept, from - cut);
  }

  /** `Strip` cuts the text out of the middle. */
  lemma {:induction false} StripOccurs(s: string)
    ensures Occurs(Strip(s), s)
  {
    hide IsSpace, LeadingSpaces, LengthBeforeSpaces;
    var cut := LeadingSpaces(s);
    assert OccursAt(Strip(s), s, cut);
  }

  lemma {:induction false} SliceOccurs(s: string, from: nat, upto: nat)
    requires from <= upto <= |s|
    ensures Occurs(s[from..upto], s)
  {
    assert OccursAt(s[from..upto], s, from);
  }

  lemma {:induction false} OccursThrough(part: string, middle: string, whole: string)
    requires Occurs(part, middle) && Occurs(middle, whole)
    ensures Occurs(part, whole)
  {
    var at: nat :| OccursAt(part, middle, at);
    var from: nat :| OccursAt(middle, whole, from);
    SliceOfMiddle(whole, from, |middle|, at, |part|);
    assert OccursAt(part, whole, from + at);
  }

  lemma {:induction false} SliceOfMiddle(s: string, from: nat, length: nat, at: nat, part: nat)
    requires from + length <= |s| && at + part <= length
    ensures s[from..from + length][at..at + part] == s[from + at..from + at + part]
  {
    var cut := s[from..from + length][at..at + part];
    assert forall k :: 0 <= k < part ==> cut[k] == s[from + at + k];
  }

  lemma {:induction false} SliceOfSlice(s: string, cut: nat, kept: nat, from: nat, upto: nat)
    requires cut <= from <= upto <= cut + kept <= |s|
    ensures s[cut..][..kept][from - cut..upto - cut] == s[from..upto]
  {
  }

  predicate ColonFree(s: string) {
    forall k :: 0 <= k < |s| ==> s[k] != ':'
  }

  lemma {:induction false} ColonMarks(a: string, x: string)
    requires ColonFree(a)
    ensures (a + ":" + x)[|a|] == ':' && (x + ":" + a)[|x|] == ':'
    ensures forall k :: 0 <= k < |a| ==> (a + ":" + x)[k] != ':'
    ensures forall k :: |x| < k < |x| + 1 + |a| ==> (x + ":" + a)[k] != ':'
  {
  }

  /** Equal texts have the same part before their first colon, and the same rest. */
  lemma {:induction false} SplitAtFirstColon(a: string, x: string, b: string, y: string)
    requires ColonFree(a) && ColonFree(b) && a + ":" + x == b + ":" + y
    ensures a == b && x == y
  {
    var s, t := a + ":" + x, b + ":" + y;
    ColonMarks(a, x);
    ColonMarks(b, y);
    assert |a| == |b|;
    assert a == s[..|a|] && b == t[..|b|] && x == s[|a| + 1..] && y == t[|b| + 1..];
  }

  /** Equal texts have the same part after their last colon, and the same start. */
  lemma {:induction false} SplitAtLastColon(x: string, a: string, y: string, b: string)
    requires ColonFree(a) && ColonFree(b) && x + ":" + a == y + ":" + b
    ensures x == y && a == b
  {
    var s, t := x + ":" + a, y + ":" + b;
    ColonMarks(a, x);
    ColonMarks(b, y);
    assert |x| == |y|;
    assert x == s[..|x|] && y == t[..|y|] && a == s[|x| + 1..] && b == t[|y| + 1..];
  }
}
