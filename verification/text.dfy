/** String operations of the JavaScript runtime that the application relies on:
    `trim`, `toLowerCase`, `includes`/unanchored regex tests, `indexOf`,
    `lastIndexOf`, `replace` with a string pattern, `split` on one character,
    and number-to-decimal conversion for integers. */
module Text {
  import opened Wrappers

  /** WhiteSpace and LineTerminator code points, the set `String.prototype.trim` strips. */
  predicate IsJsSpace(c: char)
  {
    || c == ' ' || c == '\t' || c == '\n' || c == '\r' || c == '\U{000B}' || c == '\U{000C}'
    || c == '\U{00A0}' || c == '\U{1680}' || ('\U{2000}' <= c <= '\U{200A}')
    || c == '\U{2028}' || c == '\U{2029}' || c == '\U{202F}' || c == '\U{205F}'
    || c == '\U{3000}' || c == '\U{FEFF}'
  }

  /** Index of the first non-space character at or after `i`, or `|s|`. */
  function SpaceRunEnd(s: string, i: nat): (a: nat)
    requires i <= |s|
    decreases |s| - i
    ensures i <= a <= |s|
    ensures forall k :: i <= k < a ==> IsJsSpace(s[k])
    ensures a == |s| || !IsJsSpace(s[a])
  {
    if i == |s| || !IsJsSpace(s[i]) then i else SpaceRunEnd(s, i + 1)
  }

  /** Index just after the last non-space character before `j` and not before `lo`, or `lo`. */
  function SpaceRunStart(s: string, lo: nat, j: nat): (b: nat)
    requires lo <= j <= |s|
    decreases j - lo
    ensures lo <= b <= j
    ensures forall k :: b <= k < j ==> IsJsSpace(s[k])
    ensures b == lo || !IsJsSpace(s[b - 1])
  {
    if j == lo || !IsJsSpace(s[j - 1]) then j else SpaceRunStart(s, lo, j - 1)
  }

  /** `s.trim()`: the middle part of `s` between its leading and trailing white
      space. The result is a slice of `s` with only white space outside it and
      none at its ends, which determines it uniquely. */
  function Trim(s: string): (r: string)
    ensures var a := SpaceRunEnd(s, 0);
              && a + |r| <= |s| && r == s[a..a + |r|]
              && (forall i :: 0 <= i < a ==> IsJsSpace(s[i]))
              && (forall i :: a + |r| <= i < |s| ==> IsJsSpace(s[i]))
    ensures r == [] || (!IsJsSpace(r[0]) && !IsJsSpace(r[|r| - 1]))
    ensures r == [] <==> forall i :: 0 <= i < |s| ==> IsJsSpace(s[i])
  {
    var a := SpaceRunEnd(s, 0);
    s[a..SpaceRunStart(s, a, |s|)]
  }

  /** A string with no white space at either end is its own trim. */
  lemma TrimOfTrimmed(s: string)
    requires s == [] || (!IsJsSpace(s[0]) && !IsJsSpace(s[|s| - 1]))
    ensures Trim(s) == s
  {
  }

  /** Trimming twice is trimming once. */
  lemma TrimIdempotent(s: string)
    ensures Trim(Trim(s)) == Trim(s)
  {
    TrimOfTrimmed(Trim(s));
  }

  /** `toLowerCase` restricted to the ASCII letters. */
  function LowerChar(c: char): char
  {
    if 'A' <= c <= 'Z' then (c as int + 32) as char else c
  }

  predicate IsUpperAscii(c: char)
  {
    'A' <= c <= 'Z'
  }

  function Lower(s: string): (r: string)
    ensures |r| == |s|
    ensures forall i :: 0 <= i < |s| ==> r[i] == LowerChar(s[i])
    ensures forall i :: 0 <= i < |r| ==> !IsUpperAscii(r[i])
  {
    if s == [] then [] else [LowerChar(s[0])] + Lower(s[1..])
  }

  /** Lower-casing a lower-case string changes nothing. */
  lemma LowerIdempotent(s: string)
    ensures Lower(Lower(s)) == Lower(s)
  {
  }

  predicate StartsWith(s: string, p: string)
  {
    |p| <= |s| && s[..|p|] == p
  }

  /** `p` occurs in `s` starting at index `i`. */
  predicate OccursAt(s: string, p: string, i: int)
  {
    0 <= i && i + |p| <= |s| && s[i..i + |p|] == p
  }

  /** `s.indexOf(p, from)`: the first occurrence of `p` at or after `from`. */
  function IndexOfFrom(s: string, p: string, from: nat): (r: Option<nat>)
    decreases |s| - from
    ensures r.Some? ==> from <= r.value && OccursAt(s, p, r.value)
                        && forall j :: from <= j < r.value ==> !OccursAt(s, p, j)
    ensures r.None? ==> forall j :: from <= j ==> !OccursAt(s, p, j)
  {
    if from + |p| > |s| then None
    else if s[from..from + |p|] == p then Some(from)
    else IndexOfFrom(s, p, from + 1)
  }

  function IndexOf(s: string, p: string): Option<nat>
  {
    IndexOfFrom(s, p, 0)
  }

  /** `s.includes(p)`, and equally the regular-expression test `/p/.test(s)` for a
      pattern of literal characters: an occurrence anywhere, not anchored. */
  predicate Contains(s: string, p: string)
    ensures Contains(s, p) <==> exists i :: OccursAt(s, p, i)
  {
    IndexOf(s, p).Some?
  }

  /** `s.replace(p, q)` with a string pattern: only the FIRST occurrence of `p`,
      wherever it is, is replaced; without an occurrence `s` is returned. */
  function ReplaceFirst(s: string, p: string, q: string): (r: string)
    ensures !Contains(s, p) ==> r == s
    ensures forall i :: OccursAt(s, p, i) && (forall j :: 0 <= j < i ==> !OccursAt(s, p, j))
                        ==> r == s[..i] + q + s[i + |p|..]
  {
    match IndexOf(s, p)
    case None => s
    case Some(i) => s[..i] + q + s[i + |p|..]
  }

  /** `s.indexOf(c)` for one character. */
  function FirstIndexOf(s: string, c: char): (r: Option<nat>)
    ensures r.Some? ==> r.value < |s| && s[r.value] == c && c !in s[..r.value]
    ensures r.None? ==> c !in s
  {
    if s == [] then None
    else if s[0] == c then Some(0)
    else
      match FirstIndexOf(s[1..], c)
      case None => None
      case Some(i) =>
        assert s[..i + 1] == [s[0]] + s[1..][..i];
        Some(i + 1)
  }

  /** `s.lastIndexOf(c)` for one character. */
  function LastIndexOf(s: string, c: char): (r: Option<nat>)
    ensures r.Some? ==> r.value < |s| && s[r.value] == c && c !in s[r.value + 1..]
    ensures r.None? ==> c !in s
  {
    if s == [] then None
    else if s[|s| - 1] == c then Some(|s| - 1)
    else
      match LastIndexOf(s[..|s| - 1], c)
      case None => None
      case Some(i) =>
        assert s[i + 1..] == s[..|s| - 1][i + 1..] + [s[|s| - 1]];
        Some(i)
  }

  /** Any occurrence of `c` is at or after the first one. */
  lemma {:induction false} FirstIndexOfBound(s: string, c: char, i: nat)
    requires i < |s| && s[i] == c
    ensures FirstIndexOf(s, c).Some? && FirstIndexOf(s, c).value <= i
  {
    if s[0] != c {
      FirstIndexOfBound(s[1..], c, i - 1);
    }
  }

  /** Any occurrence of `c` is at or before the last one. */
  lemma {:induction false} LastIndexOfBound(s: string, c: char, i: nat)
    requires i < |s| && s[i] == c
    ensures LastIndexOf(s, c).Some? && LastIndexOf(s, c).value >= i
  {
    if s[|s| - 1] != c {
      LastIndexOfBound(s[..|s| - 1], c, i);
    }
  }

  /** `fs.join(c)`. */
  function Join(fs: seq<string>, c: char): string
  {
    if fs == [] then []
    else if |fs| == 1 then fs[0]
    else fs[0] + [c] + Join(fs[1..], c)
  }

  /** `s.split(c)`: the pieces between the occurrences of `c`; joining them back
      with `c` gives `s` again. */
  function Fields(s: string, c: char): (r: seq<string>)
    decreases |s|
    ensures |r| >= 1
    ensures forall k :: 0 <= k < |r| ==> c !in r[k]
    ensures Join(r, c) == s
  {
    match FirstIndexOf(s, c)
    case None => [s]
    case Some(i) =>
      var rest := Fields(s[i + 1..], c);
      assert s == s[..i] + [c] + s[i + 1..];
      [s[..i]] + rest
  }

  /** Splitting a join gives back the pieces, provided none contains the separator. */
  lemma {:induction false} FieldsOfJoin(fs: seq<string>, c: char)
    requires |fs| >= 1
    requires forall k :: 0 <= k < |fs| ==> c !in fs[k]
    ensures Fields(Join(fs, c), c) == fs
  {
    if |fs| > 1 {
      var s := Join(fs, c);
      assert s == fs[0] + [c] + Join(fs[1..], c);
      assert s[..|fs[0]|] == fs[0];
      assert FirstIndexOf(s, c) == Some(|fs[0]|) by {
        assert s[|fs[0]|] == c;
        assert c !in s[..|fs[0]|];
      }
      assert s[|fs[0]| + 1..] == Join(fs[1..], c);
      FieldsOfJoin(fs[1..], c);
    }
  }

  /** The lines of `ls`, each followed by the terminator `c`. */
  function Terminated(ls: seq<string>, c: char): string
  {
    if ls == [] then [] else ls[0] + [c] + Terminated(ls[1..], c)
  }

  /** Terminating every line is joining the lines and one empty tail. */
  lemma {:induction false} TerminatedIsJoin(ls: seq<string>, c: char)
    ensures Terminated(ls, c) == Join(ls + [[]], c)
  {
    if ls != [] {
      TerminatedIsJoin(ls[1..], c);
      assert (ls + [[]])[1..] == ls[1..] + [[]];
    }
  }

  /** Splitting terminated lines gives the lines and one empty tail. */
  lemma FieldsOfTerminated(ls: seq<string>, c: char)
    requires forall k :: 0 <= k < |ls| ==> c !in ls[k]
    ensures Fields(Terminated(ls, c), c) == ls + [[]]
  {
    TerminatedIsJoin(ls, c);
    FieldsOfJoin(ls + [[]], c);
  }

  predicate IsDigit(c: char)
  {
    '0' <= c <= '9'
  }

  function DigitChar(d: nat): (c: char)
    requires d < 10
    ensures IsDigit(c) && c as int - '0' as int == d
  {
    (d + '0' as int) as char
  }

  /** Decimal digits of `n`, without leading zeros: what JavaScript prints for a
      non-negative integral number below 10^21. */
  function NatToString(n: nat): (r: string)
    decreases n
    ensures |r| >= 1
    ensures forall i :: 0 <= i < |r| ==> IsDigit(r[i])
    ensures |r| > 1 ==> r[0] != '0'
  {
    if n < 10 then [DigitChar(n)] else NatToString(n / 10) + [DigitChar(n % 10)]
  }

  /** The value of a string of decimal digits. */
  function DigitsValue(s: string): nat
    requires forall i :: 0 <= i < |s| ==> IsDigit(s[i])
  {
    if s == [] then 0
    else
      assert IsDigit(s[|s| - 1]);
      DigitsValue(s[..|s| - 1]) * 10 + (s[|s| - 1] as int - '0' as int)
  }

  /** Reading back the printed digits gives the number. */
  lemma {:induction false} NatToStringRoundTrip(n: nat)
    ensures DigitsValue(NatToString(n)) == n
  {
    if n >= 10 {
      var s := NatToString(n);
      assert s[..|s| - 1] == NatToString(n / 10);
      NatToStringRoundTrip(n / 10);
    }
  }

  /** Different numbers print differently. */
  lemma NatToStringInjective(a: nat, b: nat)
    requires NatToString(a) == NatToString(b)
    ensures a == b
  {
    NatToStringRoundTrip(a);
    NatToStringRoundTrip(b);
  }

  /** Template-literal rendering `${n}` of an integral number. */
  function IntToString(n: int): (r: string)
    ensures |r| >= 1
    ensures n < 0 <==> r[0] == '-'
    ensures n >= 0 ==> IsDigit(r[0])
    ensures forall i :: 1 <= i < |r| ==> IsDigit(r[i])
  {
    if n < 0 then "-" + NatToString(-n) else NatToString(n)
  }
}
