/**
 * String helpers shared by the model: the JavaScript string operations the
 * mini-program uses (replace, join, split, padStart, toLowerCase, trim,
 * includes, parseInt, number-to-string conversion), written over `seq<char>`.
 */
module Text {
  import opened Wrappers

  /** `p` occurs at the start of `s`. */
  predicate StartsWith(s: string, p: string) {
    |p| <= |s| && s[..|p|] == p
  }

  /** `p` occurs at position `i` of `s`. */
  predicate OccursAt(s: string, p: string, i: int) {
    0 <= i && i + |p| <= |s| && s[i..i + |p|] == p
  }

  /** JavaScript `s.includes(p)`. */
  predicate Contains(s: string, p: string) {
    exists i :: 0 <= i <= |s| - |p| && OccursAt(s, p, i)
  }

  /** Shifting the start of a string moves every occurrence one place to the left. */
  lemma OccursAtTail(s: string, p: string, j: int)
    requires |s| > 0 && 0 <= j
    ensures OccursAt(s, p, j + 1) == OccursAt(s[1..], p, j)
  {
    if j + 1 + |p| <= |s| {
      assert s[j + 1..j + 1 + |p|] == s[1..][j..j + |p|];
    }
  }

  /** JavaScript `s.indexOf(p)`, as an option: the leftmost occurrence. */
  function FirstIndex(s: string, p: string): (r: Option<nat>)
    ensures r.Some? ==> OccursAt(s, p, r.value)
    ensures r.Some? ==> forall j :: 0 <= j < r.value ==> !OccursAt(s, p, j)
    ensures r.None? ==> !Contains(s, p)
    decreases |s|
  {
    if StartsWith(s, p) then Some(0)
    else if |s| <= |p| then
      assert !OccursAt(s, p, 0);
      None
    else
      match FirstIndex(s[1..], p)
      case None =>
        forall i | 0 <= i <= |s| - |p| ensures !OccursAt(s, p, i) {
          if i > 0 { OccursAtTail(s, p, i - 1); }
        }
        None
      case Some(i) =>
        assert !OccursAt(s, p, 0);
        assert forall j :: 0 <= j ==> OccursAt(s, p, j + 1) == OccursAt(s[1..], p, j) by {
          forall j | 0 <= j { OccursAtTail(s, p, j); }
        }
        assert forall j :: 0 <= j < i + 1 ==> !OccursAt(s, p, j) by {
          forall j | 0 <= j < i + 1 ensures !OccursAt(s, p, j) {
            if j > 0 { assert !OccursAt(s[1..], p, j - 1); }
          }
        }
        Some(i + 1)
  }

  /** JavaScript `s.replace(p, rep)` with a string pattern: only the first occurrence is replaced. */
  function ReplaceFirst(s: string, p: string, rep: string): (r: string)
    decreases |s|
  {
    if StartsWith(s, p) then rep + s[|p|..]
    else if s == [] then s
    else [s[0]] + ReplaceFirst(s[1..], p, rep)
  }

  /** `replace` rewrites exactly the occurrence `indexOf` finds, and nothing when there is none. */
  lemma {:induction false} ReplaceFirstAtIndex(s: string, p: string, rep: string)
    ensures FirstIndex(s, p).None? ==> ReplaceFirst(s, p, rep) == s
    ensures FirstIndex(s, p).Some? ==>
      var i := FirstIndex(s, p).value; ReplaceFirst(s, p, rep) == s[..i] + rep + s[i + |p|..]
    decreases |s|
  {
    if StartsWith(s, p) {
      assert FirstIndex(s, p) == Some(0);
      assert s[..0] == [];
    } else if |s| <= |p| {
      assert FirstIndex(s, p) == None;
      if s != [] {
        ReplaceFirstShort(s, p, rep);
      }
    } else {
      ReplaceFirstAtIndex(s[1..], p, rep);
      ReplaceFirstStep(s, p, rep);
    }
  }

  /** A string no longer than the pattern, not starting with it, is left as it is. */
  lemma ReplaceFirstShort(s: string, p: string, rep: string)
    requires s != [] && |s| <= |p| && !StartsWith(s, p)
    ensures ReplaceFirst(s, p, rep) == s
    decreases |s|
  {
    assert !StartsWith(s[1..], p);
    if |s| > 1 {
      ReplaceFirstShort(s[1..], p, rep);
    }
    assert [s[0]] + s[1..] == s;
  }

  /** One step of `ReplaceFirstAtIndex`: the result for `s` from the result for `s[1..]`. */
  lemma ReplaceFirstStep(s: string, p: string, rep: string)
    requires |s| > |p| && !StartsWith(s, p)
    requires FirstIndex(s[1..], p).None? ==> ReplaceFirst(s[1..], p, rep) == s[1..]
    requires FirstIndex(s[1..], p).Some? ==>
      var i := FirstIndex(s[1..], p).value; ReplaceFirst(s[1..], p, rep) == s[1..][..i] + rep + s[1..][i + |p|..]
    ensures FirstIndex(s, p).None? ==> ReplaceFirst(s, p, rep) == s
    ensures FirstIndex(s, p).Some? ==>
      var i := FirstIndex(s, p).value; ReplaceFirst(s, p, rep) == s[..i] + rep + s[i + |p|..]
  {
    FirstIndexStep(s, p);
    if FirstIndex(s[1..], p).None? {
      ReplaceFirstCons(s, p, rep);
      assert [s[0]] + s[1..] == s;
    } else {
      var i := FirstIndex(s[1..], p).value;
      ReplaceFirstStepAt(s, p, rep, i);
    }
  }

  /** `replace` on a string that does not start with the pattern keeps the first character and works on the rest. */
  lemma ReplaceFirstCons(s: string, p: string, rep: string)
    requires s != [] && !StartsWith(s, p)
    ensures ReplaceFirst(s, p, rep) == [s[0]] + ReplaceFirst(s[1..], p, rep)
  {
  }

  /** The step of `ReplaceFirstStep` when the rest has its first occurrence at `i`. */
  lemma ReplaceFirstStepAt(s: string, p: string, rep: string, i: nat)
    requires |s| > |p| && !StartsWith(s, p) && i + |p| <= |s| - 1
    requires ReplaceFirst(s[1..], p, rep) == s[1..][..i] + rep + s[1..][i + |p|..]
    ensures ReplaceFirst(s, p, rep) == s[..i + 1] + rep + s[i + 1 + |p|..]
  {
    ReplaceFirstCons(s, p, rep);
    ConsSplit(s, i, |p|, rep);
  }

  /** Past a start that is not an occurrence, the first occurrence is one place later than in the rest. */
  lemma FirstIndexStep(s: string, p: string)
    requires |s| > |p| && !StartsWith(s, p)
    ensures FirstIndex(s[1..], p).None? ==> FirstIndex(s, p).None?
    ensures FirstIndex(s[1..], p).Some? ==> FirstIndex(s, p) == Some(FirstIndex(s[1..], p).value + 1)
  {
  }

  /** Putting the first character back in front of a split of the rest splits the whole string one place later. */
  lemma ConsSplit(s: string, i: nat, n: nat, rep: string)
    requires |s| > 0 && i + n <= |s| - 1
    ensures [s[0]] + (s[1..][..i] + rep + s[1..][i + n..]) == s[..i + 1] + rep + s[i + 1 + n..]
  {
    assert [s[0]] + s[1..][..i] == s[..i + 1];
    assert s[1..][i + n..] == s[i + 1 + n..];
  }

  /** A prefix that cannot start an occurrence is kept, and the first occurrence is looked for after it. */
  lemma {:induction false} ReplaceFirstSkip(a: string, b: string, p: string, rep: string)
    requires |p| > 0
    requires forall i :: 0 <= i < |a| ==> a[i] != p[0]
    ensures ReplaceFirst(a + b, p, rep) == a + ReplaceFirst(b, p, rep)
    decreases |a|
  {
    if a != [] {
      var s := a + b;
      assert s[0] == a[0];
      assert !StartsWith(s, p) by {
        if |p| <= |s| { assert s[..|p|][0] == a[0]; }
      }
      assert s[1..] == a[1..] + b;
      ReplaceFirstSkip(a[1..], b, p, rep);
      calc {
        ReplaceFirst(s, p, rep);
        [s[0]] + ReplaceFirst(s[1..], p, rep);
        [a[0]] + (a[1..] + ReplaceFirst(b, p, rep));
        { assert a == [a[0]] + a[1..]; }
        a + ReplaceFirst(b, p, rep);
      }
    } else {
      assert a + b == b;
    }
  }

  /** An occurrence at the very start is the one replaced. */
  lemma ReplaceFirstHead(b: string, p: string, rep: string)
    ensures ReplaceFirst(p + b, p, rep) == rep + b
  {
    assert (p + b)[..|p|] == p;
    assert (p + b)[|p|..] == b;
  }

  /**
   * JavaScript `s.replace(/p/g, rep)` for a pattern matched literally: the
   * occurrences are found left to right and do not overlap.
   */
  function ReplaceAll(s: string, p: string, rep: string): (r: string)
    requires |p| > 0
    decreases |s|
  {
    if StartsWith(s, p) then rep + ReplaceAll(s[|p|..], p, rep)
    else if s == [] then s
    else [s[0]] + ReplaceAll(s[1..], p, rep)
  }

  /** A string without an occurrence of the pattern is left as it is. */
  lemma {:induction false} ReplaceAllAbsent(s: string, p: string, rep: string)
    requires |p| > 0 && !Contains(s, p)
    ensures ReplaceAll(s, p, rep) == s
    decreases |s|
  {
    if StartsWith(s, p) {
      assert OccursAt(s, p, 0);
    } else if s != [] {
      if Contains(s[1..], p) {
        var i :| 0 <= i <= |s[1..]| - |p| && OccursAt(s[1..], p, i);
        assert s[i + 1..i + 1 + |p|] == s[1..][i..i + |p|];
        assert OccursAt(s, p, i + 1);
      }
      ReplaceAllAbsent(s[1..], p, rep);
    }
  }

  /** A prefix that cannot start an occurrence is copied unchanged before the rest is rewritten. */
  lemma {:induction false} ReplaceAllSkip(a: string, b: string, p: string, rep: string)
    requires |p| > 0
    requires forall i :: 0 <= i < |a| ==> a[i] != p[0]
    ensures ReplaceAll(a + b, p, rep) == a + ReplaceAll(b, p, rep)
    decreases |a|
  {
    if a != [] {
      var s := a + b;
      assert s[0] == a[0];
      if |p| <= |s| { assert s[..|p|][0] == a[0]; }
      assert ReplaceAll(s, p, rep) == [s[0]] + ReplaceAll(s[1..], p, rep);
      assert s[1..] == a[1..] + b;
      ReplaceAllSkip(a[1..], b, p, rep);
      assert a == [a[0]] + a[1..];
    } else {
      assert a + b == b;
    }
  }

  /** An occurrence at the very start is replaced and the scan resumes right after it. */
  lemma ReplaceAllHead(b: string, p: string, rep: string)
    requires |p| > 0
    ensures ReplaceAll(p + b, p, rep) == rep + ReplaceAll(b, p, rep)
  {
    assert (p + b)[..|p|] == p;
    assert (p + b)[|p|..] == b;
  }

  /** The decimal digits of a natural number, most significant first. */
  function NatToString(n: nat): (r: string)
    ensures |r| > 0
    ensures forall i :: 0 <= i < |r| ==> IsDigit(r[i])
    ensures n < 10 <==> |r| == 1
    decreases n
  {
    if n < 10 then [DigitChar(n)] else NatToString(n / 10) + [DigitChar(n % 10)]
  }

  /** JavaScript `String(n)` for an integer. */
  function IntToString(n: int): (r: string)
    ensures |r| > 0
    ensures n >= 0 ==> r == NatToString(n)
    ensures n < 0 ==> r == "-" + NatToString(-n)
  {
    if n >= 0 then NatToString(n) else "-" + NatToString(-n)
  }

  predicate IsDigit(c: char) {
    '0' <= c <= '9'
  }

  function DigitChar(d: nat): (c: char)
    requires d < 10
    ensures IsDigit(c)
  {
    ['0', '1', '2', '3', '4', '5', '6', '7', '8', '9'][d]
  }

  function DigitValue(c: char): (d: nat)
    requires IsDigit(c)
    ensures d < 10
  {
    (c as int) - ('0' as int)
  }

  /** The value of a non-empty run of decimal digits. */
  function DigitsValue(s: string): (n: nat)
    requires forall i :: 0 <= i < |s| ==> IsDigit(s[i])
    decreases |s|
  {
    if s == [] then 0 else DigitsValue(s[..|s| - 1]) * 10 + DigitValue(s[|s| - 1])
  }

  lemma DigitRoundTrip(d: nat)
    requires d < 10
    ensures DigitValue(DigitChar(d)) == d
  {
  }

  /** Reading back the decimal form of a number gives the number. */
  lemma {:induction false} NatToStringRoundTrip(n: nat)
    ensures DigitsValue(NatToString(n)) == n
    decreases n
  {
    DigitRoundTrip(n % 10);
    if n >= 10 {
      NatToStringRoundTrip(n / 10);
      var s := NatToString(n);
      assert s[..|s| - 1] == NatToString(n / 10);
    }
  }

  /** Different numbers have different decimal forms. */
  lemma NatToStringInjective(a: nat, b: nat)
    requires NatToString(a) == NatToString(b)
    ensures a == b
  {
    NatToStringRoundTrip(a);
    NatToStringRoundTrip(b);
  }

  /** JavaScript `parts.join(sep)`. */
  function Join(parts: seq<string>, sep: string): (r: string)
    ensures parts == [] ==> r == ""
    ensures |parts| == 1 ==> r == parts[0]
    decreases |parts|
  {
    if parts == [] then ""
    else if |parts| == 1 then parts[0]
    else parts[0] + sep + Join(parts[1..], sep)
  }

  /** JavaScript `s.split(c)` for a one-character separator. */
  function Split(s: string, c: char): (r: seq<string>)
    ensures |r| > 0
    ensures forall k :: 0 <= k < |r| ==> c !in r[k]
    decreases |s|
  {
    if s == [] then [""]
    else
      var rest := Split(s[1..], c);
      if s[0] == c then [""] + rest
      else [[s[0]] + rest[0]] + rest[1..]
  }

  /** Splitting a joined list gives back the list, when no piece holds the separator. */
  lemma {:induction false} SplitJoin(parts: seq<string>, c: char)
    requires |parts| > 0
    requires forall k :: 0 <= k < |parts| ==> c !in parts[k]
    ensures Split(Join(parts, [c]), c) == parts
    decreases |parts|
  {
    if |parts| == 1 {
      SplitNoSep(parts[0], [], c);
    } else {
      SplitJoin(parts[1..], c);
      SplitNoSep(parts[0], parts[1..], c);
    }
  }

  /** A separator-free prefix becomes the first piece of the split. */
  lemma {:induction false} SplitNoSep(a: string, rest: seq<string>, c: char)
    requires c !in a
    requires |rest| > 0 ==> Split(Join(rest, [c]), c) == rest
    ensures |rest| == 0 ==> Split(a, c) == [a]
    ensures |rest| > 0 ==> Split(a + [c] + Join(rest, [c]), c) == [a] + rest
    decreases |a|
  {
    if a == [] {
      if |rest| > 0 {
        var s := a + [c] + Join(rest, [c]);
        assert s[0] == c;
        assert s[1..] == Join(rest, [c]);
      }
    } else {
      assert a[0] in a;
      SplitNoSep(a[1..], rest, c);
      if |rest| > 0 {
        var s := a + [c] + Join(rest, [c]);
        assert s[0] == a[0];
        assert s[1..] == a[1..] + [c] + Join(rest, [c]);
        assert [a[0]] + a[1..] == a;
      } else {
        assert [a[0]] + a[1..] == a;
      }
    }
  }

  /** ASCII lower-casing, as `toLowerCase` does for the ASCII range. */
  function LowerChar(c: char): (r: char)
    ensures 'A' <= c <= 'Z' ==> 'a' <= r <= 'z'
    ensures !('A' <= c <= 'Z') ==> r == c
  {
    if 'A' <= c <= 'Z' then (c as int + 32) as char else c
  }

  function ToLower(s: string): (r: string)
    ensures |r| == |s|
    ensures forall i :: 0 <= i < |s| ==> r[i] == LowerChar(s[i])
  {
    seq(|s|, i requires 0 <= i < |s| => LowerChar(s[i]))
  }

  /**
   * The characters `trim`, `parseInt` and `Number` skip: ECMAScript's
   * WhiteSpace (tab, vertical tab, form feed, space, no-break space, the
   * byte-order mark and the Unicode space separators, among them the
   * ideographic space U+3000) and LineTerminator (line feed, carriage
   * return, U+2028 and U+2029).
   */
  predicate IsSpace(c: char) {
    '\t' <= c <= '\r' || c == ' ' || c == '\U{00A0}' || c == '\U{1680}'
    || '\U{2000}' <= c <= '\U{200A}' || c == '\U{2028}' || c == '\U{2029}'
    || c == '\U{202F}' || c == '\U{205F}' || c == '\U{3000}' || c == '\U{FEFF}'
  }

  /** `s.trim() === ''`: the string holds only white space. */
  predicate IsBlank(s: string) {
    forall i :: 0 <= i < |s| ==> IsSpace(s[i])
  }

  /** JavaScript `String(n).padStart(2, '0')` for a non-negative integer. */
  function Pad2(n: nat): (r: string)
    ensures |r| >= 2
    ensures n < 10 ==> r == "0" + NatToString(n)
    ensures n >= 10 ==> r == NatToString(n)
    ensures forall i :: 0 <= i < |r| ==> IsDigit(r[i])
  {
    var s := NatToString(n);
    if |s| < 2 then "0" + s else s
  }

  /** Reading back a padded number gives the number: the leading zero adds nothing. */
  lemma Pad2RoundTrip(n: nat)
    ensures forall i :: 0 <= i < |Pad2(n)| ==> IsDigit(Pad2(n)[i])
    ensures DigitsValue(Pad2(n)) == n
  {
    NatToStringRoundTrip(n);
    if n < 10 {
      var p := Pad2(n);
      assert p[..1] == "0";
      assert DigitsValue(p) == DigitsValue("0") * 10 + DigitValue(p[1]);
    }
  }

  /** The longest prefix of `s` made of decimal digits. */
  function DigitPrefix(s: string): (r: string)
    ensures |r| <= |s| && r == s[..|r|]
    ensures forall i :: 0 <= i < |r| ==> IsDigit(r[i])
    ensures |r| < |s| ==> !IsDigit(s[|r|])
    decreases |s|
  {
    if s == [] || !IsDigit(s[0]) then "" else [s[0]] + DigitPrefix(s[1..])
  }

  function DropSpaces(s: string): (r: string)
    ensures |r| <= |s| && r == s[|s| - |r|..]
    ensures r == [] || !IsSpace(r[0])
    decreases |s|
  {
    if s != [] && IsSpace(s[0]) then DropSpaces(s[1..]) else s
  }

  function DropSpacesEnd(s: string): (r: string)
    ensures |r| <= |s| && r == s[..|r|]
    ensures r == [] || !IsSpace(r[|r| - 1])
    decreases |s|
  {
    if s != [] && IsSpace(s[|s| - 1]) then DropSpacesEnd(s[..|s| - 1]) else s
  }

  /** JavaScript `s.trim()`. */
  function Trim(s: string): (r: string)
  {
    DropSpacesEnd(DropSpaces(s))
  }

  /** Trimming leaves nothing exactly when the string is blank, and otherwise a piece of it with no white space at either end. */
  lemma TrimBlank(s: string)
    ensures Trim(s) == "" <==> IsBlank(s)
    ensures Trim(s) != "" ==> !IsSpace(Trim(s)[0]) && !IsSpace(Trim(s)[|Trim(s)| - 1])
    ensures OccursAt(s, Trim(s), |s| - |DropSpaces(s)|)
  {
    TrimOccurs(s);
    var t := Trim(s);
    if t == "" {
      TrimmedAwayIsBlank(s);
    } else {
      var k := |s| - |DropSpaces(s)|;
      assert s[k] == s[k..k + |t|][0] == t[0];
    }
  }

  /** The trimmed string sits in the original right after the leading white space. */
  lemma TrimOccurs(s: string)
    ensures OccursAt(s, Trim(s), |s| - |DropSpaces(s)|)
  {
    var d := DropSpaces(s);
    var t := DropSpacesEnd(d);
    var k := |s| - |d|;
    forall i | 0 <= i < |t| ensures s[k..k + |t|][i] == t[i] {
      assert t[i] == d[..|t|][i] == d[i];
      assert d[i] == s[k..][i];
    }
  }

  /** A string that trims to nothing is blank. */
  lemma TrimmedAwayIsBlank(s: string)
    requires Trim(s) == ""
    ensures IsBlank(s)
  {
    var d := DropSpaces(s);
    if d != [] {
      DroppedEndAreSpaces(d);
      assert false;
    }
    DroppedAreSpaces(s);
    assert s[..|s| - |d|] == s;
  }

  /** The characters `DropSpaces` removes are white space. */
  lemma {:induction false} DroppedAreSpaces(s: string)
    ensures IsBlank(s[..|s| - |DropSpaces(s)|])
    decreases |s|
  {
    if s != [] && IsSpace(s[0]) {
      DroppedAreSpaces(s[1..]);
      var k := |s| - |DropSpaces(s)|;
      forall i | 0 <= i < k ensures IsSpace(s[..k][i]) {
        if i > 0 {
          assert s[..k][i] == s[1..][..k - 1][i - 1];
        }
      }
    }
  }

  /** The characters `DropSpacesEnd` removes are white space. */
  lemma {:induction false} DroppedEndAreSpaces(s: string)
    ensures IsBlank(s[|DropSpacesEnd(s)|..])
    decreases |s|
  {
    if s != [] && IsSpace(s[|s| - 1]) {
      DroppedEndAreSpaces(s[..|s| - 1]);
      var k := |DropSpacesEnd(s)|;
      forall i | k <= i < |s| ensures IsSpace(s[i]) {
        if i < |s| - 1 {
          assert s[i] == s[..|s| - 1][k..][i - k];
        }
      }
    }
  }

  /**
   * JavaScript `parseInt(s)` without a radix: leading white space, an
   * optional sign, then `0x` or `0X` and as many hexadecimal digits as
   * follow, or else as many decimal digits as follow; `None` stands for
   * `NaN`.
   */
  function ParseInt(s: string): (r: Option<int>)
    ensures (forall i :: 0 <= i < |s| ==> IsDigit(s[i])) && s != [] ==> r == Some(DigitsValue(s))
  {
    assert (forall i :: 0 <= i < |s| ==> IsDigit(s[i])) && s != [] ==> ParseTrimmed(DropSpaces(s)) == Some(DigitsValue(s)) by {
      if (forall i :: 0 <= i < |s| ==> IsDigit(s[i])) && s != [] {
        DigitsParsedWhole(s);
        UnsignedDigits(s);
      }
    }
    ParseTrimmed(DropSpaces(s))
  }

  /** `parseInt` after the leading white space: an optional sign, then the digits. */
  function ParseTrimmed(t: string): (r: Option<int>)
  {
    if |t| > 0 && t[0] == '-' then Signed(true, ParseUnsigned(t[1..]))
    else if |t| > 0 && t[0] == '+' then Signed(false, ParseUnsigned(t[1..]))
    else Signed(false, ParseUnsigned(t))
  }

  /** An unsigned reading with its sign applied; `None` stays `None`. */
  function Signed(neg: bool, u: Option<nat>): (r: Option<int>)
    ensures u.None? <==> r.None?
    ensures u.Some? ==> r.value == if neg then -(u.value as int) else u.value
  {
    match u
    case None => None
    case Some(v) => if neg then Some(-(v as int)) else Some(v)
  }

  /** What `parseInt` reads after the sign: hexadecimal after `0x`, else decimal; `None` when no digit follows. */
  function ParseUnsigned(body: string): (r: Option<nat>)
    ensures (forall i :: 0 <= i < |body| ==> IsDigit(body[i])) && body != [] ==> r == Some(DigitsValue(body))
  {
    assert (forall i :: 0 <= i < |body| ==> IsDigit(body[i])) && body != [] ==> !HexMarked(body) && DigitPrefix(body) == body by {
      if (forall i :: 0 <= i < |body| ==> IsDigit(body[i])) && body != [] {
        DigitsParsedWhole(body);
      }
    }
    if HexMarked(body) then
      var hex := HexPrefix(body[2..]);
      if hex == [] then None else Some(HexValue(hex))
    else
      var digits := DigitPrefix(body);
      if digits == [] then None else Some(DigitsValue(digits))
  }

  /** Without a sign, the reading is the unsigned one. */
  lemma NoSignRead(t: string)
    requires t == [] || (t[0] != '-' && t[0] != '+')
    ensures ParseTrimmed(t) == Signed(false, ParseUnsigned(t))
  {
  }

  /** After a minus sign, the reading is the negated unsigned one. */
  lemma MinusRead(t: string)
    requires t != [] && t[0] == '-'
    ensures ParseTrimmed(t) == Signed(true, ParseUnsigned(t[1..]))
  {
  }

  /** Unsigned digits are read as they are. */
  lemma UnsignedDigits(s: string)
    requires s != [] && forall i :: 0 <= i < |s| ==> IsDigit(s[i])
    ensures ParseTrimmed(s) == Some(DigitsValue(s))
  {
    assert IsDigit(s[0]);
    NoSignRead(s);
  }

  /** Without a radix, `0x` switches to hexadecimal: `'0x1A'` reads 26, and `'0x'` with no digit after it is `NaN`. */
  lemma HexReading()
    ensures ParseInt("0x1A") == Some(26)
    ensures ParseInt("0x") == None
  {
    var a := "0x1A";
    assert !IsSpace(a[0]);
    assert DropSpaces(a) == a;
    NoSignRead(a);
    assert HexMarked(a) && a[2..] == "1A";
    assert HexPrefix("1A") == "1A" by {
      assert HexPrefix("A") == "A";
      assert "1A"[1..] == "A";
    }
    assert HexValue("1A") == 26 by {
      assert "1A"[..1] == "1";
    }
    var b := "0x";
    assert !IsSpace(b[0]);
    assert DropSpaces(b) == b;
    NoSignRead(b);
    assert b[2..] == [];
  }

  /** A minus sign before digits negates their value. */
  lemma ParseIntNegative(s: string)
    requires s != [] && forall i :: 0 <= i < |s| ==> IsDigit(s[i])
    ensures ParseInt("-" + s) == Some(-(DigitsValue(s) as int))
  {
    SignKept(s);
    MinusDigits("-" + s, s);
  }

  /** A minus sign followed by digits reads as their negated value. */
  lemma MinusDigits(t: string, s: string)
    requires s != [] && forall i :: 0 <= i < |s| ==> IsDigit(s[i])
    requires t != [] && t[0] == '-' && t[1..] == s
    ensures ParseTrimmed(t) == Some(-(DigitsValue(s) as int))
  {
    MinusRead(t);
  }

  /** A leading minus sign is not white space: nothing is trimmed, and the sign is followed by the rest. */
  lemma SignKept(s: string)
    ensures DropSpaces("-" + s) == "-" + s
    ensures ("-" + s)[0] == '-' && ("-" + s)[1..] == s
  {
    var m := "-" + s;
    assert m[0] == '-' && m[1..] == s;
    assert !IsSpace(m[0]);
  }

  /** The text starts with `0x` or `0X`, which makes `parseInt` read hexadecimal. */
  predicate HexMarked(s: string) {
    |s| >= 2 && s[0] == '0' && (s[1] == 'x' || s[1] == 'X')
  }

  predicate IsHexDigit(c: char) {
    IsDigit(c) || 'a' <= c <= 'f' || 'A' <= c <= 'F'
  }

  function HexDigitValue(c: char): (d: nat)
    requires IsHexDigit(c)
    ensures d < 16
  {
    if IsDigit(c) then DigitValue(c)
    else if 'a' <= c <= 'f' then c as int - 'a' as int + 10
    else c as int - 'A' as int + 10
  }

  /** The value of a string of hexadecimal digits, most significant first. */
  function HexValue(s: string): (n: nat)
    requires forall i :: 0 <= i < |s| ==> IsHexDigit(s[i])
    decreases |s|
  {
    if s == [] then 0 else HexValue(s[..|s| - 1]) * 16 + HexDigitValue(s[|s| - 1])
  }

  /** The longest prefix of `s` made of hexadecimal digits. */
  function HexPrefix(s: string): (r: string)
    ensures |r| <= |s| && r == s[..|r|]
    ensures forall i :: 0 <= i < |r| ==> IsHexDigit(r[i])
    ensures |r| < |s| ==> !IsHexDigit(s[|r|])
    decreases |s|
  {
    if s == [] || !IsHexDigit(s[0]) then "" else [s[0]] + HexPrefix(s[1..])
  }

  /** A string of digits has no white space or sign to skip, and all of it is read. */
  lemma DigitsParsedWhole(s: string)
    requires s != [] && forall i :: 0 <= i < |s| ==> IsDigit(s[i])
    ensures DropSpaces(s) == s && s[0] != '-' && s[0] != '+' && DigitPrefix(s) == s && !HexMarked(s)
  {
    assert !IsSpace(s[0]);
    DigitPrefixAll(s);
    assert |s| < 2 || IsDigit(s[1]);
  }

  /** A run of digits is its own longest digit prefix. */
  lemma {:induction false} DigitPrefixAll(s: string)
    requires forall i :: 0 <= i < |s| ==> IsDigit(s[i])
    ensures DigitPrefix(s) == s
    decreases |s|
  {
    if s != [] {
      DigitPrefixAll(s[1..]);
    }
  }

  /** `parseInt` reads back what `String(n)` wrote. */
  lemma ParseIntRoundTrip(n: nat)
    ensures ParseInt(NatToString(n)) == Some(n)
  {
    NatToStringRoundTrip(n);
  }
}
