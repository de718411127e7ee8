/** Models of the Python built-in string operations that the two scripts use:
    `startswith`, `endswith`, `in`, `replace`, `split(sep, 1)`, `strip`,
    `splitlines`, `zfill` and `str` of a non-negative integer. */
module PyStr {

  datatype Option<+T> = None | Some(value: T)

  /** One byte of file content, as Python's `bytes` holds it. */
  newtype byte = x: int | 0 <= x < 256
  type Bytes = seq<byte>

  /** `s.startswith(prefix)` */
  predicate StartsWith(s: string, prefix: string) {
    |prefix| <= |s| && s[..|prefix|] == prefix
  }

  /** `s.endswith(suffix)` */
  predicate EndsWith(s: string, suffix: string) {
    |suffix| <= |s| && s[|s| - |suffix|..] == suffix
  }

  /** `sub in s`: some position of `s` starts with `sub`. */
  predicate Contains(s: string, sub: string)
    decreases |s|
  {
    StartsWith(s, sub) || (s != [] && Contains(s[1..], sub))
  }

  /** An occurrence at position `i` is found by `Contains`. */
  lemma {:induction false} ContainsAt(s: string, sub: string, i: nat)
    requires i + |sub| <= |s| && s[i..i + |sub|] == sub
    ensures Contains(s, sub)
  {
    if i == 0 {
      assert s[..|sub|] == sub;
    } else {
      assert s[1..][i - 1..i - 1 + |sub|] == s[i..i + |sub|];
      ContainsAt(s[1..], sub, i - 1);
    }
  }

  /** Every character of a contained string occurs in the containing one. */
  lemma {:induction false} ContainsChar(s: string, sub: string, k: nat)
    requires Contains(s, sub) && k < |sub|
    ensures sub[k] in s
  {
    if StartsWith(s, sub) {
      assert s[k] == sub[k];
    } else {
      ContainsChar(s[1..], sub, k);
      assert sub[k] in s[1..];
      var j :| 0 <= j < |s[1..]| && s[1..][j] == sub[k];
      assert s[j + 1] == sub[k];
    }
  }

  /** Prefixing text keeps an occurrence. */
  lemma {:induction false} ContainsAfterPrefix(a: string, b: string, sub: string)
    requires Contains(b, sub)
    ensures Contains(a + b, sub)
  {
    if a == [] {
      assert a + b == b;
    } else {
      ContainsAfterPrefix(a[1..], b, sub);
      assert (a + b)[1..] == a[1..] + b;
    }
  }

  /** `s.replace(pat, rep)`: every non-overlapping occurrence of `pat`, found
      left to right, is replaced by `rep`. */
  function ReplaceAll(s: string, pat: string, rep: string): string
    requires pat != []
    decreases |s|
  {
    if StartsWith(s, pat) then rep + ReplaceAll(s[|pat|..], pat, rep)
    else if s == [] then []
    else [s[0]] + ReplaceAll(s[1..], pat, rep)
  }

  /** A text without the pattern is left as it is. */
  lemma {:induction false} ReplaceAllAbsent(s: string, pat: string, rep: string)
    requires pat != [] && !Contains(s, pat)
    ensures ReplaceAll(s, pat, rep) == s
  {
    if s != [] {
      ReplaceAllAbsent(s[1..], pat, rep);
    }
  }

  /** `b` is `a` with some of its '1' characters turned into '2'. */
  predicate OneToTwo(a: string, b: string) {
    |a| == |b| && forall i :: 0 <= i < |a| ==> b[i] == a[i] || (a[i] == '1' && b[i] == '2')
  }

  lemma OneToTwoConcat(a1: string, b1: string, a2: string, b2: string)
    requires OneToTwo(a1, b1) && OneToTwo(a2, b2)
    ensures OneToTwo(a1 + a2, b1 + b2)
  {
    forall i | 0 <= i < |a1 + a2|
      ensures (b1 + b2)[i] == (a1 + a2)[i] || ((a1 + a2)[i] == '1' && (b1 + b2)[i] == '2')
    {
      if i >= |a1| {
        assert (a1 + a2)[i] == a2[i - |a1|] && (b1 + b2)[i] == b2[i - |a1|];
      }
    }
  }

  /** Replacing a pattern by one that only turns '1' into '2' turns only '1' into '2'. */
  lemma {:induction false} ReplaceAllOneToTwo(s: string, pat: string, rep: string)
    requires pat != [] && OneToTwo(pat, rep)
    ensures OneToTwo(s, ReplaceAll(s, pat, rep))
    decreases |s|
  {
    if StartsWith(s, pat) {
      ReplaceAllOneToTwo(s[|pat|..], pat, rep);
      assert s == pat + s[|pat|..];
      OneToTwoConcat(pat, rep, s[|pat|..], ReplaceAll(s[|pat|..], pat, rep));
    } else if s != [] {
      ReplaceAllOneToTwo(s[1..], pat, rep);
      assert s == [s[0]] + s[1..];
      OneToTwoConcat([s[0]], [s[0]], s[1..], ReplaceAll(s[1..], pat, rep));
    }
  }

  /** Replacing a pattern that occurs by a different text changes the text. */
  lemma {:induction false} ReplaceAllChanges(s: string, pat: string, rep: string)
    requires pat != [] && |rep| == |pat| && rep != pat && Contains(s, pat)
    ensures ReplaceAll(s, pat, rep) != s
    decreases |s|
  {
    var r := ReplaceAll(s, pat, rep);
    if StartsWith(s, pat) {
      assert r[..|pat|] == rep;
      assert s[..|pat|] == pat;
    } else {
      ReplaceAllChanges(s[1..], pat, rep);
      assert r == [s[0]] + ReplaceAll(s[1..], pat, rep);
      assert r[1..] == ReplaceAll(s[1..], pat, rep);
    }
  }

  /** Two rounds of turning '1' into '2' cannot undo a change made by the first. */
  lemma OneToTwoTransitive(a: string, b: string, c: string)
    requires OneToTwo(a, b) && OneToTwo(b, c)
    ensures OneToTwo(a, c)
  {
  }

  lemma OneToTwoStillChanged(a: string, b: string, c: string)
    requires OneToTwo(a, b) && OneToTwo(b, c) && b != a
    ensures c != a
  {
    var k :| 0 <= k < |a| && b[k] != a[k];
    assert c[k] == '2' && a[k] == '1';
  }

  /** `s.split(sep, 1)`: `None` when `sep` does not occur (the call then gives a
      one-element list), otherwise the text before and after its first occurrence. */
  function SplitFirst(s: string, sep: char): (r: Option<(string, string)>)
    ensures r.None? <==> sep !in s
    ensures r.Some? ==> sep !in r.value.0 && s == r.value.0 + [sep] + r.value.1
  {
    if s == [] then None
    else if s[0] == sep then Some(([], s[1..]))
    else match SplitFirst(s[1..], sep)
      case None => None
      case Some((before, after)) => Some(([s[0]] + before, after))
  }

  /** The split is unique: it is found at the first separator. */
  lemma {:induction false} SplitFirstAt(before: string, sep: char, after: string)
    requires sep !in before
    ensures SplitFirst(before + [sep] + after, sep) == Some((before, after))
  {
    var s := before + [sep] + after;
    if before == [] {
      assert s[1..] == after;
    } else {
      assert before[0] in before;
      SplitFirstAt(before[1..], sep, after);
      assert s[1..] == before[1..] + [sep] + after;
      assert [before[0]] + before[1..] == before;
    }
  }

  /** `s.split(sep)[0]`: the text before the first `sep`, or all of `s`. */
  function BeforeFirst(s: string, sep: char): (r: string)
    ensures sep !in r && StartsWith(s, r)
    ensures r == s || s[|r|] == sep
  {
    match SplitFirst(s, sep)
    case None => s
    case Some((before, after)) => assert s[..|before|] == before; before
  }

  /** Python's `str.isspace()` for one character. */
  predicate IsSpace(c: char) {
    c == ' ' || ('\t' <= c <= '\r') || ('\U{1C}' <= c <= '\U{1F}') || c == '\U{85}' || c == '\U{A0}'
    || c == '\U{1680}' || ('\U{2000}' <= c <= '\U{200A}') || c == '\U{2028}' || c == '\U{2029}'
    || c == '\U{202F}' || c == '\U{205F}' || c == '\U{3000}'
  }

  predicate AllSpace(s: string) {
    forall i :: 0 <= i < |s| ==> IsSpace(s[i])
  }

  function StripStart(s: string): (r: string)
    ensures |r| <= |s|
  {
    if s != [] && IsSpace(s[0]) then StripStart(s[1..]) else s
  }

  function StripEnd(s: string): (r: string)
    ensures |r| <= |s|
  {
    if s != [] && IsSpace(s[|s| - 1]) then StripEnd(s[..|s| - 1]) else s
  }

  /** `s.strip()` */
  function Strip(s: string): string {
    StripEnd(StripStart(s))
  }

  lemma {:induction false} StripStartShape(s: string)
    ensures EndsWith(s, StripStart(s)) && AllSpace(s[..|s| - |StripStart(s)|])
    ensures StripStart(s) == [] || !IsSpace(StripStart(s)[0])
  {
    if s != [] && IsSpace(s[0]) {
      StripStartShape(s[1..]);
      var r := StripStart(s);
      assert s[..|s| - |r|] == [s[0]] + s[1..][..|s[1..]| - |r|];
      assert s[|s| - |r|..] == s[1..][|s[1..]| - |r|..];
    }
  }

  lemma {:induction false} StripEndShape(s: string)
    ensures StartsWith(s, StripEnd(s)) && AllSpace(s[|StripEnd(s)|..])
    ensures StripEnd(s) == [] || !IsSpace(StripEnd(s)[|StripEnd(s)| - 1])
  {
    if s != [] && IsSpace(s[|s| - 1]) {
      var init := s[..|s| - 1];
      StripEndShape(init);
      var r := StripEnd(s);
      assert s[|r|..] == init[|r|..] + [s[|s| - 1]];
      assert s[..|r|] == init[..|r|];
    }
  }

  /** `s.strip()` removes exactly the white space at both ends: the result
      sits at offset `|s| - |StripStart(s)|` of `s`, all white space before it and
      after it, and neither of its ends is white space. */
  lemma StripShape(s: string)
    ensures var r, lead := Strip(s), |s| - |StripStart(s)|;
      lead + |r| <= |s| && s[lead..lead + |r|] == r &&
      AllSpace(s[..lead]) && AllSpace(s[lead + |r|..]) &&
      (r == [] || (!IsSpace(r[0]) && !IsSpace(r[|r| - 1])))
  {
    StripStartShape(s);
    StripEndShape(StripStart(s));
    StripShapeOf(s, StripStart(s), Strip(s));
  }

  /** The shape of `s.strip()` from those of its two halves. */
  lemma StripShapeOf(s: string, m: string, r: string)
    requires EndsWith(s, m) && AllSpace(s[..|s| - |m|]) && (m == [] || !IsSpace(m[0]))
    requires StartsWith(m, r) && AllSpace(m[|r|..]) && (r == [] || !IsSpace(r[|r| - 1]))
    ensures var lead := |s| - |m|;
      lead + |r| <= |s| && s[lead..lead + |r|] == r &&
      AllSpace(s[..lead]) && AllSpace(s[lead + |r|..]) &&
      (r == [] || (!IsSpace(r[0]) && !IsSpace(r[|r| - 1])))
  {
    var lead := |s| - |m|;
    assert r == m[..|r|];
    assert s[lead + |r|..] == m[|r|..];
    if r != [] {
      assert r[0] == m[0];
    }
  }

  /** The line boundaries of Python's `str.splitlines()`; "\r\n" counts as one. */
  predicate IsLineBreak(c: char) {
    ('\n' <= c <= '\r') || ('\U{1C}' <= c <= '\U{1E}') || c == '\U{85}' || c == '\U{2028}' || c == '\U{2029}'
  }

  predicate NoLineBreak(s: string) {
    forall i :: 0 <= i < |s| ==> !IsLineBreak(s[i])
  }

  /** `s.splitlines()`: the lines without their boundaries; a final boundary
      does not start an empty last line. */
  function SplitLines(s: string): (lines: seq<string>)
    ensures forall i :: 0 <= i < |lines| ==> NoLineBreak(lines[i])
  {
    LinesFrom(s, [])
  }

  /** The lines of `s`, where `current` is the unfinished line read so far. */
  function LinesFrom(s: string, current: string): (lines: seq<string>)
    requires NoLineBreak(current)
    ensures forall i :: 0 <= i < |lines| ==> NoLineBreak(lines[i])
    ensures |lines| <= |s| + 1
    decreases |s|
  {
    if s == [] then (if current == [] then [] else [current])
    else if s[0] == '\r' && |s| > 1 && s[1] == '\n' then [current] + LinesFrom(s[2..], [])
    else if IsLineBreak(s[0]) then [current] + LinesFrom(s[1..], [])
    else LinesFrom(s[1..], current + [s[0]])
  }

  lemma NoLineBreakConcat(a: string, b: string)
    requires NoLineBreak(a) && NoLineBreak(b)
    ensures NoLineBreak(a + b)
  {
    assert forall i :: 0 <= i < |a + b| ==> (a + b)[i] == if i < |a| then a[i] else b[i - |a|];
  }

  /** Each line followed by "\n": the text whose `splitlines()` gives `lines` back. */
  function Terminated(lines: seq<string>): string {
    if lines == [] then [] else lines[0] + "\n" + Terminated(lines[1..])
  }

  lemma {:induction false} LinesFromLine(current: string, line: string, rest: string)
    requires NoLineBreak(current) && NoLineBreak(line)
    ensures LinesFrom(line + "\n" + rest, current) == [current + line] + LinesFrom(rest, [])
    decreases |line|
  {
    var s := line + "\n" + rest;
    if line == [] {
      assert s[0] == '\n' && s[1..] == rest;
      assert current + line == current;
    } else {
      assert s[0] == line[0] && !IsLineBreak(line[0]);
      assert s[1..] == line[1..] + "\n" + rest;
      LinesFromLine(current + [line[0]], line[1..], rest);
      assert current + [line[0]] + line[1..] == current + line;
    }
  }

  /** `splitlines()` undoes terminating each line with "\n". */
  lemma {:induction false} SplitLinesTerminated(lines: seq<string>)
    requires forall i :: 0 <= i < |lines| ==> NoLineBreak(lines[i])
    ensures SplitLines(Terminated(lines)) == lines
  {
    if lines != [] {
      LinesFromLine([], lines[0], Terminated(lines[1..]));
      SplitLinesTerminated(lines[1..]);
      assert [] + lines[0] == lines[0];
    }
  }

  predicate IsDigit(c: char) {
    '0' <= c <= '9'
  }

  predicate AllDigits(s: string) {
    forall i :: 0 <= i < |s| ==> IsDigit(s[i])
  }

  function DigitChar(d: nat): (c: char)
    requires d < 10
    ensures IsDigit(c) && c as int - '0' as int == d
  {
    ('0' as int + d) as char
  }

  /** `str(n)` for a non-negative integer: its decimal digits, no leading zero. */
  function DecimalString(n: nat): (r: string)
    ensures |r| >= 1 && AllDigits(r)
    ensures n > 0 ==> r[0] != '0'
  {
    if n < 10 then [DigitChar(n)] else DecimalString(n / 10) + [DigitChar(n % 10)]
  }

  /** The value of a string of decimal digits (leading zeros allowed). */
  function DecimalValue(s: string): nat
    requires AllDigits(s)
  {
    if s == [] then 0
    else DecimalValue(s[..|s| - 1]) * 10 + (s[|s| - 1] as int - '0' as int)
  }

  /** Reading back `str(n)` gives `n`. */
  lemma {:induction false} DecimalRoundTrip(n: nat)
    ensures DecimalValue(DecimalString(n)) == n
  {
    var r := DecimalString(n);
    if n >= 10 {
      DecimalRoundTrip(n / 10);
      assert r[..|r| - 1] == DecimalString(n / 10);
    } else {
      assert r[..0] == [];
    }
  }

  function Zeros(k: nat): (z: string)
    ensures |z| == k && AllDigits(z)
    ensures forall i :: 0 <= i < k ==> z[i] == '0'
  {
    if k == 0 then [] else ['0'] + Zeros(k - 1)
  }

  /** Leading zeros do not change the value of a digit string. */
  lemma {:induction false} LeadingZerosValue(k: nat, s: string)
    requires AllDigits(s)
    ensures AllDigits(Zeros(k) + s) && DecimalValue(Zeros(k) + s) == DecimalValue(s)
    decreases |s|, k
  {
    var t := Zeros(k) + s;
    if s == [] {
      assert t == Zeros(k);
      if k > 0 {
        assert t[..|t| - 1] == Zeros(k - 1);
        LeadingZerosValue(k - 1, []);
        assert Zeros(k - 1) + [] == Zeros(k - 1);
      }
    } else {
      assert t[..|t| - 1] == Zeros(k) + s[..|s| - 1];
      LeadingZerosValue(k, s[..|s| - 1]);
    }
  }

  /** `s.zfill(width)` for an unsigned digit string. */
  function ZFill(s: string, width: nat): string {
    if |s| >= width then s else Zeros(width - |s|) + s
  }

  /** Drops every leading '0'. */
  function DropLeadingZeros(s: string): string {
    if s != [] && s[0] == '0' then DropLeadingZeros(s[1..]) else s
  }

  lemma {:induction false} DropZerosPrefix(k: nat, s: string)
    requires s == [] || s[0] != '0'
    ensures DropLeadingZeros(Zeros(k) + s) == s
  {
    if k > 0 {
      assert (Zeros(k) + s)[1..] == Zeros(k - 1) + s;
      DropZerosPrefix(k - 1, s);
    } else {
      assert Zeros(0) + s == s;
    }
  }
}

/** Models of `os.path.join` (two arguments) and `os.path.basename` for
    '/'-separated paths. */
module PosixPath {
  import opened PyStr

  type Path = string

  /** `os.path.join(dir, name)` */
  function Join(dir: Path, name: string): Path {
    if StartsWith(name, "/") then name
    else if dir == [] || EndsWith(dir, "/") then dir + name
    else dir + "/" + name
  }

  /** `os.path.basename(p)`: the text after the last '/'. */
  function Basename(p: Path): (b: string)
    ensures '/' !in b && EndsWith(p, b)
    ensures |b| == |p| || p[|p| - |b| - 1] == '/'
  {
    if p == [] || p[|p| - 1] == '/' then []
    else
      var b := Basename(p[..|p| - 1]) + [p[|p| - 1]];
      assert p[|p| - |b|..] == p[..|p| - 1][|p| - |b|..] + [p[|p| - 1]];
      b
  }

  /** The base name of a path ending in a separator and a slash-free name is that name. */
  lemma {:induction false} BasenameAfterSlash(dir: Path, name: string)
    requires '/' !in name
    requires dir == [] || dir[|dir| - 1] == '/'
    ensures Basename(dir + name) == name
  {
    if name != [] {
      var init, last := name[..|name| - 1], name[|name| - 1];
      assert name == init + [last] && last in name;
      assert dir + name == (dir + init) + [last];
      assert '/' !in init by {
        assert forall i :: 0 <= i < |init| ==> init[i] == name[i];
      }
      BasenameAfterSlash(dir, init);
      BasenameSnoc(dir + init, last);
    } else {
      assert dir + name == dir;
    }
  }

  lemma BasenameLast(p: Path)
    requires p != [] && p[|p| - 1] != '/'
    ensures Basename(p) == Basename(p[..|p| - 1]) + [p[|p| - 1]]
  {
  }

  lemma BasenameSnoc(p: Path, c: char)
    requires c != '/'
    ensures Basename(p + [c]) == Basename(p) + [c]
  {
    assert (p + [c])[..|p|] == p;
  }

  /** Joining a directory and a slash-free name gives a path whose base name is that name. */
  lemma BasenameOfJoin(dir: Path, name: string)
    requires '/' !in name
    ensures Basename(Join(dir, name)) == name
  {
    assert name == [] || name[0] != '/';
    assert !StartsWith(name, "/");
    if dir == [] || EndsWith(dir, "/") {
      BasenameAfterSlash(dir, name);
    } else {
      assert dir + "/" + name == (dir + "/") + name;
      BasenameAfterSlash(dir + "/", name);
    }
  }

  /** Text found in the name is found in the joined path. */
  lemma JoinContains(dir: Path, name: string, sub: string)
    requires Contains(name, sub)
    ensures Contains(Join(dir, name), sub)
  {
    if !StartsWith(name, "/") {
      if dir == [] || EndsWith(dir, "/") {
        ContainsAfterPrefix(dir, name, sub);
      } else {
        assert dir + "/" + name == (dir + "/") + name;
        ContainsAfterPrefix(dir + "/", name, sub);
      }
    }
  }

  /** Turning '1' into '2' keeps the separators, hence the base name's place. */
  lemma {:induction false} BasenameOneToTwo(a: Path, b: Path)
    requires OneToTwo(a, b)
    ensures OneToTwo(Basename(a), Basename(b))
  {
    if a != [] {
      var a0, b0, x, y := a[..|a| - 1], b[..|b| - 1], a[|a| - 1], b[|b| - 1];
      assert x == '/' <==> y == '/';
      if x != '/' {
        assert OneToTwo(a0, b0) by {
          forall i | 0 <= i < |a0| ensures b0[i] == a0[i] || (a0[i] == '1' && b0[i] == '2') {
            assert a0[i] == a[i] && b0[i] == b[i];
          }
        }
        BasenameOneToTwo(a0, b0);
        BasenameLast(a);
        BasenameLast(b);
        OneToTwoConcat(Basename(a0), Basename(b0), [x], [y]);
      }
    }
  }
}
