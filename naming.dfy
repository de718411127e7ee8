/** How `subsample_reads` names its output files: the zero-padded coverage and
    the prepend, insert and extend schemes, each with the inverse that recovers
    the original file name. */
module Naming {
  import opened PyStr

  /** `str(c).zfill(3)` */
  function Padded(c: nat): (p: string)
    ensures |p| >= 3 && AllDigits(p) && EndsWith(p, DecimalString(c))
  {
    var d := DecimalString(c);
    assert |d| < 3 ==> (Zeros(3 - |d|) + d)[3 - |d|..] == d;
    ZFill(d, 3)
  }

  /** The padded coverage is `str(c)` with zeros in front up to length 3: it is
      never truncated, and it reads back as `c`. */
  lemma PaddedShape(c: nat)
    ensures var r, d := Padded(c), DecimalString(c);
      |r| == (if |d| >= 3 then |d| else 3) && r == Zeros(|r| - |d|) + d &&
      AllDigits(r) && DecimalValue(r) == c
  {
    var d := DecimalString(c);
    if |d| >= 3 {
      assert Zeros(0) + d == d;
    }
    LeadingZerosValue(|Padded(c)| - |d|, d);
    DecimalRoundTrip(c);
  }

  /** Dropping the leading zeros of the padded coverage gives back `str(c)`. */
  lemma PaddedDropZeros(c: nat)
    requires c > 0
    ensures DropLeadingZeros(Padded(c)) == DecimalString(c)
  {
    var d := DecimalString(c);
    PaddedShape(c);
    DropZerosPrefix(|Padded(c)| - |d|, d);
  }

  datatype Scheme = Prepend | Insert | Extend

  /** The `name_type` values the scripts accept. */
  function ParseScheme(nameType: string): (s: Option<Scheme>)
    ensures s.Some? <==> nameType == "prepend" || nameType == "insert" || nameType == "extend"
  {
    if nameType == "prepend" then Some(Prepend)
    else if nameType == "insert" then Some(Insert)
    else if nameType == "extend" then Some(Extend)
    else None
  }

  // ---------------------------------------------------------------- prepend

  /** `f"{padded}xds-{name}"` */
  function PrependName(name: string, padded: string): (out: string)
    ensures |out| == |padded| + 4 + |name| && EndsWith(out, name)
  {
    var out := padded + "xds-" + name;
    assert out[|out| - |name|..] == name;
    out
  }

  /** Removes the prepended marker again. */
  function StripPrepend(out: string, padded: string): Option<string> {
    if StartsWith(out, padded + "xds-") then Some(out[|padded| + 4..]) else None
  }

  lemma PrependRoundTrip(name: string, padded: string)
    ensures StripPrepend(PrependName(name, padded), padded) == Some(name)
  {
    var out := PrependName(name, padded);
    assert out[..|padded| + 4] == padded + "xds-";
    assert out[|padded| + 4..] == name;
  }

  // ---------------------------------------------------------------- insert

  /** `f"{name.split('_', 1)[0]}-{padded}xds_{name.split('_', 1)[1]}"`; `None`
      when `name` has no '_', where indexing `[1]` raises IndexError. */
  function InsertName(name: string, padded: string): (out: Option<string>)
    ensures out.Some? <==> '_' in name
    ensures out.Some? ==> |out.value| == |name| + |padded| + 4
  {
    match SplitFirst(name, '_')
    case None => None
    case Some((prefix, rest)) => Some(prefix + "-" + padded + "xds_" + rest)
  }

  /** The text in front of the output's '_' has no '_' of its own. */
  lemma InsertHeadPlain(prefix: string, padded: string)
    requires '_' !in prefix && AllDigits(padded)
    ensures '_' !in prefix + "-" + padded + "xds"
  {
    var head := prefix + "-" + padded + "xds";
    forall i | 0 <= i < |head| ensures head[i] != '_' {
      if i < |prefix| {
        assert head[i] == prefix[i];
      } else if i > |prefix| && i < |prefix| + 1 + |padded| {
        assert head[i] == padded[i - |prefix| - 1];
      }
    }
  }

  /** Insert succeeds exactly when the name has a '_'; the output's first '_'
      is the one after the marker, so its text after the first '_' is the
      original text after the first '_', and its text before is the original
      prefix followed by the marker. */
  lemma InsertShape(name: string, padded: string)
    requires AllDigits(padded)
    ensures InsertName(name, padded).Some? <==> '_' in name
    ensures InsertName(name, padded).Some? ==>
      var (prefix, rest) := SplitFirst(name, '_').value;
      SplitFirst(InsertName(name, padded).value, '_') == Some((prefix + "-" + padded + "xds", rest))
  {
    match SplitFirst(name, '_')
    case None =>
    case Some((prefix, rest)) =>
      var head := prefix + "-" + padded + "xds";
      InsertHeadPlain(prefix, padded);
      assert InsertName(name, padded).value == head + ['_'] + rest;
      SplitFirstAt(head, '_', rest);
  }

  /** Removes the inserted marker again. */
  function UnInsert(out: string, padded: string): Option<string> {
    match SplitFirst(out, '_')
    case None => None
    case Some((head, rest)) =>
      var marker := "-" + padded + "xds";
      if EndsWith(head, marker) then Some(head[..|head| - |marker|] + "_" + rest) else None
  }

  /** Removing the marker from one inserted output gives back the name. */
  lemma UnInsertAt(prefix: string, rest: string, padded: string)
    requires '_' !in prefix && AllDigits(padded)
    ensures UnInsert(prefix + "-" + padded + "xds_" + rest, padded) == Some(prefix + "_" + rest)
  {
    var marker := "-" + padded + "xds";
    var head := prefix + marker;
    assert prefix + "-" + padded + "xds_" + rest == head + ['_'] + rest;
    assert SplitFirst(head + ['_'] + rest, '_') == Some((head, rest)) by {
      InsertHeadPlain(prefix, padded);
      SplitFirstAt(head, '_', rest);
    }
    assert head[|head| - |marker|..] == marker;
    assert head[..|head| - |marker|] == prefix;
  }

  lemma InsertRoundTrip(name: string, padded: string)
    requires AllDigits(padded)
    ensures InsertName(name, padded).Some? ==> UnInsert(InsertName(name, padded).value, padded) == Some(name)
  {
    match SplitFirst(name, '_')
    case None =>
    case Some((prefix, rest)) =>
      UnInsertAt(prefix, rest, padded);
  }

  // ---------------------------------------------------------------- extend

  /** The regular-expression `.` without DOTALL: any character but a newline. */
  predicate AnyChar(c: char) {
    c != '\n'
  }

  /** The first alternative of `(.fastq.gz|.fastq)` matches at the start of `s`. */
  predicate MatchesFastqGz(s: string) {
    |s| >= 9 && AnyChar(s[0]) && s[1..6] == "fastq" && AnyChar(s[6]) && s[7..9] == "gz"
  }

  /** The second alternative of `(.fastq.gz|.fastq)` matches at the start of `s`. */
  predicate MatchesFastq(s: string) {
    |s| >= 6 && AnyChar(s[0]) && s[1..6] == "fastq"
  }

  /** What the replacement `.{padded}xds\1` puts in front of each match. */
  function Mark(padded: string): string {
    "." + padded + "xds"
  }

  /** `re.sub(r"(.fastq.gz|.fastq)", f".{padded}xds\\1", name)`: scanning left to
      right, at each position the first alternative is tried before the second,
      a match is kept and preceded by the mark, and the scan resumes after it. */
  function ExtendName(name: string, padded: string): (r: string)
    ensures |r| >= |name|
    decreases |name|
  {
    if MatchesFastqGz(name) then Mark(padded) + name[..9] + ExtendName(name[9..], padded)
    else if MatchesFastq(name) then Mark(padded) + name[..6] + ExtendName(name[6..], padded)
    else if name == [] then []
    else [name[0]] + ExtendName(name[1..], padded)
  }

  /** Deletes every mark that stands right before a `.fastq` match. */
  function Unextend(out: string, padded: string): string
    decreases |out|
  {
    var mark := Mark(padded);
    if StartsWith(out, mark) && MatchesFastq(out[|mark|..]) then Unextend(out[|mark|..], padded)
    else if out == [] then []
    else [out[0]] + Unextend(out[1..], padded)
  }

  /** One step of the scan. */
  lemma ExtendStep(s: string, padded: string)
    requires padded != []
    ensures MatchesFastqGz(s) ==>
      (MatchesFastq(s) && ExtendName(s, padded) == Mark(padded) + s[..9] + ExtendName(s[9..], padded))
    ensures MatchesFastq(s) && !MatchesFastqGz(s) ==>
      (ExtendName(s, padded) == Mark(padded) + s[..6] + ExtendName(s[6..], padded))
    ensures MatchesFastq(s) ==> ExtendName(s, padded)[0] == '.' && ExtendName(s, padded)[1] == padded[0]
    ensures !MatchesFastq(s) && s != [] ==> ExtendName(s, padded) == [s[0]] + ExtendName(s[1..], padded)
    ensures s == [] ==> ExtendName(s, padded) == []
  {
  }

  /** The first character of the output: the mark's '.' at a match, else the input's. */
  lemma ExtendHead(s: string, padded: string)
    ensures s == [] ==> ExtendName(s, padded) == []
    ensures MatchesFastq(s) ==> ExtendName(s, padded)[0] == '.'
    ensures !MatchesFastq(s) && s != [] ==> ExtendName(s, padded) == [s[0]] + ExtendName(s[1..], padded)
  {
  }

  predicate NoDot(v: string) {
    forall i :: 0 <= i < |v| ==> v[i] != '.'
  }

  /** An output that starts with a text without '.' copies that text from the
      input: no match starts inside it. */
  lemma {:induction false} ExtendPlainPrefix(s: string, v: string, padded: string)
    requires padded != [] && NoDot(v) && StartsWith(ExtendName(s, padded), v)
    ensures StartsWith(s, v) && ExtendName(s, padded) == v + ExtendName(s[|v|..], padded)
    decreases |v|
  {
    if v == [] {
      assert s[0..] == s;
    } else {
      PlainHead(s, v, padded);
      ExtendPlainPrefix(s[1..], v[1..], padded);
      ConsPrefix(s, v, ExtendName(s[|v|..], padded));
    }
  }

  /** The first step of `ExtendPlainPrefix`: the output starts with a
      character other than '.', so it is the input's first character. */
  lemma PlainHead(s: string, v: string, padded: string)
    requires padded != [] && NoDot(v) && v != [] && StartsWith(ExtendName(s, padded), v)
    ensures s != [] && s[0] == v[0] && NoDot(v[1..])
    ensures ExtendName(s, padded) == [s[0]] + ExtendName(s[1..], padded)
    ensures StartsWith(ExtendName(s[1..], padded), v[1..])
  {
    var out := ExtendName(s, padded);
    ExtendHead(s, padded);
    assert out[0] == v[0];
    var tail := ExtendName(s[1..], padded);
    assert tail[..|v| - 1] == out[1..|v|] == v[1..];
  }

  /** `s` and `v` agree on their first character and `s[1..]` starts with
      `v[1..]`. */
  lemma ConsPrefix(s: string, v: string, r: string)
    requires s != [] && v != [] && s[0] == v[0] && StartsWith(s[1..], v[1..])
    ensures StartsWith(s, v) && s[1..][|v| - 1..] == s[|v|..]
    ensures [s[0]] + (v[1..] + r) == v + r
  {
    assert s[..|v|] == [s[0]] + s[1..][..|v| - 1];
    assert v == [v[0]] + v[1..];
  }

  /** The output never starts with a `.fastq` match: a match in the input gets
      the mark in front, whose second character is a digit. */
  lemma OutputStartsWithoutMatch(s: string, padded: string)
    requires padded != [] && AllDigits(padded)
    ensures !MatchesFastq(ExtendName(s, padded))
  {
    ExtendStep(s, padded);
    if MatchesFastq(s) {
      var out := ExtendName(s, padded);
      assert IsDigit(out[1]);
      assert |out| >= 6 ==> out[1..6][0] == out[1];
    } else if s != [] {
      PlainStartWithoutMatch(s, padded);
    }
  }

  /** Where the input has no match, the output starts with the input's first
      character, and a `fastq` after it comes from the input as well. */
  lemma PlainStartWithoutMatch(s: string, padded: string)
    requires padded != [] && s != [] && !MatchesFastq(s)
    ensures !MatchesFastq(ExtendName(s, padded))
  {
    ExtendStep(s, padded);
    var out := ExtendName(s, padded);
    var tail := ExtendName(s[1..], padded);
    assert out == [s[0]] + tail;
    if StartsWith(tail, "fastq") {
      ExtendPlainPrefix(s[1..], "fastq", padded);
      assert s[1..][..5] == s[1..6];
      assert out[0] == '\n';
    } else if |out| >= 6 {
      assert out[1..6] == tail[..5];
    }
  }

  /** Where the input has no match, the output does not show a mark followed
      by a match, so `Unextend` keeps that character. */
  lemma NoMarkedMatch(s: string, padded: string)
    requires padded != [] && AllDigits(padded) && s != [] && !MatchesFastq(s)
    ensures !(StartsWith(ExtendName(s, padded), Mark(padded)) &&
              MatchesFastq(ExtendName(s, padded)[|Mark(padded)|..]))
  {
    if StartsWith(ExtendName(s, padded), Mark(padded)) {
      MarkedOutputTail(s, padded);
      OutputStartsWithoutMatch(s[|Mark(padded)|..], padded);
    }
  }

  /** An output that starts with the mark although the input does not start
      with a match copied the mark's text from the input. */
  lemma MarkedOutputTail(s: string, padded: string)
    requires padded != [] && AllDigits(padded) && s != [] && !MatchesFastq(s)
    requires StartsWith(ExtendName(s, padded), Mark(padded))
    ensures |Mark(padded)| <= |s|
    ensures ExtendName(s, padded)[|Mark(padded)|..] == ExtendName(s[|Mark(padded)|..], padded)
  {
    ExtendStep(s, padded);
    var out, tail := ExtendName(s, padded), ExtendName(s[1..], padded);
    var mark, v := Mark(padded), padded + "xds";
    MarkTextNoDot(padded);
    MarkRest(padded);
    AfterFirst(out, tail, s[0], mark, v);
    ExtendPlainPrefix(s[1..], v, padded);
    assert s[1..][|v|..] == s[|mark|..];
    assert (v + ExtendName(s[|mark|..], padded))[|v|..] == ExtendName(s[|mark|..], padded);
  }

  /** `out` is `x` followed by `tail`, and starts with `mark`: `tail` starts
      with the rest of `mark`. */
  lemma AfterFirst(out: string, tail: string, x: char, mark: string, v: string)
    requires out == [x] + tail && StartsWith(out, mark) && mark != [] && mark[1..] == v
    ensures StartsWith(tail, v) && out[|mark|..] == tail[|v|..]
  {
    assert out[1..] == tail;
    assert tail[..|v|] == out[1..|mark|];
  }

  lemma MarkRest(padded: string)
    ensures Mark(padded) != [] && Mark(padded)[1..] == padded + "xds"
  {
    var m, v := Mark(padded), padded + "xds";
    assert |m| == |v| + 1;
    forall i | 0 <= i < |v| ensures m[1..][i] == v[i] {
      if i < |padded| {
        assert m[i + 1] == padded[i];
      } else {
        assert m[i + 1] == "xds"[i - |padded|];
      }
    }
  }

  lemma MarkTextNoDot(padded: string)
    requires AllDigits(padded)
    ensures NoDot(padded + "xds")
  {
    var v := padded + "xds";
    forall i | 0 <= i < |v| ensures v[i] != '.' {
      if i < |padded| {
        assert IsDigit(padded[i]);
      }
    }
  }

  /** No mark can start inside `u`: a '.' in it is followed, within `u`, by a
      character that is not a digit. */
  predicate NoMarkInside(u: string) {
    forall i :: 0 <= i < |u| && u[i] == '.' ==> i + 1 < |u| && !IsDigit(u[i + 1])
  }

  lemma MarkStart(w: string, padded: string)
    requires padded != [] && AllDigits(padded)
    ensures StartsWith(w, Mark(padded)) ==> |w| >= 2 && w[0] == '.' && IsDigit(w[1])
  {
    if StartsWith(w, Mark(padded)) {
      assert w[..|Mark(padded)|][1] == w[1];
      assert Mark(padded)[1] == padded[0];
    }
  }

  lemma {:induction false} UnextendPlain(u: string, v: string, padded: string)
    requires padded != [] && AllDigits(padded) && NoMarkInside(u)
    ensures Unextend(u + v, padded) == u + Unextend(v, padded)
  {
    if u == [] {
      assert u + v == v;
    } else {
      UnextendPlainHead(u, v, padded);
      UnextendPlain(u[1..], v, padded);
      ConsConcat(u, Unextend(v, padded));
    }
  }

  /** The first step of `UnextendPlain`: no mark starts at `u[0]`. */
  lemma UnextendPlainHead(u: string, v: string, padded: string)
    requires padded != [] && AllDigits(padded) && NoMarkInside(u) && u != []
    ensures Unextend(u + v, padded) == [u[0]] + Unextend(u[1..] + v, padded)
    ensures NoMarkInside(u[1..])
  {
    var w := u + v;
    MarkStart(w, padded);
    assert u[0] == '.' ==> w[1] == u[1];
    assert w[1..] == u[1..] + v;
    forall i | 0 <= i < |u[1..]| && u[1..][i] == '.' ensures i + 1 < |u[1..]| && !IsDigit(u[1..][i + 1]) {
      assert u[i + 1] == '.';
    }
  }

  /** Putting the first element back in front. */
  lemma ConsConcat(u: string, r: string)
    requires u != []
    ensures [u[0]] + (u[1..] + r) == u + r
  {
    assert u == [u[0]] + u[1..];
  }

  lemma MatchedTextHasNoMark(s: string)
    requires MatchesFastq(s)
    ensures NoMarkInside(s[..6])
    ensures MatchesFastqGz(s) ==> NoMarkInside(s[..9])
  {
    assert s[1] == 'f' && s[2] == 'a' && s[3] == 's' && s[4] == 't' && s[5] == 'q';
    if MatchesFastqGz(s) {
      assert s[7] == 'g' && s[8] == 'z';
    }
  }

  /** Deleting the inserted marks gives back the original name. */
  lemma {:induction false} ExtendRoundTrip(name: string, padded: string)
    requires padded != [] && AllDigits(padded)
    ensures Unextend(ExtendName(name, padded), padded) == name
    decreases |name|
  {
    if MatchesFastq(name) {
      var k := if MatchesFastqGz(name) then 9 else 6;
      ExtendRoundTrip(name[k..], padded);
      RoundTripAtMatch(name, padded, k);
    } else if name != [] {
      ExtendRoundTrip(name[1..], padded);
      RoundTripAtPlain(name, padded);
    } else {
      ExtendStep(name, padded);
    }
  }

  /** The step of the round trip at a match: the mark is dropped and the
      matched text is kept. */
  lemma RoundTripAtMatch(name: string, padded: string, k: nat)
    requires padded != [] && AllDigits(padded) && MatchesFastq(name)
    requires k == (if MatchesFastqGz(name) then 9 else 6)
    requires Unextend(ExtendName(name[k..], padded), padded) == name[k..]
    ensures Unextend(ExtendName(name, padded), padded) == name
  {
    var out, rest := ExtendName(name, padded), ExtendName(name[k..], padded);
    var marked := Mark(padded) + (name[..k] + rest);
    assert out == marked by {
      ExtendAtMatch(name, padded, k);
    }
    assert Unextend(marked, padded) == name[..k] + Unextend(rest, padded) by {
      UnextendMarkedMatch(name, padded, k, rest);
    }
    assert name == name[..k] + name[k..];
  }

  lemma ExtendAtMatch(name: string, padded: string, k: nat)
    requires padded != [] && MatchesFastq(name)
    requires k == (if MatchesFastqGz(name) then 9 else 6)
    ensures ExtendName(name, padded) == Mark(padded) + (name[..k] + ExtendName(name[k..], padded))
  {
    ExtendStep(name, padded);
    assert ExtendName(name, padded) == Mark(padded) + name[..k] + ExtendName(name[k..], padded);
  }

  /** A mark in front of matched text goes, and the matched text stays. */
  lemma UnextendMarkedMatch(name: string, padded: string, k: nat, rest: string)
    requires padded != [] && AllDigits(padded) && MatchesFastq(name)
    requires k == (if MatchesFastqGz(name) then 9 else 6)
    ensures Unextend(Mark(padded) + (name[..k] + rest), padded) == name[..k] + Unextend(rest, padded)
  {
    MatchKept(name, k, rest);
    UnextendAtMark(name[..k] + rest, padded);
    MatchedTextHasNoMark(name);
    UnextendPlain(name[..k], rest, padded);
  }

  /** The step of the round trip at a position without a match: the character
      is kept. */
  lemma RoundTripAtPlain(name: string, padded: string)
    requires padded != [] && AllDigits(padded) && name != [] && !MatchesFastq(name)
    requires Unextend(ExtendName(name[1..], padded), padded) == name[1..]
    ensures Unextend(ExtendName(name, padded), padded) == name
  {
    ExtendStep(name, padded);
    var out := ExtendName(name, padded);
    NoMarkedMatch(name, padded);
    assert out[1..] == ExtendName(name[1..], padded);
    assert name == [name[0]] + name[1..];
  }

  /** A match survives when the text after its first six characters changes. */
  lemma MatchKept(s: string, k: nat, rest: string)
    requires MatchesFastq(s) && 6 <= k <= |s|
    ensures MatchesFastq(s[..k] + rest)
  {
    assert (s[..k] + rest)[1..6] == s[1..6];
  }

  /** Unextend drops a mark that stands before a match. */
  lemma UnextendAtMark(tail: string, padded: string)
    requires MatchesFastq(tail)
    ensures Unextend(Mark(padded) + tail, padded) == Unextend(tail, padded)
  {
    var mark := Mark(padded);
    assert (mark + tail)[..|mark|] == mark && (mark + tail)[|mark|..] == tail;
  }

  /** No position of `s` starts a `.fastq` match (hence no `.fastq.gz` match). */
  predicate NoMatch(s: string) {
    forall i :: 0 <= i <= |s| ==> !MatchesFastq(s[i..])
  }

  lemma {:induction false} ExtendWithoutMatch(s: string, padded: string)
    requires padded != [] && NoMatch(s)
    ensures ExtendName(s, padded) == s
  {
    assert s[0..] == s;
    ExtendStep(s, padded);
    if s != [] {
      assert NoMatch(s[1..]) by {
        forall i | 0 <= i <= |s[1..]| ensures !MatchesFastq(s[1..][i..]) {
          assert s[1..][i..] == s[i + 1..];
        }
      }
      ExtendWithoutMatch(s[1..], padded);
    }
  }

  lemma {:induction false} ExtendGrows(s: string, padded: string, i: nat)
    requires padded != [] && i <= |s| && MatchesFastq(s[i..])
    ensures |ExtendName(s, padded)| > |s|
    decreases i
  {
    ExtendStep(s, padded);
    if !MatchesFastq(s) {
      assert i > 0 && s != [];
      assert s[1..][i - 1..] == s[i..];
      ExtendGrows(s[1..], padded, i - 1);
    }
  }

  /** A name is returned unchanged exactly when nothing in it matches. */
  lemma ExtendUnchangedIff(name: string, padded: string)
    requires padded != []
    ensures ExtendName(name, padded) == name <==> NoMatch(name)
  {
    if NoMatch(name) {
      ExtendWithoutMatch(name, padded);
    } else {
      var i :| 0 <= i <= |name| && MatchesFastq(name[i..]);
      ExtendGrows(name, padded, i);
    }
  }

  // ---------------------------------------------------------------- all schemes

  /** The output base name under a scheme; `None` when the scheme raises. */
  function OutputName(scheme: Scheme, padded: string, name: string): Option<string> {
    match scheme
    case Prepend => Some(PrependName(name, padded))
    case Insert => InsertName(name, padded)
    case Extend => Some(ExtendName(name, padded))
  }

  /** The substitution adds only marks, so it adds no path separator. */
  lemma {:induction false} ExtendNoSlash(name: string, padded: string)
    requires '/' !in name && '/' !in padded
    ensures '/' !in ExtendName(name, padded)
    decreases |name|
  {
    assert '/' !in Mark(padded);
    if MatchesFastqGz(name) {
      assert '/' !in name[..9] && '/' !in name[9..] by { assert name == name[..9] + name[9..]; }
      ExtendNoSlash(name[9..], padded);
    } else if MatchesFastq(name) {
      assert '/' !in name[..6] && '/' !in name[6..] by { assert name == name[..6] + name[6..]; }
      ExtendNoSlash(name[6..], padded);
    } else if name != [] {
      assert name == [name[0]] + name[1..];
      ExtendNoSlash(name[1..], padded);
    }
  }

  /** A base name stays a base name under every scheme: renaming never adds
      a '/', so the output name joined to a directory is its own base name. */
  lemma OutputNameNoSlash(scheme: Scheme, padded: string, name: string)
    requires '/' !in name && AllDigits(padded)
    ensures OutputName(scheme, padded, name).Some? ==> '/' !in OutputName(scheme, padded, name).value
  {
    match scheme
    case Prepend =>
    case Insert =>
      if '_' in name {
        var (prefix, rest) := SplitFirst(name, '_').value;
        assert '/' !in prefix && '/' !in rest by { assert name == prefix + "_" + rest; }
      }
    case Extend => ExtendNoSlash(name, padded);
  }

  /** Under each scheme, distinct names get distinct output names. */
  lemma OutputNameInjective(scheme: Scheme, padded: string, a: string, b: string)
    requires padded != [] && AllDigits(padded)
    requires OutputName(scheme, padded, a).Some? && OutputName(scheme, padded, a) == OutputName(scheme, padded, b)
    ensures a == b
  {
    match scheme
    case Prepend =>
      PrependRoundTrip(a, padded);
      PrependRoundTrip(b, padded);
    case Insert =>
      InsertRoundTrip(a, padded);
      InsertRoundTrip(b, padded);
    case Extend =>
      ExtendRoundTrip(a, padded);
      ExtendRoundTrip(b, padded);
  }

  // ---------------------------------------------------------------- examples

  /** Text in front of the first match is copied unchanged. */
  lemma {:induction false} ExtendAfterPlain(u: string, v: string, padded: string)
    requires forall i :: 0 <= i < |u| ==> !MatchesFastq((u + v)[i..])
    ensures ExtendName(u + v, padded) == u + ExtendName(v, padded)
  {
    if u == [] {
      assert u + v == v;
    } else {
      AfterPlainHead(u, v, padded);
      ExtendAfterPlain(u[1..], v, padded);
      ConsConcat(u, ExtendName(v, padded));
    }
  }

  /** The first step of `ExtendAfterPlain`: no match starts at `u[0]`. */
  lemma AfterPlainHead(u: string, v: string, padded: string)
    requires forall i :: 0 <= i < |u| ==> !MatchesFastq((u + v)[i..])
    requires u != []
    ensures ExtendName(u + v, padded) == [u[0]] + ExtendName(u[1..] + v, padded)
    ensures forall i :: 0 <= i < |u[1..]| ==> !MatchesFastq((u[1..] + v)[i..])
  {
    var w := u + v;
    assert w[0..] == w;
    ExtendHead(w, padded);
    assert w[1..] == u[1..] + v;
    forall i | 0 <= i < |u[1..]| ensures !MatchesFastq((u[1..] + v)[i..]) {
      assert (u[1..] + v)[i..] == w[i + 1..];
    }
  }

  lemma ExtendSuffixExample(v: string, padded: string)
    requires v == ".fastq.gz" && padded == "003"
    ensures ExtendName(v, padded) == ".003xds.fastq.gz"
  {
    assert MatchesFastqGz(v);
    assert v[..9] == v && v[9..] == [];
  }

  lemma NoMatchWithoutF(t: string)
    requires |t| < 2 || t[1] != 'f'
    ensures !MatchesFastq(t)
  {
    if |t| >= 6 {
      assert t[1..6][0] == t[1];
    }
  }

  lemma ExamplePrefixPlain(u: string, v: string)
    requires u == "S_R1_001" && v == ".fastq.gz"
    ensures forall i :: 0 <= i < |u| ==> !MatchesFastq((u + v)[i..])
  {
    var w := u + v;
    assert w[1] == '_' && w[2] == 'R' && w[3] == '1' && w[4] == '_';
    assert w[5] == '0' && w[6] == '0' && w[7] == '1' && w[8] == '.';
    forall i | 0 <= i < |u| ensures !MatchesFastq(w[i..]) {
      NoMatchWithoutF(w[i..]);
    }
  }

  /** A mark goes in front of the `.fastq.gz` suffix of a sample file name. */
  lemma ExtendExample(u: string, v: string, padded: string)
    requires u == "S_R1_001" && v == ".fastq.gz" && padded == "003"
    ensures ExtendName(u + v, padded) == u + ".003xds.fastq.gz"
  {
    ExamplePrefixPlain(u, v);
    ExtendAfterPlain(u, v, padded);
    ExtendSuffixExample(v, padded);
  }

  /** The `.fastq.gz` alternative is tried first: with the second alternative
      alone the scan would stop after ".fastq" and go on to match ".gzfastq"
      from its 'z'. */
  lemma AlternativeOrderMatters(head: string, tail: string, padded: string)
    requires head == ".fastq.gz" && tail == "fastq" && padded == "010"
    ensures ExtendName(head + tail, padded) == ".010xds" + head + tail
  {
    var s := head + tail;
    assert s[..9] == head && s[9..] == tail;
    assert MatchesFastqGz(s);
    assert NoMatch(tail) by {
      forall i | 0 <= i <= |tail| ensures !MatchesFastq(tail[i..]) {
      }
    }
    ExtendWithoutMatch(tail, padded);
  }
}
