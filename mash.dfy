/** The diagnostic text `mash sketch -r` writes on stderr, and how
    `subsample_reads` picks the estimated genome size and coverage out of it. */
module MashOutput {
  import opened PyStr

  const GenomePrefix := "Estimated genome size:"
  const CoveragePrefix := "Estimated coverage:"

  /** The two estimates, kept as the text that `float(...)` would convert. */
  datatype Estimate = Estimate(genomeSize: string, coverage: string)

  lemma ColonAfterPrefix(line: string, prefix: string)
    requires StartsWith(line, prefix) && ':' in prefix
    ensures ':' in line
  {
    var k :| 0 <= k < |prefix| && prefix[k] == ':';
    assert line[..|prefix|][k] == line[k];
  }

  /** `line.split(":")[1].strip()`: the text between the first colon and the
      next one (or the end), with white space stripped from both ends. */
  function FieldValue(line: string): (v: string)
    requires ':' in line
    ensures ':' !in v
    ensures v == [] || (!IsSpace(v[0]) && !IsSpace(v[|v| - 1]))
  {
    var after := SplitFirst(line, ':').value.1;
    var field := BeforeFirst(after, ':');
    StripShape(field);
    var lead := |field| - |StripStart(field)|;
    assert forall k :: 0 <= k < |Strip(field)| ==> Strip(field)[k] == field[lead + k];
    Strip(field)
  }

  /** The field is found after the first colon, whatever follows a second one. */
  lemma FieldValueOf(tag: string, value: string, rest: string)
    requires ':' !in tag && ':' !in value
    ensures FieldValue(tag + ":" + value) == Strip(value)
    ensures FieldValue(tag + ":" + value + ":" + rest) == Strip(value)
  {
    SplitFirstAt(tag, ':', value);
    assert tag + ":" + value == tag + [':'] + value;
    SplitFirstAt(tag, ':', value + ":" + rest);
    assert tag + ":" + value + ":" + rest == tag + [':'] + (value + ":" + rest);
    SplitFirstAt(value, ':', rest);
    assert value + ":" + rest == value + [':'] + rest;
  }

  /** The field of the last line that starts with `prefix`, if there is one. */
  function LastField(lines: seq<string>, prefix: string): (f: Option<string>)
    requires ':' in prefix
    ensures f.Some? ==> ':' !in f.value && (f.value == [] || (!IsSpace(f.value[0]) && !IsSpace(f.value[|f.value| - 1])))
  {
    if lines == [] then None
    else
      var line := lines[|lines| - 1];
      if StartsWith(line, prefix) then ColonAfterPrefix(line, prefix); Some(FieldValue(line))
      else LastField(lines[..|lines| - 1], prefix)
  }

  /** A field is missing exactly when no line carries its label. */
  lemma {:induction false} LastFieldNone(lines: seq<string>, prefix: string)
    requires ':' in prefix
    ensures LastField(lines, prefix).None? <==> forall i :: 0 <= i < |lines| ==> !StartsWith(lines[i], prefix)
  {
    if lines != [] {
      var init := lines[..|lines| - 1];
      LastFieldNone(init, prefix);
      assert forall i :: 0 <= i < |init| ==> init[i] == lines[i];
    }
  }

  /** A later labelled line overwrites an earlier one: the value comes from the
      last line with the tag. */
  lemma {:induction false} LastFieldAt(lines: seq<string>, prefix: string, i: nat)
    requires ':' in prefix && i < |lines| && StartsWith(lines[i], prefix)
    requires forall j :: i < j < |lines| ==> !StartsWith(lines[j], prefix)
    ensures ':' in lines[i] && LastField(lines, prefix) == Some(FieldValue(lines[i]))
  {
    ColonAfterPrefix(lines[i], prefix);
    if i < |lines| - 1 {
      var init := lines[..|lines| - 1];
      assert init[i] == lines[i];
      assert forall j :: i < j < |init| ==> init[j] == lines[j];
      LastFieldAt(init, prefix, i);
    }
  }

  /** A genome-size line never counts as a coverage line, so the `elif` in the
      scan is the same as a second `if`. */
  lemma PrefixesExclusive(line: string)
    requires StartsWith(line, GenomePrefix)
    ensures !StartsWith(line, CoveragePrefix)
  {
    assert line[10] == GenomePrefix[10] == 'g';
    assert CoveragePrefix[10] == 'c';
    assert |CoveragePrefix| > 10;
  }

  /** Both estimates, when both labels occur. */
  function EstimateOf(lines: seq<string>): (e: Option<Estimate>)
    ensures e.Some? ==> ':' !in e.value.genomeSize && ':' !in e.value.coverage
  {
    match (LastField(lines, GenomePrefix), LastField(lines, CoveragePrefix))
    case (Some(g), Some(c)) => Some(Estimate(g, c))
    case _ => None
  }

  /** The parse fails exactly when one of the two labels is missing from every line. */
  lemma EstimateMissing(lines: seq<string>)
    ensures EstimateOf(lines).None? <==>
      (forall i :: 0 <= i < |lines| ==> !StartsWith(lines[i], GenomePrefix)) ||
      (forall i :: 0 <= i < |lines| ==> !StartsWith(lines[i], CoveragePrefix))
  {
    LastFieldNone(lines, GenomePrefix);
    LastFieldNone(lines, CoveragePrefix);
  }

  /** The loop over `stderr.splitlines()`: a genome-size line sets the genome
      field, otherwise a coverage line sets the coverage field. */
  method ParseStderr(stderr: string) returns (r: Option<Estimate>)
    ensures r == EstimateOf(SplitLines(stderr))
  {
    var lines := SplitLines(stderr);
    var genomeSize: Option<string> := None;
    var coverage: Option<string> := None;
    for i := 0 to |lines|
      invariant genomeSize == LastField(lines[..i], GenomePrefix)
      invariant coverage == LastField(lines[..i], CoveragePrefix)
    {
      var line := lines[i];
      assert lines[..i + 1][..i] == lines[..i];
      if StartsWith(line, GenomePrefix) {
        ColonAfterPrefix(line, GenomePrefix);
        genomeSize := Some(FieldValue(line));
        PrefixesExclusive(line);
      } else if StartsWith(line, CoveragePrefix) {
        ColonAfterPrefix(line, CoveragePrefix);
        coverage := Some(FieldValue(line));
      }
    }
    assert lines[..|lines|] == lines;
    if genomeSize.None? || coverage.None? {
      return None;
    }
    return Some(Estimate(genomeSize.value, coverage.value));
  }

  /** A line `label: value` as mash writes it gives back `value`, for a label
      whose only colon is its last character. */
  lemma LabelledLine(prefix: string, value: string)
    requires prefix != [] && prefix[|prefix| - 1] == ':' && ':' !in prefix[..|prefix| - 1]
    requires ':' !in value && Strip(value) == value
    ensures FieldValue(prefix + " " + value) == value
  {
    var tag, spaced := prefix[..|prefix| - 1], " " + value;
    assert prefix == tag + ":";
    assert prefix + " " + value == tag + ":" + spaced;
    FieldValueOf(tag, spaced, "");
    assert spaced[0] == ' ' && spaced[1..] == value;
    assert StripStart(spaced) == StripStart(value);
  }

  lemma PrefixesLabelled()
    ensures GenomePrefix[|GenomePrefix| - 1] == ':' && ':' !in GenomePrefix[..|GenomePrefix| - 1]
    ensures CoveragePrefix[|CoveragePrefix| - 1] == ':' && ':' !in CoveragePrefix[..|CoveragePrefix| - 1]
  {
  }

  /** Two genome-size lines around a coverage line: the later genome size wins. */
  lemma {:induction false} LaterLineWins(g1: string, c: string, g2: string)
    requires StartsWith(g1, GenomePrefix) && StartsWith(c, CoveragePrefix) && StartsWith(g2, GenomePrefix)
    ensures ':' in c && ':' in g2
    ensures EstimateOf([g1, c, g2]) == Some(Estimate(FieldValue(g2), FieldValue(c)))
  {
    var lines := [g1, c, g2];
    PrefixesExclusive(g2);
    LastFieldAt(lines, GenomePrefix, 2);
    LastFieldAt(lines, CoveragePrefix, 1);
  }

  /** A report with the genome size given twice: the second value is the one
      parsed, together with the coverage. */
  lemma ParseOverwrites(gp: string, cp: string, g1: string, c: string, g2: string)
    requires gp == GenomePrefix + " " && cp == CoveragePrefix + " "
    requires ':' !in c && ':' !in g2
    requires NoLineBreak(g1) && NoLineBreak(c) && NoLineBreak(g2)
    requires Strip(c) == c && Strip(g2) == g2
    ensures EstimateOf(SplitLines(Terminated([gp + g1, cp + c, gp + g2]))) == Some(Estimate(g2, c))
  {
    var gl1, cl, gl2 := gp + g1, cp + c, gp + g2;
    PrefixesOneLine();
    PrefixedLine(gp, GenomePrefix, g1);
    PrefixedLine(cp, CoveragePrefix, c);
    PrefixedLine(gp, GenomePrefix, g2);
    SplitLinesTerminated([gl1, cl, gl2]);
    assert StartsWith(gl1, GenomePrefix) && StartsWith(gl2, GenomePrefix) by {
      assert gl1[..|GenomePrefix|] == gp[..|GenomePrefix|];
      assert gl2[..|GenomePrefix|] == gp[..|GenomePrefix|];
    }
    assert StartsWith(cl, CoveragePrefix) by {
      assert cl[..|CoveragePrefix|] == cp[..|CoveragePrefix|];
    }
    LaterLineWins(gl1, cl, gl2);
    PrefixesLabelled();
    LabelledLine(GenomePrefix, g2);
    LabelledLine(CoveragePrefix, c);
  }

  lemma PrefixesOneLine()
    ensures NoLineBreak(GenomePrefix) && NoLineBreak(CoveragePrefix)
  {
    forall i | 0 <= i < |GenomePrefix| ensures !IsLineBreak(GenomePrefix[i]) {
    }
    forall i | 0 <= i < |CoveragePrefix| ensures !IsLineBreak(CoveragePrefix[i]) {
    }
  }

  lemma PrefixedLine(p: string, tag: string, value: string)
    requires p == tag + " " && NoLineBreak(tag) && NoLineBreak(value)
    ensures NoLineBreak(p + value) && StartsWith(p + value, tag)
  {
    assert NoLineBreak(p) by {
      NoLineBreakConcat(tag, " ");
    }
    NoLineBreakConcat(p, value);
    assert (p + value)[..|tag|] == tag;
  }
}
