/**
 * The line-based part of reading a mesh: finding the count line in the
 * header and extracting the declared number of points from it.
 */
module MeshReader {
  import opened Options
  import opened Geometry
  import opened Numerals

  /** One data record after parsing: the point number (read and ignored) and the position. */
  datatype Record = Record(pointId: int, position: Vertex)

  predicate StartsWith(s: string, prefix: string)
  {
    |prefix| <= |s| && s[..|prefix|] == prefix
  }

  /** A line the header scan stops at: `strncmp` with "NPoints =" (9 chars) or "NPoints=" (8 chars) is 0. */
  predicate IsCountLine(line: string)
  {
    StartsWith(line, "NPoints =") || StartsWith(line, "NPoints=")
  }

  /** The index of the first count line, if there is one. */
  function CountLineIndex(lines: seq<string>): (h: Option<nat>)
    ensures h.Some? ==> h.value < |lines| && IsCountLine(lines[h.value])
    ensures h.Some? ==> forall j :: 0 <= j < h.value ==> !IsCountLine(lines[j])
    ensures h.None? <==> forall j :: 0 <= j < |lines| ==> !IsCountLine(lines[j])
  {
    if lines == [] then None
    else if IsCountLine(lines[0]) then Some(0)
    else
      match CountLineIndex(lines[1..])
      case None => None
      case Some(k) => Some(k + 1)
  }

  /** The header scan: read lines until the first count line. */
  method FindCountLine(lines: seq<string>) returns (h: nat)
    requires CountLineIndex(lines).Some?
    ensures h < |lines| && IsCountLine(lines[h])
    ensures forall j :: 0 <= j < h ==> !IsCountLine(lines[j])
  {
    h := 0;
    while !IsCountLine(lines[h])
      invariant h <= CountLineIndex(lines).value
      invariant forall j :: 0 <= j < h ==> !IsCountLine(lines[j])
      decreases CountLineIndex(lines).value - h
    {
      h := h + 1;
    }
  }

  /** The position of the last occurrence of `c` in `s` (`strrchr`), if any. */
  function LastIndexOf(s: string, c: char): (k: Option<nat>)
    ensures k.Some? ==> k.value < |s| && s[k.value] == c
    ensures k.Some? ==> forall j :: k.value < j < |s| ==> s[j] != c
    ensures k.None? <==> c !in s
  {
    if s == [] then None
    else if s[|s| - 1] == c then Some(|s| - 1)
    else LastIndexOf(s[..|s| - 1], c)
  }

  /** The count on a count line: `atoi` applied from the line's last blank on. */
  function LineCount(line: string): int
    requires ' ' in line
  {
    Atoi(line[LastIndexOf(line, ' ').value..])
  }

  /**
   * What the source needs of a header to terminate and be defined: a count
   * line exists, and the first one contains a blank.
   */
  predicate Readable(lines: seq<string>)
  {
    CountLineIndex(lines).Some? && ' ' in lines[CountLineIndex(lines).value]
  }

  /** The number of points the header declares. */
  function DeclaredCount(lines: seq<string>): int
    requires Readable(lines)
  {
    LineCount(lines[CountLineIndex(lines).value])
  }

  /** The positions of the records, in the order they were read. */
  function Positions(records: seq<Record>): (vs: seq<Vertex>)
    ensures |vs| == |records|
    ensures forall i :: 0 <= i < |records| ==> vs[i] == records[i].position
  {
    seq(|records|, i requires 0 <= i < |records| => records[i].position)
  }

  /** `strrchr` finds the blank that precedes a blank-free tail. */
  lemma {:induction false} LastBlankBeforeTail(head: string, tail: string)
    requires ' ' !in tail
    ensures LastIndexOf(head + " " + tail, ' ') == Some(|head|)
    decreases |tail|
  {
    var s := head + " " + tail;
    if tail != [] {
      var shorter := tail[..|tail| - 1];
      assert s[..|s| - 1] == head + " " + shorter;
      assert s[|s| - 1] == tail[|tail| - 1];
      LastBlankBeforeTail(head, shorter);
    }
  }

  lemma NoBlankInDecimal(n: int)
    ensures ' ' !in DecimalString(n)
  {
    var d := DecimalString(n);
    if n >= 0 {
      assert AllDigits(d);
    } else {
      assert d == "-" + NatString(-n);
      assert AllDigits(d[1..]);
    }
    assert forall i :: 0 <= i < |d| ==> d[i] != ' ';
  }

  /**
   * A count line with a blank before the number is read back as that number,
   * whatever blank-free non-digit text follows it.
   */
  lemma LineCountReadsDecimal(head: string, n: int, rest: string)
    requires ' ' !in rest && (rest == [] || !IsDigit(rest[0]))
    ensures LineCount(head + " " + DecimalString(n) + rest) == n
  {
    var d := DecimalString(n);
    var tail := d + rest;
    NoBlankInDecimal(n);
    var line := head + " " + tail;
    assert head + " " + d + rest == line;
    LastBlankBeforeTail(head, tail);
    assert line[|head|..] == " " + tail;
    assert AllSpaces(" ");
    AtoiReadsDecimalString(" ", n, rest);
    assert " " + d + rest == " " + tail;
  }

  /** The scan stops at the first count line, whatever precedes or follows it. */
  lemma FirstCountLine(before: seq<string>, line: string, after: seq<string>)
    requires forall j :: 0 <= j < |before| ==> !IsCountLine(before[j])
    requires IsCountLine(line)
    ensures CountLineIndex(before + [line] + after) == Some(|before|)
  {
    var lines := before + [line] + after;
    assert lines[|before|] == line;
    assert forall j :: 0 <= j < |before| ==> lines[j] == before[j];
  }

  /** The count line "NPoints = <n>" is a count line that declares n points. */
  lemma WrittenCountLine(n: int)
    ensures IsCountLine("NPoints = " + DecimalString(n))
    ensures ' ' in "NPoints = " + DecimalString(n)
    ensures LineCount("NPoints = " + DecimalString(n)) == n
  {
    var line := "NPoints = " + DecimalString(n);
    assert line[..9] == "NPoints =";
    assert line[9] == ' ';
    LineCountReadsDecimal("NPoints =", n, []);
    assert "NPoints =" + " " + DecimalString(n) + [] == line;
  }

  /** `strrchr` on "NPoints =<tail>" finds the blank inside "NPoints =" when the tail has none. */
  lemma GluedLineLastBlank(tail: string)
    requires ' ' !in tail
    ensures "NPoints =" + tail == "NPoints" + " " + ("=" + tail)
    ensures LastIndexOf("NPoints =" + tail, ' ') == Some(7)
  {
    assert ' ' !in "=" + tail;
    LastBlankBeforeTail("NPoints", "=" + tail);
  }

  /**
   * A number written right after the '=' is not read: the last blank is the
   * one before '=', and `atoi` stops at the '=' with no digits, so
   * "NPoints =<n>" is a count line that declares 0 points.
   */
  lemma GluedCountLineReadsZero(n: int)
    ensures IsCountLine("NPoints =" + DecimalString(n))
    ensures ' ' in "NPoints =" + DecimalString(n)
    ensures LineCount("NPoints =" + DecimalString(n)) == 0
  {
    var d := DecimalString(n);
    var line := "NPoints =" + d;
    assert line[..9] == "NPoints =";
    NoBlankInDecimal(n);
    GluedLineLastBlank(d);
    assert line[7..] == " " + ("=" + d);
    assert AllSpaces(" ");
    AtoiWithoutNumeral(" ", "=" + d);
  }

  /**
   * The header scan over a whole header: after lines that are not count
   * lines, "NPoints = <n>" declares n points.
   */
  lemma DeclaredCountOfHeader(before: seq<string>, n: int, after: seq<string>)
    requires forall j :: 0 <= j < |before| ==> !IsCountLine(before[j])
    ensures Readable(before + ["NPoints = " + DecimalString(n)] + after)
    ensures DeclaredCount(before + ["NPoints = " + DecimalString(n)] + after) == n
  {
    var line := "NPoints = " + DecimalString(n);
    WrittenCountLine(n);
    FirstCountLine(before, line, after);
    assert (before + [line] + after)[|before|] == line;
  }
}
