/** Clear-signed text (RFC 4880, section 7): the envelope, dash escaping, and when the payload survives. */
module ClearSigned {
  import opened Common

  // ---- Finding, joining and splitting ---------------------------------------------------------

  ghost predicate OccursAt(text: string, pat: string, i: int) {
    0 <= i && i + |pat| <= |text| && forall k :: 0 <= k < |pat| ==> text[i + k] == pat[k]
  }

  ghost predicate Contains(text: string, pat: string) {
    exists i :: OccursAt(text, pat, i)
  }

  ghost predicate FirstAt(text: string, pat: string, i: nat) {
    OccursAt(text, pat, i) && forall j :: 0 <= j < i ==> !OccursAt(text, pat, j)
  }

  lemma OccursLater(text: string, pat: string, i: int)
    requires text != "" && i > 0
    ensures OccursAt(text, pat, i) <==> OccursAt(text[1..], pat, i - 1)
  {}

  /** `str.find`, and the cut of `str.split(pat, 1)`. */
  function Find(text: string, pat: string): Option<nat> {
    if pat <= text then Some(0)
    else if text == "" then None
    else
      match Find(text[1..], pat)
      case None => None
      case Some(i) => Some(i + 1)
  }

  /** Found where the text no longer starts with the pattern: one place further on than in the rest. */
  lemma FoundLater(text: string, pat: string, i: nat)
    requires text != "" && !OccursAt(text, pat, 0)
    requires FirstAt(text[1..], pat, i)
    ensures FirstAt(text, pat, i + 1)
  {
    OccursLater(text, pat, i + 1);
    forall j | 0 < j < i + 1
      ensures !OccursAt(text, pat, j)
    {
      OccursLater(text, pat, j);
    }
  }

  lemma AbsentLater(text: string, pat: string)
    requires !OccursAt(text, pat, 0) && (text != "" ==> !Contains(text[1..], pat))
    ensures !Contains(text, pat)
  {
    forall i
      ensures !OccursAt(text, pat, i)
    {
      if text != "" && i > 0 { OccursLater(text, pat, i); }
    }
  }

  lemma {:induction false} FindIs(text: string, pat: string)
    ensures Find(text, pat).Some? ==> FirstAt(text, pat, Find(text, pat).value)
    ensures Find(text, pat).None? <==> !Contains(text, pat)
  {
    if !(pat <= text) {
      if text == "" {
        AbsentLater(text, pat);
      } else {
        FindIs(text[1..], pat);
        match Find(text[1..], pat)
        case None => AbsentLater(text, pat);
        case Some(i) => FoundLater(text, pat, i);
      }
    }
  }

  lemma FindFirst(text: string, pat: string, i: nat)
    requires FirstAt(text, pat, i)
    ensures Find(text, pat) == Some(i)
  {
    FindIs(text, pat);
  }

  /** The characters at which `str.splitlines` ends a line. */
  predicate BreakChar(c: char) {
    || c == '\n' || c == '\r' || '\U{0B}' <= c <= '\U{0C}' || '\U{1C}' <= c <= '\U{1E}'
    || c == '\U{85}' || c == '\U{2028}' || c == '\U{2029}'
  }

  predicate Plain(line: string) { forall i :: 0 <= i < |line| ==> !BreakChar(line[i]) }

  predicate AllPlain(lines: seq<string>) { forall i :: 0 <= i < |lines| ==> Plain(lines[i]) }

  /** Every line followed by a newline. */
  function Join(lines: seq<string>): string {
    if lines == [] then "" else lines[0] + "\n" + Join(lines[1..])
  }

  /** The first place at which a line ends. */
  function BreakAt(text: string): (r: Option<nat>)
    ensures r.Some? ==> r.value < |text| && BreakChar(text[r.value]) && forall j :: 0 <= j < r.value ==> !BreakChar(text[j])
    ensures r.None? ==> Plain(text)
  {
    if text == "" then None
    else if BreakChar(text[0]) then Some(0)
    else
      match BreakAt(text[1..])
      case None => None
      case Some(i) => Some(i + 1)
  }

  /** A carriage return takes a newline that follows it along. */
  function BreakWidth(text: string, i: nat): nat
    requires i < |text|
  {
    if text[i] == '\r' && i + 1 < |text| && text[i + 1] == '\n' then 2 else 1
  }

  /** `str.splitlines`. */
  function SplitLines(text: string): seq<string>
    decreases |text|
  {
    if text == "" then []
    else
      match BreakAt(text)
      case None => [text]
      case Some(i) => [text[..i]] + SplitLines(text[i + BreakWidth(text, i)..])
  }

  lemma NewlineAfter(line: string, rest: string)
    requires Plain(line)
    ensures BreakAt(line + "\n" + rest) == Some(|line|) && BreakWidth(line + "\n" + rest, |line|) == 1
  {
    var text := line + "\n" + rest;
    assert text[|line|] == '\n';
    assert forall j :: 0 <= j < |line| ==> text[j] == line[j];
  }

  /** Whatever the text, no line that comes out of it holds a line break. */
  lemma {:induction false} SplitIsPlain(text: string)
    ensures AllPlain(SplitLines(text))
    decreases |text|
  {
    if text != "" && BreakAt(text).Some? {
      var i := BreakAt(text).value;
      SplitIsPlain(text[i + BreakWidth(text, i)..]);
      assert Plain(text[..i]);
    }
  }

  lemma SplitFirst(line: string, rest: string)
    requires Plain(line)
    ensures SplitLines(line + "\n" + rest) == [line] + SplitLines(rest)
  {
    var text := line + "\n" + rest;
    NewlineAfter(line, rest);
    assert text[..|line|] == line && text[|line| + 1..] == rest;
  }

  lemma {:induction false} SplitUndoesJoin(lines: seq<string>)
    requires AllPlain(lines)
    ensures SplitLines(Join(lines)) == lines
  {
    if lines != [] {
      SplitUndoesJoin(lines[1..]);
      SplitFirst(lines[0], Join(lines[1..]));
    }
  }

  /** `rstrip("\r\n")`. */
  function RStrip(text: string): string {
    if text != "" && text[|text| - 1] in {'\r', '\n'} then RStrip(text[..|text| - 1]) else text
  }

  /** Trailing empty lines do not survive. */
  function Trim(lines: seq<string>): (r: seq<string>)
    ensures r <= lines
  {
    if lines != [] && lines[|lines| - 1] == "" then Trim(lines[..|lines| - 1]) else lines
  }

  lemma {:induction false} JoinSnoc(lines: seq<string>, line: string)
    ensures Join(lines + [line]) == Join(lines) + line + "\n"
  {
    if lines == [] {
      assert [line][1..] == [];
      assert lines + [line] == [line];
      assert Join([line]) == line + "\n" + "";
    } else {
      assert (lines + [line])[1..] == lines[1..] + [line];
      JoinSnoc(lines[1..], line);
    }
  }

  /** Stripping and closing with one newline leaves the trimmed lines. */
  lemma {:induction false} StripTrims(lines: seq<string>)
    requires AllPlain(lines)
    ensures RStrip(Join(lines)) + "\n" == Join(if Trim(lines) == [] then [""] else Trim(lines))
  {
    if lines == [] {
      assert Join([""]) == "" + "\n" + Join([]) by { assert [""][1..] == []; }
    } else {
      var before, last := lines[..|lines| - 1], lines[|lines| - 1];
      assert lines == before + [last];
      JoinSnoc(before, last);
      if last == "" {
        assert Join(before) + last == Join(before);
        StripTrims(before);
      } else {
        assert !BreakChar(last[|last| - 1]);
      }
    }
  }

  // ---- Dash escaping --------------------------------------------------------------------------

  function UnescapeLine(line: string): string {
    if "- " <= line then line[2..] else line
  }

  function Unescape(lines: seq<string>): seq<string> {
    seq(|lines|, i requires 0 <= i < |lines| => UnescapeLine(lines[i]))
  }

  /** Section 7.1: lines that begin with a dash must be escaped; any other line may be. */
  ghost predicate Escapes(lines: seq<string>, escaped: seq<string>) {
    && |escaped| == |lines|
    && forall i :: 0 <= i < |lines| ==>
         (escaped[i] == "- " + lines[i]) || (escaped[i] == lines[i] && !("-" <= lines[i]))
  }

  /** Line by line, unescaping undoes every escaping the standard allows. */
  lemma UnescapeUndoesEscape(lines: seq<string>, escaped: seq<string>)
    requires Escapes(lines, escaped)
    ensures Unescape(escaped) == lines
  {
    forall i | 0 <= i < |lines|
      ensures UnescapeLine(escaped[i]) == lines[i]
    {
      if escaped[i] == "- " + lines[i] { assert escaped[i][2..] == lines[i]; }
    }
  }

  // ---- The envelope ---------------------------------------------------------------------------

  datatype Armor = Armor(begin: string, sigBegin: string, sigEnd: string)

  const PGP := Armor("-----BEGIN PGP SIGNED MESSAGE-----", "-----BEGIN PGP SIGNATURE-----", "-----END PGP SIGNATURE-----")

  datatype EnvelopeError = EnvelopeMissing | HeaderMalformed | SignatureNotAscii

  datatype Parts = Parts(payload: string, signature: string)

  /** `text.split(pat, 1)` when the pattern is there. */
  function Cut(text: string, pat: string): Option<(string, string)> {
    FindIs(text, pat);
    match Find(text, pat)
    case None => None
    case Some(i) => Some((text[..i], text[i + |pat|..]))
  }

  lemma CutFirst(before: string, pat: string, after: string)
    requires forall j :: 0 <= j < |before| ==> !OccursAt(before + pat + after, pat, j)
    ensures Cut(before + pat + after, pat) == Some((before, after))
  {
    var text := before + pat + after;
    assert forall k :: 0 <= k < |pat| ==> text[|before| + k] == pat[k];
    FindFirst(text, pat, |before|);
    assert text[..|before|] == before && text[|before| + |pat|..] == after;
  }

  lemma CutIs(text: string, pat: string)
    ensures Cut(text, pat).None? <==> !Contains(text, pat)
    ensures Cut(text, pat).Some? ==> var (before, after) := Cut(text, pat).value; text == before + pat + after
  {
    FindIs(text, pat);
  }

  /** From the raw body to the payload: strip, close, split into lines, unescape, join. */
  function ReadBody(body: string): string {
    Join(Unescape(SplitLines(RStrip(body) + "\n")))
  }

  predicate Ascii(text: string) { forall i :: 0 <= i < |text| ==> text[i] < '\U{80}' }

  /** `_clearsigned_parts` on decoded text; encoding the signature is the last thing that can raise. */
  function ClearsignedParts(a: Armor, text: string): Result<Parts, EnvelopeError> {
    if !(a.begin <= text) || Cut(text, a.sigBegin).None? || Cut(text, a.sigEnd).None? then Err(EnvelopeMissing)
    else
      var (head, tail) := Cut(text, a.sigBegin).value;
      match Cut(head, "\n\n")
      case None => Err(HeaderMalformed)
      case Some((_, body)) =>
        var signature := a.sigBegin + Signature(a, tail) + a.sigEnd + "\n";
        if Ascii(signature) then Ok(Parts(ReadBody(body), signature)) else Err(SignatureNotAscii)
  }

  function Signature(a: Armor, tail: string): string {
    match Cut(tail, a.sigEnd)
    case None => tail
    case Some((signature, _)) => signature
  }

  /** A marker is ASCII without a newline and starts with two dashes, so no "- " prefix can begin one. */
  ghost predicate Marker(mark: string) {
    |mark| >= 2 && mark[0] == '-' && mark[1] == '-' && OneLine(mark) && Ascii(mark)
  }

  ghost predicate OneLine(text: string) {
    forall i :: 0 <= i < |text| ==> text[i] != '\n'
  }

  ghost predicate GoodArmor(a: Armor) {
    Marker(a.sigBegin) && Marker(a.sigEnd) && OneLine(a.begin) && !Contains(a.begin, a.sigBegin)
  }

  /** Armor headers: no line at all, or lines none of which is empty or holds the signature marker. */
  ghost predicate GoodHeader(a: Armor, header: string) {
    header == "" || (
      && header[0] != '\n' && header[|header| - 1] != '\n'
      && !Contains(header, "\n\n") && !Contains(header, a.sigBegin))
  }

  /** The text in front of the blank line. */
  function Front(a: Armor, header: string): string { if header == "" then a.begin else a.begin + "\n" + header }

  function Enveloped(a: Armor, header: string, escaped: seq<string>, signature: string, after: string): string {
    Front(a, header) + "\n\n" + Join(escaped) + a.sigBegin + signature + a.sigEnd + after
  }

  /** A pattern without newlines occurs on one side of a newline or on the other. */
  lemma AcrossNewline(left: string, right: string, mark: string, i: int)
    requires mark != "" && forall k :: 0 <= k < |mark| ==> mark[k] != '\n'
    ensures OccursAt(left + "\n" + right, mark, i)
            <==> OccursAt(left, mark, i) || OccursAt(right, mark, i - |left| - 1)
  {
    var text := left + "\n" + right;
    if 0 <= i <= |left| < i + |mark| {
      assert mark[|left| - i] != text[i + (|left| - i)];
    } else if i > |left| {
      ShiftOccurs(left + "\n", right, mark, i - |left| - 1);
    }
  }

  lemma ShiftOccurs(before: string, rest: string, mark: string, i: nat)
    ensures OccursAt(before + rest, mark, |before| + i) <==> OccursAt(rest, mark, i)
  {
    assert forall k :: 0 <= k < |rest| ==> (before + rest)[|before| + k] == rest[k];
  }

  ghost predicate SomeLineContains(lines: seq<string>, mark: string) {
    exists i :: 0 <= i < |lines| && Contains(lines[i], mark)
  }

  lemma ContainsAcross(left: string, right: string, mark: string)
    requires mark != "" && forall i :: 0 <= i < |mark| ==> mark[i] != '\n'
    ensures Contains(left + "\n" + right, mark) <==> Contains(left, mark) || Contains(right, mark)
  {
    if i :| OccursAt(left + "\n" + right, mark, i) { AcrossNewline(left, right, mark, i); }
    if i :| OccursAt(right, mark, i) { AcrossNewline(left, right, mark, i + |left| + 1); }
    if i :| OccursAt(left, mark, i) { AcrossNewline(left, right, mark, i); }
  }

  lemma {:induction false} JoinContains(lines: seq<string>, mark: string)
    requires Marker(mark)
    ensures Contains(Join(lines), mark) <==> SomeLineContains(lines, mark)
  {
    if lines == [] {
      assert forall i :: !OccursAt("", mark, i);
    } else {
      ContainsAcross(lines[0], Join(lines[1..]), mark);
      JoinContains(lines[1..], mark);
      if SomeLineContains(lines[1..], mark) {
        var i :| 0 <= i < |lines[1..]| && Contains(lines[1..][i], mark);
        assert Contains(lines[i + 1], mark);
      }
      if SomeLineContains(lines, mark) && !Contains(lines[0], mark) {
        var i :| 0 <= i < |lines| && Contains(lines[i], mark);
        assert lines[1..][i - 1] == lines[i];
      }
    }
  }

  /** Escaping neither hides a marker nor makes one. */
  lemma EscapingKeepsMarkers(line: string, mark: string)
    requires Marker(mark)
    ensures Contains("- " + line, mark) <==> Contains(line, mark)
  {
    var e := "- " + line;
    if i :| OccursAt(e, mark, i) {
      assert mark[0] == e[i + 0] && mark[1] == e[i + 1];
      assert i >= 2;
      assert OccursAt(line, mark, i - 2);
    }
    if i :| OccursAt(line, mark, i) {
      assert OccursAt(e, mark, i + 2);
    }
  }

  lemma EscapedContains(lines: seq<string>, escaped: seq<string>, mark: string)
    requires Marker(mark) && Escapes(lines, escaped)
    ensures SomeLineContains(escaped, mark) <==> SomeLineContains(lines, mark)
  {
    forall i | 0 <= i < |lines|
      ensures Contains(escaped[i], mark) <==> Contains(lines[i], mark)
    {
      EscapingKeepsMarkers(lines[i], mark);
    }
    if i :| 0 <= i < |lines| && Contains(lines[i], mark) { assert Contains(escaped[i], mark); }
    if i :| 0 <= i < |escaped| && Contains(escaped[i], mark) { assert Contains(lines[i], mark); }
  }

  lemma PartContains(text: string, lo: nat, hi: nat, mark: string)
    requires lo <= hi <= |text| && Contains(text[lo..hi], mark)
    ensures Contains(text, mark)
  {
    var i :| OccursAt(text[lo..hi], mark, i);
    forall k | 0 <= k < |mark|
      ensures text[lo + i + k] == mark[k]
    {
      assert text[lo..hi][i + k] == text[lo + i + k];
    }
    assert OccursAt(text, mark, lo + i);
  }

  /** The front of the text holds no marker, and its first blank line is the one that ends the headers. */
  lemma FrontIsClean(a: Armor, header: string)
    requires GoodArmor(a) && GoodHeader(a, header)
    ensures !Contains(Front(a, header), a.sigBegin) && !Contains(Front(a, header), "\n\n")
    ensures Front(a, header) == "" || Front(a, header)[|Front(a, header)| - 1] != '\n'
  {
    if header != "" { ContainsAcross(a.begin, header, a.sigBegin); }
    var front := Front(a, header);
    forall i
      ensures !OccursAt(front, "\n\n", i)
    {
      if 0 <= i < |front| - 1 {
        BlankLineInside(a, header, i);
      }
    }
  }

  lemma BlankLineInside(a: Armor, header: string, i: nat)
    requires GoodArmor(a) && GoodHeader(a, header) && i + 1 < |Front(a, header)|
    ensures !OccursAt(Front(a, header), "\n\n", i)
  {
    var front, n := Front(a, header), |a.begin| + 1;
    assert "\n\n"[0] == '\n' && "\n\n"[1] == '\n';
    if i < |a.begin| {
      assert front[i + 0] == a.begin[i];
    } else if i == |a.begin| {
      assert front[i + 1] == header[0];
    } else {
      assert !OccursAt(header, "\n\n", i - n);
      assert front[i + 0] == header[i - n + 0] && front[i + 1] == header[i - n + 1];
    }
  }

  /** Wherever the text is cut behind the headers, the same blank line is found. */
  lemma HeaderEndFound(front: string, rest: string)
    requires (front == "" || front[|front| - 1] != '\n') && !Contains(front, "\n\n")
    ensures Cut(front + "\n\n" + rest, "\n\n") == Some((front, rest))
  {
    var text := front + "\n\n" + rest;
    assert text[|front| + 0] == '\n' && text[|front| + 1] == '\n';
    assert OccursAt(text, "\n\n", |front|);
    forall j | 0 <= j < |front|
      ensures !OccursAt(text, "\n\n", j)
    {
      assert text[j + 0] == front[j];
      if j + 2 <= |front| {
        assert text[j + 1] == front[j + 1] && !OccursAt(front, "\n\n", j);
        assert !(front[j + 0] == '\n' && front[j + 1] == '\n') by {
          assert "\n\n"[0] == '\n' && "\n\n"[1] == '\n';
          assert |"\n\n"| == 2;
        }
      }
    }
    CutFirst(front, "\n\n", rest);
  }

  /** Without a marker in the body, the first marker is the real one. */
  lemma MarkerFound(before: string, mark: string, rest: string)
    requires Marker(mark) && before != "" && before[|before| - 1] == '\n' && !Contains(before, mark)
    ensures Cut(before + mark + rest, mark) == Some((before, rest))
  {
    var text := before + mark + rest;
    var left, right := before[..|before| - 1], mark + rest;
    assert text == left + "\n" + right;
    forall j | 0 <= j < |before|
      ensures !OccursAt(text, mark, j)
    {
      AcrossNewline(left, right, mark, j);
      assert !OccursAt(before, mark, j);
      PrefixOccurs(before, |before| - 1, mark, j);
    }
    CutFirst(before, mark, rest);
  }

  lemma PrefixOccurs(text: string, n: nat, mark: string, j: int)
    requires n <= |text|
    ensures OccursAt(text[..n], mark, j) ==> OccursAt(text, mark, j)
  {
    assert forall k :: 0 <= k < n ==> text[..n][k] == text[k];
  }

  /** The parts of an enveloped text in which no line of the body holds the marker. */
  lemma CleanEnvelope(a: Armor, header: string, escaped: seq<string>, signature: string, after: string)
    requires GoodArmor(a) && GoodHeader(a, header) && !SomeLineContains(escaped, a.sigBegin)
    requires Cut(signature + a.sigEnd + after, a.sigEnd) == Some((signature, after))
    ensures ClearsignedParts(a, Enveloped(a, header, escaped, signature, after))
            == if Ascii(signature) then Ok(Parts(ReadBody(Join(escaped)), a.sigBegin + signature + a.sigEnd + "\n"))
               else Err(SignatureNotAscii)
    ensures AllPlain(escaped) ==>
              ReadBody(Join(escaped)) == Join(Unescape(if Trim(escaped) == [] then [""] else Trim(escaped)))
  {
    var rest := signature + a.sigEnd + after;
    var head := Front(a, header) + "\n\n" + Join(escaped);
    EnvelopeCuts(a, header, escaped, rest);
    Regroup(head, a.sigBegin, signature, a.sigEnd, after);
    AsciiParts(a.sigBegin, signature, a.sigEnd);
    if AllPlain(escaped) {
      StripTrims(escaped);
      SplitUndoesJoin(if Trim(escaped) == [] then [""] else Trim(escaped));
    }
  }

  lemma AsciiParts(before: string, middle: string, after: string)
    requires Ascii(before) && Ascii(after)
    ensures Ascii(before + middle + after + "\n") <==> Ascii(middle)
  {
    var text := before + middle + after + "\n";
    assert forall i :: 0 <= i < |middle| ==> text[|before| + i] == middle[i];
  }

  lemma Regroup(a: string, b: string, c: string, d: string, e: string)
    ensures a + b + c + d + e == a + b + (c + d + e)
  {}

  /** Where an enveloped text is cut. */
  lemma EnvelopeCuts(a: Armor, header: string, escaped: seq<string>, rest: string)
    requires GoodArmor(a) && GoodHeader(a, header) && !SomeLineContains(escaped, a.sigBegin)
    requires Cut(rest, a.sigEnd).Some?
    ensures
      var head := Front(a, header) + "\n\n" + Join(escaped);
      var text := head + a.sigBegin + rest;
      && a.begin <= text && Cut(text, a.sigBegin) == Some((head, rest)) && Cut(text, a.sigEnd).Some?
      && Cut(head, "\n\n") == Some((Front(a, header), Join(escaped)))
  {
    var head := Front(a, header) + "\n\n" + Join(escaped);
    HeadIsReady(a, header, escaped);
    MarkerFound(head, a.sigBegin, rest);
    EndIsThere(head + a.sigBegin, rest, a.sigEnd);
    HeaderEndFound(Front(a, header), Join(escaped));
    Regroup(Front(a, header), "\n\n", Join(escaped), a.sigBegin, rest);
  }

  lemma HeadIsReady(a: Armor, header: string, escaped: seq<string>)
    requires GoodArmor(a) && GoodHeader(a, header) && !SomeLineContains(escaped, a.sigBegin)
    ensures
      var front := Front(a, header);
      var head := front + "\n\n" + Join(escaped);
      && head != "" && head[|head| - 1] == '\n' && !Contains(head, a.sigBegin)
      && (front == "" || front[|front| - 1] != '\n') && !Contains(front, "\n\n")
  {
    FrontIsClean(a, header);
    JoinContains(escaped, a.sigBegin);
    assert Front(a, header) + "\n\n" + Join(escaped) == (Front(a, header) + "\n" + "") + "\n" + Join(escaped);
    assert forall i :: !OccursAt("", a.sigBegin, i);
    ContainsAcross(Front(a, header), "", a.sigBegin);
    ContainsAcross(Front(a, header) + "\n" + "", Join(escaped), a.sigBegin);
  }

  lemma EndIsThere(before: string, rest: string, mark: string)
    requires Cut(rest, mark).Some?
    ensures Cut(before + rest, mark).Some?
  {
    CutIs(rest, mark);
    var i :| OccursAt(rest, mark, i);
    ShiftOccurs(before, rest, mark, i);
    CutIs(before + rest, mark);
  }

  /** A payload never holds the signature marker, because the text was cut at its first occurrence. */
  lemma PayloadHasNoMarker(a: Armor, text: string)
    requires GoodArmor(a) && ClearsignedParts(a, text).Ok?
    ensures !Contains(ClearsignedParts(a, text).value.payload, a.sigBegin)
  {
    HeadBeforeMarker(text, a.sigBegin);
    var (head, tail) := Cut(text, a.sigBegin).value;
    CutIs(head, "\n\n");
    var (front, body) := Cut(head, "\n\n").value;
    var from := |front| + 2;
    assert body == head[from..|head|];
    if Contains(head[from..|head|], a.sigBegin) { PartContains(head, from, |head|, a.sigBegin); }
    StrippedHasNoMarker(body, a.sigBegin);
    UnescapedHasNoMarker(SplitLines(RStrip(body) + "\n"), a.sigBegin);
  }

  lemma StrippedHasNoMarker(body: string, mark: string)
    requires Marker(mark) && !Contains(body, mark)
    ensures forall i :: 0 <= i < |SplitLines(RStrip(body) + "\n")| ==> !Contains(SplitLines(RStrip(body) + "\n")[i], mark)
  {
    var stripped := RStrip(body);
    StripIsPrefix(body);
    assert stripped == body[0..|stripped|];
    if Contains(stripped, mark) { PartContains(body, 0, |stripped|, mark); }
    assert forall i :: !OccursAt("", mark, i);
    ContainsAcross(stripped, "", mark);
    assert stripped + "\n" == stripped + "\n" + "";
    LinesOfClean(stripped + "\n", mark);
  }

  lemma UnescapedHasNoMarker(lines: seq<string>, mark: string)
    requires Marker(mark) && forall i :: 0 <= i < |lines| ==> !Contains(lines[i], mark)
    ensures !Contains(Join(Unescape(lines)), mark)
  {
    JoinContains(Unescape(lines), mark);
    forall i | 0 <= i < |lines|
      ensures !Contains(Unescape(lines)[i], mark)
    {
      if "- " <= lines[i] {
        assert lines[i][2..] == lines[i][2..|lines[i]|];
        if Contains(lines[i][2..|lines[i]|], mark) { PartContains(lines[i], 2, |lines[i]|, mark); }
      }
    }
  }

  lemma HeadBeforeMarker(text: string, mark: string)
    requires mark != "" && Cut(text, mark).Some?
    ensures !Contains(Cut(text, mark).value.0, mark)
  {
    FindIs(text, mark);
    var cut := Find(text, mark).value;
    forall i
      ensures !OccursAt(text[..cut], mark, i)
    {
      PrefixOccurs(text, cut, mark, i);
    }
  }

  lemma {:induction false} StripIsPrefix(text: string)
    ensures RStrip(text) <= text
  {
    if text != "" { StripIsPrefix(text[..|text| - 1]); }
  }

  lemma {:induction false} LinesOfClean(text: string, mark: string)
    requires mark != "" && !Contains(text, mark)
    ensures forall i :: 0 <= i < |SplitLines(text)| ==> !Contains(SplitLines(text)[i], mark)
    decreases |text|
  {
    if text != "" && BreakAt(text).Some? {
      var i := BreakAt(text).value;
      var next := i + BreakWidth(text, i);
      if Contains(text[0..i], mark) { PartContains(text, 0, i, mark); }
      assert text[..i] == text[0..i];
      if Contains(text[next..|text|], mark) { PartContains(text, next, |text|, mark); }
      assert text[next..] == text[next..|text|];
      LinesOfClean(text[next..], mark);
    }
  }

  /** Joined lines hold no break but the newlines that join them. */
  lemma {:induction false} JoinedBreaks(lines: seq<string>)
    requires AllPlain(lines)
    ensures forall k :: 0 <= k < |Join(lines)| && Join(lines)[k] != '\n' ==> !BreakChar(Join(lines)[k])
  {
    if lines != [] { JoinedBreaks(lines[1..]); }
  }

  lemma {:induction false} LineInJoin(lines: seq<string>, i: nat, c: char)
    requires i < |lines| && c in lines[i]
    ensures c in Join(lines)
  {
    if i > 0 { LineInJoin(lines[1..], i - 1, c); }
  }

  lemma UnescapedIsPlain(lines: seq<string>)
    requires AllPlain(lines)
    ensures AllPlain(Unescape(lines))
  {
    forall i | 0 <= i < |lines|
      ensures Plain(Unescape(lines)[i])
    {
      if "- " <= lines[i] { assert forall j :: 0 <= j < |lines[i]| - 2 ==> lines[i][2..][j] == lines[i][j + 2]; }
    }
  }

  /** What was read can only equal lines in which there was nothing to break. */
  lemma ReadMeansPlain(body: string, lines: seq<string>)
    requires ReadBody(body) == Join(lines) && forall i :: 0 <= i < |lines| ==> OneLine(lines[i])
    ensures AllPlain(lines)
  {
    var text := RStrip(body) + "\n";
    SplitIsPlain(text);
    UnescapedIsPlain(SplitLines(text));
    JoinedBreaks(Unescape(SplitLines(text)));
    forall i, k | 0 <= i < |lines| && 0 <= k < |lines[i]|
      ensures !BreakChar(lines[i][k])
    {
      LineInJoin(lines, i, lines[i][k]);
      var at :| 0 <= at < |Join(lines)| && Join(lines)[at] == lines[i][k];
    }
  }

  lemma JoinInjective(a: seq<string>, b: seq<string>)
    requires AllPlain(a) && AllPlain(b) && Join(a) == Join(b)
    ensures a == b
  {
    SplitUndoesJoin(a);
    SplitUndoesJoin(b);
  }

  /** The lines survive stripping: the last one as written is not empty, or it is all there is. */
  ghost predicate EndsFirmly(escaped: seq<string>) {
    escaped != [] && (escaped[|escaped| - 1] != "" || |escaped| == 1)
  }

  /**
   * When the payload that was signed is the payload that is read. Dash escaping alone does not suffice: the
   * parser cuts at the first signature marker anywhere, so no line may contain it, escaped or not; trailing
   * empty lines are dropped; a break other than a newline is rewritten as one; and a signature that is not
   * ASCII raises.
   */
  lemma PayloadSurvivesIff(
    a: Armor, header: string, lines: seq<string>, escaped: seq<string>, signature: string, after: string)
    requires GoodArmor(a) && GoodHeader(a, header) && Escapes(lines, escaped)
    requires forall i :: 0 <= i < |lines| ==> OneLine(lines[i])
    requires Cut(signature + a.sigEnd + after, a.sigEnd) == Some((signature, after))
    ensures
      var r := ClearsignedParts(a, Enveloped(a, header, escaped, signature, after));
      (r.Ok? && r.value.payload == Join(lines))
      <==> AllPlain(lines) && !SomeLineContains(lines, a.sigBegin) && EndsFirmly(escaped) && Ascii(signature)
  {
    var text := Enveloped(a, header, escaped, signature, after);
    var r := ClearsignedParts(a, text);
    EscapedContains(lines, escaped, a.sigBegin);
    JoinContains(lines, a.sigBegin);
    if SomeLineContains(lines, a.sigBegin) {
      if r.Ok? { PayloadHasNoMarker(a, text); }
    } else {
      CleanEnvelope(a, header, escaped, signature, after);
      if AllPlain(lines) {
        EscapedIsPlain(lines, escaped);
        TrimmedPayload(lines, escaped);
      } else if ReadBody(Join(escaped)) == Join(lines) {
        ReadMeansPlain(Join(escaped), lines);
      }
    }
  }

  lemma EscapedIsPlain(lines: seq<string>, escaped: seq<string>)
    requires AllPlain(lines) && Escapes(lines, escaped)
    ensures AllPlain(escaped)
  {
    forall i, j | 0 <= i < |lines| && 0 <= j < |escaped[i]|
      ensures !BreakChar(escaped[i][j])
    {
      if escaped[i] == "- " + lines[i] && j >= 2 { assert escaped[i][j] == lines[i][j - 2]; }
    }
  }

  lemma TrimmedPayload(lines: seq<string>, escaped: seq<string>)
    requires AllPlain(lines) && AllPlain(escaped) && Escapes(lines, escaped)
    ensures Join(Unescape(if Trim(escaped) == [] then [""] else Trim(escaped))) == Join(lines) <==> EndsFirmly(escaped)
  {
    var kept := if Trim(escaped) == [] then [""] else Trim(escaped);
    UnescapeUndoesEscape(lines, escaped);
    assert AllPlain(kept);
    if EndsFirmly(escaped) {
      if |escaped| == 1 && escaped[0] == "" {
        assert escaped == [""];
        assert Trim(escaped) == [];
        assert kept == escaped;
      } else {
        assert Trim(escaped) == escaped;
      }
    } else {
      assert |kept| != |escaped|;
      if Join(Unescape(kept)) == Join(lines) { JoinInjective(Unescape(kept), lines); }
    }
  }

  lemma NotInside(begin: string, mark: string)
    requires |begin| == 34 && |mark| == 29 && begin[19] == 'E' && mark[19] == 'A'
    requires mark[5] == 'B' && forall i :: 6 <= i <= 10 ==> begin[i] != 'B'
    ensures !Contains(begin, mark)
  {
    forall i
      ensures !OccursAt(begin, mark, i)
    {
      if i == 0 {
        assert begin[0 + 19] != mark[19];
      } else if 1 <= i <= 5 {
        assert begin[i + 5] != mark[5];
      }
    }
  }

  lemma BeginLetters(text: string)
    requires text == PGP.begin
    ensures |text| == 34 && text[19] == 'E' && forall i :: 6 <= i <= 10 ==> text[i] != 'B'
  {}

  lemma BeginIsOneLine()
    ensures OneLine(PGP.begin)
  {}

  /** Both signature markers are printable ASCII. */
  predicate Printable(c: char) { ' ' <= c <= '~' }

  lemma PrintableMarker(mark: string)
    requires |mark| >= 2 && mark[0] == '-' && mark[1] == '-' && forall i :: 0 <= i < |mark| ==> Printable(mark[i])
    ensures Marker(mark)
  {}

  lemma SigBeginIsMarker(mark: string)
    requires mark == PGP.sigBegin
    ensures Marker(mark)
  {
    assert forall i :: 0 <= i < |mark| ==> Printable(mark[i]);
    PrintableMarker(mark);
  }

  lemma SigEndIsMarker(mark: string)
    requires mark == PGP.sigEnd
    ensures Marker(mark)
  {
    assert forall i :: 0 <= i < |mark| ==> Printable(mark[i]);
    PrintableMarker(mark);
  }

  /** The markers of OpenPGP are as required. */
  lemma PgpArmorIsGood()
    ensures GoodArmor(PGP)
  {
    BeginIsOneLine();
    SigBeginIsMarker(PGP.sigBegin);
    SigEndIsMarker(PGP.sigEnd);
    BeginLetters(PGP.begin);
    NotInside(PGP.begin, PGP.sigBegin);
  }

  /** A line that merely mentions the marker is enough to lose the payload, though it needs no escaping. */
  lemma MentionedMarkerLosesPayload(
    a: Armor, header: string, signature: string, after: string, line: string, lines: seq<string>)
    requires GoodArmor(a) && GoodHeader(a, header) && line == "x" + a.sigBegin && lines == [line]
    requires Cut(signature + a.sigEnd + after, a.sigEnd) == Some((signature, after))
    ensures
      var r := ClearsignedParts(a, Enveloped(a, header, lines, signature, after));
      Escapes(lines, lines) && !(r.Ok? && r.value.payload == Join(lines))
  {
    MentionedLines(a.sigBegin, line, lines);
    PayloadSurvivesIff(a, header, lines, lines, signature, after);
  }

  lemma MentionedLines(mark: string, line: string, lines: seq<string>)
    requires Marker(mark) && line == "x" + mark && lines == [line]
    ensures Escapes(lines, lines) && SomeLineContains(lines, mark) && forall i :: 0 <= i < |lines| ==> OneLine(lines[i])
  {
    MentionIsOneLine(mark, line);
    EscapesItself(line);
    Mention(mark, line, lines);
  }

  lemma EscapesItself(line: string)
    requires line != "" && line[0] != '-'
    ensures Escapes([line], [line])
  {
    assert !("-" <= line) by { assert "-"[0] == '-'; }
  }

  lemma Mention(mark: string, line: string, lines: seq<string>)
    requires line == "x" + mark && lines == [line]
    ensures SomeLineContains(lines, mark)
  {
    assert OccursAt(lines[0], mark, 1);
    assert Contains(lines[0], mark);
  }

  lemma MentionIsOneLine(mark: string, line: string)
    requires OneLine(mark) && line == "x" + mark
    ensures OneLine(line) && line[0] == 'x'
  {
    assert forall j :: 1 <= j < |line| ==> line[j] == mark[j - 1];
  }

  // ---- Three inputs on which the code loses what was signed -------------------------------------

  const HASH_HEADER := "Hash: SHA256"

  lemma HeaderIsGood(header: string)
    requires header == HASH_HEADER
    ensures GoodHeader(PGP, header)
  {
    assert |header| == 12 && header[0] == 'H' && header[11] == '6';
    assert "\n\n"[0] == '\n';
    assert |PGP.sigBegin| == 29;
    forall i | 0 <= i < 12
      ensures header[i] != '\n'
    {}
  }

  /** An end marker that starts with a dash is found behind text that holds none. */
  lemma EndFollows(signature: string)
    requires forall i :: 0 <= i < |signature| ==> signature[i] != '-'
    ensures Cut(signature + PGP.sigEnd + "", PGP.sigEnd) == Some((signature, ""))
  {
    SigEndIsMarker(PGP.sigEnd);
    var text := signature + PGP.sigEnd + "";
    forall j | 0 <= j < |signature|
      ensures !OccursAt(text, PGP.sigEnd, j)
    {
      assert text[j + 0] == signature[j];
    }
    CutFirst(signature, PGP.sigEnd, "");
  }

  /** A line with U+2028 in it needs no escaping, and is read back as two lines. */
  lemma LineSeparatorLosesPayload(line: string)
    requires line == "a\U{2028}b"
    ensures
      var r := ClearsignedParts(PGP, Enveloped(PGP, HASH_HEADER, [line], "\n", ""));
      Escapes([line], [line]) && !(r.Ok? && r.value.payload == Join([line]))
  {
    var lines := [line];
    assert lines[0][1] == '\U{2028}' && BreakChar(lines[0][1]);
    assert line[0] == 'a' && OneLine(lines[0]);
    EscapesItself(line);
    PgpArmorIsGood();
    HeaderIsGood(HASH_HEADER);
    EndFollows("\n");
    PayloadSurvivesIff(PGP, HASH_HEADER, lines, lines, "\n", "");
  }

  /** A signature text with an accent in it raises, whatever the payload. */
  lemma AccentInSignatureRaises(signature: string)
    requires signature == "\U{E9}"
    ensures ClearsignedParts(PGP, Enveloped(PGP, HASH_HEADER, [], signature, "")) == Err(SignatureNotAscii)
  {
    PgpArmorIsGood();
    HeaderIsGood(HASH_HEADER);
    EndFollows(signature);
    assert signature[0] == '\U{E9}';
    CleanEnvelope(PGP, HASH_HEADER, [], signature, "");
  }
}
