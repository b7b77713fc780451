// The direct-link ICE filter: which candidates pass, and the line filter applied
// to the SDP text of a remote answer.
module SdpFilter {
  import opened Common

  datatype DirectIpv4Link = DirectIpv4Link(serverIp: string, clientIp: string)

  function LowerChar(c: char): char {
    if 'A' <= c <= 'Z' then ((c as int) + 32) as char else c
  }

  function ToLowerAscii(s: string): string {
    seq(|s|, i requires 0 <= i < |s| => LowerChar(s[i]))
  }

  predicate Contains(s: string, part: string) {
    |part| <= |s| && (s[..|part|] == part || (s != [] && Contains(s[1..], part)))
  }

  // Only UDP host candidates at the required address pass.
  predicate DirectCandidate(candidate: string, requiredIp: string) {
    var lower := ToLowerAscii(candidate);
    Contains(lower, " udp ") && Contains(lower, " typ host") && Contains(candidate, " " + requiredIp + " ")
  }

  predicate AllowRemote(link: Option<DirectIpv4Link>, candidate: string) {
    link.None? || DirectCandidate(candidate, link.value.clientIp)
  }

  predicate AllowLocal(link: Option<DirectIpv4Link>, candidate: string) {
    link.None? || DirectCandidate(candidate, link.value.serverIp)
  }

  const CANDIDATE_PREFIX := "a=candidate:"

  // Does the filter keep this line, already stripped of its line end?
  predicate Keeps(link: DirectIpv4Link, line: string) {
    CANDIDATE_PREFIX <= line ==> AllowRemote(Some(link), line)
  }

  // ------------------------------------------------------------ reading lines

  function NewlineAt(text: string): (i: nat)
    ensures i <= |text|
    ensures '\n' !in text[..i]
    ensures i < |text| ==> text[i] == '\n'
  {
    if text == [] || text[0] == '\n' then 0
    else
      assert text[..NewlineAt(text[1..]) + 1] == [text[0]] + text[1..][..NewlineAt(text[1..])];
      NewlineAt(text[1..]) + 1
  }

  // What successive getline calls return: a final newline starts no further line.
  function Lines(text: string): seq<string>
    decreases |text|
  {
    if text == [] then []
    else
      var i := NewlineAt(text);
      [text[..i]] + Lines(if i < |text| then text[i + 1..] else [])
  }

  function StripLineEnd(line: string): string {
    if line != [] && line[|line| - 1] == '\r' then line[..|line| - 1] else line
  }

  function Normalized(lines: seq<string>): seq<string> {
    if lines == [] then [] else [StripLineEnd(lines[0])] + Normalized(lines[1..])
  }

  function Kept(link: DirectIpv4Link, lines: seq<string>): seq<string> {
    if lines == [] then []
    else (if Keeps(link, lines[0]) then [lines[0]] else []) + Kept(link, lines[1..])
  }

  function Rendered(lines: seq<string>): string {
    if lines == [] then [] else lines[0] + "\r\n" + Rendered(lines[1..])
  }

  // The lines of an answer that survive, and the text the filter produces.
  function Survivors(link: DirectIpv4Link, text: string): seq<string> {
    Kept(link, Normalized(Lines(text)))
  }

  function Filtered(link: Option<DirectIpv4Link>, text: string): string {
    if link.None? then text else Rendered(Survivors(link.value, text))
  }

  // The filter itself: one pass over the text, line by line.
  method FilterRemoteAnswer(link: Option<DirectIpv4Link>, sdp: string) returns (output: string)
    ensures output == Filtered(link, sdp)
  {
    if link.None? {
      return sdp;
    }
    output := "";
    var rest := sdp;
    while rest != []
      invariant Filtered(link, sdp) == output + Rendered(Survivors(link.value, rest))
      decreases |rest|
    {
      var i := NewlineAt(rest);
      var line := rest[..i];
      var next := if i < |rest| then rest[i + 1..] else [];
      var normalizedLine := StripLineEnd(line);
      SurvivorsStep(link.value, rest, line, next);
      if !(CANDIDATE_PREFIX <= normalizedLine && !AllowRemote(link, normalizedLine)) {
        assert Keeps(link.value, normalizedLine);
        RenderedCons(normalizedLine, Survivors(link.value, next), output);
        output := output + (normalizedLine + "\r\n");
      } else {
        assert !Keeps(link.value, normalizedLine);
        assert [] + Survivors(link.value, next) == Survivors(link.value, next);
      }
      rest := next;
    }
    assert Survivors(link.value, []) == [];
  }

  lemma RenderedCons(line: string, lines: seq<string>, before: string)
    ensures before + Rendered([line] + lines) == (before + (line + "\r\n")) + Rendered(lines)
  {
    assert ([line] + lines)[1..] == lines;
  }

  lemma SurvivorsStep(link: DirectIpv4Link, rest: string, line: string, next: string)
    requires rest != [] && line == rest[..NewlineAt(rest)]
    requires next == if NewlineAt(rest) < |rest| then rest[NewlineAt(rest) + 1..] else []
    ensures Survivors(link, rest)
            == (if Keeps(link, StripLineEnd(line)) then [StripLineEnd(line)] else []) + Survivors(link, next)
  {
    var more := Lines(next);
    assert Lines(rest) == [line] + more;
    assert ([line] + more)[1..] == more;
    var head := StripLineEnd(line);
    assert Normalized(Lines(rest)) == [head] + Normalized(more);
    assert ([head] + Normalized(more))[1..] == Normalized(more);
  }

  // ---------------------------------------------------------------- properties

  lemma {:induction false} KeptAppend(link: DirectIpv4Link, lines: seq<string>, line: string)
    ensures Kept(link, lines + [line]) == Kept(link, lines) + if Keeps(link, line) then [line] else []
  {
    if lines == [] {
      assert [] + [line] == [line];
    } else {
      assert (lines + [line])[1..] == lines[1..] + [line];
      KeptAppend(link, lines[1..], line);
    }
  }

  // The survivors are exactly the lines that are no candidates or that pass, each
  // once and in the original order: `at` says where each one stood.
  lemma {:induction false} KeptExactly(link: DirectIpv4Link, lines: seq<string>) returns (at: seq<nat>)
    ensures |at| == |Kept(link, lines)|
    ensures forall i :: 0 <= i < |at| ==> at[i] < |lines| && Kept(link, lines)[i] == lines[at[i]]
    ensures forall i, j :: 0 <= i < j < |at| ==> at[i] < at[j]
    ensures forall k :: 0 <= k < |lines| ==> (k in at <==> Keeps(link, lines[k]))
    decreases |lines|
  {
    at := [];
    if lines != [] {
      var n := |lines| - 1;
      assert lines == lines[..n] + [lines[n]];
      KeptAppend(link, lines[..n], lines[n]);
      at := KeptExactly(link, lines[..n]);
      forall k | 0 <= k < n ensures k in at <==> Keeps(link, lines[k]) {
        assert lines[..n][k] == lines[k];
      }
      if Keeps(link, lines[n]) {
        at := at + [n];
      }
    }
  }

  ghost predicate NoNewline(lines: seq<string>) {
    forall i :: 0 <= i < |lines| ==> '\n' !in lines[i]
  }

  lemma {:induction false} LinesHaveNoNewline(text: string)
    ensures NoNewline(Lines(text))
    decreases |text|
  {
    if text != [] {
      var i := NewlineAt(text);
      LinesHaveNoNewline(if i < |text| then text[i + 1..] else []);
    }
  }

  lemma {:induction false} StripKeepsNoNewline(lines: seq<string>)
    requires NoNewline(lines)
    ensures NoNewline(Normalized(lines))
  {
    if lines != [] {
      StripKeepsNoNewline(lines[1..]);
    }
  }

  lemma SurvivorsHaveNoNewline(link: DirectIpv4Link, text: string)
    ensures NoNewline(Survivors(link, text))
  {
    LinesHaveNoNewline(text);
    StripKeepsNoNewline(Lines(text));
    var at := KeptExactly(link, Normalized(Lines(text)));
  }

  lemma {:induction false} NewlineFound(text: string, k: nat)
    requires k < |text| && text[k] == '\n' && '\n' !in text[..k]
    ensures NewlineAt(text) == k
  {
    if k > 0 {
      assert text[0] == text[..k][0];
      assert forall c :: c in text[1..][..k - 1] ==> c in text[..k];
      NewlineFound(text[1..], k - 1);
    }
  }

  lemma FirstNewline(line: string, rest: string)
    requires '\n' !in line
    ensures NewlineAt(line + "\r\n" + rest) == |line| + 1
  {
    var text := line + "\r\n" + rest;
    assert text[..|line| + 1] == line + "\r";
    NewlineFound(text, |line| + 1);
  }

  lemma FirstLine(line: string, rest: string)
    requires '\n' !in line
    ensures Lines(line + "\r\n" + rest) == [line + "\r"] + Lines(rest)
  {
    var text := line + "\r\n" + rest;
    FirstNewline(line, rest);
    assert text[..|line| + 1] == line + "\r";
    assert text[|line| + 2..] == rest;
  }

  lemma NormalizedStep(line: string, lines: seq<string>)
    ensures Normalized([line + "\r"] + lines) == [line] + Normalized(lines)
  {
    assert ([line + "\r"] + lines)[1..] == lines;
    assert (line + "\r")[..|line|] == line;
  }

  // Splitting a rendered text gives back its lines.
  lemma {:induction false} RenderedRoundTrip(lines: seq<string>)
    requires NoNewline(lines)
    ensures Normalized(Lines(Rendered(lines))) == lines
  {
    if lines != [] {
      var rest := Rendered(lines[1..]);
      FirstLine(lines[0], rest);
      NormalizedStep(lines[0], Lines(rest));
      RenderedRoundTrip(lines[1..]);
      assert lines == [lines[0]] + lines[1..];
    }
  }

  // Re-reading the filtered text gives exactly the surviving lines, in order.
  lemma FilterKeepsExactlyTheSurvivors(link: DirectIpv4Link, text: string)
    ensures Normalized(Lines(Filtered(Some(link), text))) == Survivors(link, text)
  {
    SurvivorsHaveNoNewline(link, text);
    RenderedRoundTrip(Survivors(link, text));
  }

  lemma {:induction false} KeptTwice(link: DirectIpv4Link, lines: seq<string>)
    ensures Kept(link, Kept(link, lines)) == Kept(link, lines)
  {
    if lines != [] {
      KeptTwice(link, lines[1..]);
      if Keeps(link, lines[0]) {
        assert Kept(link, lines)[1..] == Kept(link, lines[1..]);
      } else {
        assert Kept(link, lines) == Kept(link, lines[1..]);
      }
    }
  }

  // Filtering twice is filtering once, for every text and every link setting.
  lemma FilterIsIdempotent(link: Option<DirectIpv4Link>, text: string)
    ensures Filtered(link, Filtered(link, text)) == Filtered(link, text)
  {
    if link.Some? {
      FilterKeepsExactlyTheSurvivors(link.value, text);
      KeptTwice(link.value, Normalized(Lines(text)));
    }
  }

  // In a rendered text every newline follows a carriage return, and the last
  // character is a newline.
  lemma {:induction false} RenderedEndsInCrlf(lines: seq<string>, i: nat)
    requires NoNewline(lines) && i < |Rendered(lines)|
    ensures Rendered(lines)[i] == '\n' ==> i > 0 && Rendered(lines)[i - 1] == '\r'
    ensures Rendered(lines)[|Rendered(lines)| - 1] == '\n'
  {
    var n := |lines[0]| + 2;
    var rest := Rendered(lines[1..]);
    var head := lines[0] + "\r\n";
    assert Rendered(lines) == head + rest;
    if i >= n {
      RenderedEndsInCrlf(lines[1..], i - n);
      assert rest[0] != '\n' by {
        RenderedEndsInCrlf(lines[1..], 0);
      }
    } else {
      assert Rendered(lines)[i] == head[i];
      assert i < |lines[0]| ==> head[i] == lines[0][i];
      if rest != [] {
        RenderedEndsInCrlf(lines[1..], 0);
      }
    }
  }

  // Every line of the filter's output ends in CRLF, whatever the line ends of its
  // input: each newline follows a carriage return and no line is left open.
  lemma EveryLineEndsInCrlf(link: DirectIpv4Link, text: string, i: nat)
    requires i < |Filtered(Some(link), text)|
    ensures var output := Filtered(Some(link), text);
      && (output[i] == '\n' ==> i > 0 && output[i - 1] == '\r')
      && |output| >= 2 && output[|output| - 2..] == "\r\n"
  {
    SurvivorsHaveNoNewline(link, text);
    var output := Filtered(Some(link), text);
    RenderedEndsInCrlf(Survivors(link, text), i);
    RenderedEndsInCrlf(Survivors(link, text), |output| - 1);
  }

  // ------------------------------------------------ in terms of the text alone

  // How getline splits a text: at each newline; a last line may be open, and then
  // it is not empty.
  ghost predicate IsSplit(text: string, lines: seq<string>) {
    if lines == [] then text == []
    else
      && '\n' !in lines[0]
      && if |text| <= |lines[0]| then text == lines[0] && text != [] && |lines| == 1
         else text[..|lines[0]| + 1] == lines[0] + "\n" && IsSplit(text[|lines[0]| + 1..], lines[1..])
  }

  ghost predicate StandsAt(s: string, part: string, i: int) {
    0 <= i <= |s| - |part| && forall k :: 0 <= k < |part| ==> s[i + k] == part[k]
  }

  // The part is in lower case, the text in any case.
  ghost predicate StandsIgnoringCase(s: string, part: string, i: int) {
    && 0 <= i <= |s| - |part|
    && forall k :: 0 <= k < |part| ==>
         s[i + k] == part[k] || ('A' <= s[i + k] <= 'Z' && s[i + k] as int + 32 == part[k] as int)
  }

  // UDP, host, and the address as a word of its own, each somewhere in the text.
  ghost predicate PassesDirect(candidate: string, ip: string) {
    && (exists i :: StandsIgnoringCase(candidate, " udp ", i))
    && (exists i :: StandsIgnoringCase(candidate, " typ host", i))
    && (exists i :: StandsAt(candidate, " " + ip + " ", i))
  }

  lemma StandsFirst(s: string, part: string)
    requires |part| <= |s|
    ensures StandsAt(s, part, 0) <==> s[..|part|] == part
  {
    assert forall k :: 0 <= k < |part| ==> s[0 + k] == s[..|part|][k];
  }

  lemma {:induction false} ContainsSomewhere(s: string, part: string)
    ensures Contains(s, part) <==> exists i :: StandsAt(s, part, i)
  {
    if |part| <= |s| {
      StandsFirst(s, part);
      if s[..|part|] != part && s != [] {
        ContainsSomewhere(s[1..], part);
        if j :| StandsAt(s[1..], part, j) {
          assert StandsAt(s, part, j + 1);
        }
        if i :| StandsAt(s, part, i) {
          assert i > 0 && StandsAt(s[1..], part, i - 1);
        }
      }
    }
  }

  lemma LowerStands(s: string, part: string, i: int)
    requires forall k :: 0 <= k < |part| ==> !('A' <= part[k] <= 'Z')
    ensures StandsAt(ToLowerAscii(s), part, i) <==> StandsIgnoringCase(s, part, i)
  {
    if 0 <= i <= |s| - |part| {
      forall k | 0 <= k < |part|
        ensures ToLowerAscii(s)[i + k] == part[k]
                <==> s[i + k] == part[k] || ('A' <= s[i + k] <= 'Z' && s[i + k] as int + 32 == part[k] as int)
      {
        assert ToLowerAscii(s)[i + k] == LowerChar(s[i + k]);
      }
    }
  }

  lemma ContainsIgnoringCase(s: string, part: string)
    requires forall k :: 0 <= k < |part| ==> !('A' <= part[k] <= 'Z')
    ensures Contains(ToLowerAscii(s), part) <==> exists i :: StandsIgnoringCase(s, part, i)
  {
    ContainsSomewhere(ToLowerAscii(s), part);
    forall i ensures StandsAt(ToLowerAscii(s), part, i) <==> StandsIgnoringCase(s, part, i) {
      LowerStands(s, part, i);
    }
  }

  // What the direct-link test asks of a candidate.
  lemma DirectCandidateInWords(candidate: string, ip: string)
    ensures DirectCandidate(candidate, ip) <==> PassesDirect(candidate, ip)
  {
    ContainsIgnoringCase(candidate, " udp ");
    ContainsIgnoringCase(candidate, " typ host");
    ContainsSomewhere(candidate, " " + ip + " ");
  }

  // Which candidates pass in either direction.
  lemma AllowedInWords(link: Option<DirectIpv4Link>, candidate: string)
    ensures AllowRemote(link, candidate) <==> (link.Some? ==> PassesDirect(candidate, link.value.clientIp))
    ensures AllowLocal(link, candidate) <==> (link.Some? ==> PassesDirect(candidate, link.value.serverIp))
  {
    if link.Some? {
      DirectCandidateInWords(candidate, link.value.clientIp);
      DirectCandidateInWords(candidate, link.value.serverIp);
    }
  }

  lemma PeelLine(text: string, line: string)
    requires '\n' !in line && |text| > |line| && text[..|line| + 1] == line + "\n"
    ensures Lines(text) == [line] + Lines(text[|line| + 1..])
  {
    var start := text[..|line| + 1];
    assert text[..|line|] == start[..|line|] == line;
    assert text[|line|] == start[|line|] == '\n';
    NewlineFound(text, |line|);
    MoreLines(text, |line|);
  }

  lemma LastLine(line: string)
    requires '\n' !in line && line != []
    ensures Lines(line) == [line]
  {
    NoNewlineAt(line);
    OneLine(line);
  }

  // The split is unique: it is what the filter reads.
  lemma {:induction false} SplitIsLines(text: string, lines: seq<string>)
    requires IsSplit(text, lines)
    ensures lines == Lines(text)
    decreases |lines|
  {
    if lines != [] {
      if |text| <= |lines[0]| {
        LastLine(text);
      } else {
        PeelLine(text, lines[0]);
        SplitIsLines(text[|lines[0]| + 1..], lines[1..]);
      }
    }
  }

  lemma OneLine(text: string)
    requires text != [] && NewlineAt(text) == |text|
    ensures Lines(text) == [text]
  {
    assert text[..|text|] == text;
    assert Lines([]) == [];
  }

  lemma MoreLines(text: string, i: nat)
    requires i == NewlineAt(text) < |text|
    ensures Lines(text) == [text[..i]] + Lines(text[i + 1..])
  {
  }

  lemma FirstLineSplits(text: string, i: nat, lines: seq<string>)
    requires i == NewlineAt(text) < |text| && IsSplit(text[i + 1..], lines)
    ensures IsSplit(text, [text[..i]] + lines)
  {
    var all := [text[..i]] + lines;
    assert all[1..] == lines && text[..i + 1] == text[..i] + "\n";
  }

  // Every text has such a split.
  lemma {:induction false} EveryTextSplits(text: string)
    ensures IsSplit(text, Lines(text))
    decreases |text|
  {
    if text != [] {
      var i := NewlineAt(text);
      if i < |text| {
        EveryTextSplits(text[i + 1..]);
        FirstLineSplits(text, i, Lines(text[i + 1..]));
        MoreLines(text, i);
      } else {
        OneLine(text);
        assert text[..i] == text;
      }
    }
  }

  lemma {:induction false} NoNewlineAt(line: string)
    requires '\n' !in line
    ensures NewlineAt(line) == |line|
  {
    if line != [] {
      assert line[0] in line;
      assert forall c :: c in line[1..] ==> c in line;
      NoNewlineAt(line[1..]);
    }
  }

  function WithReturns(lines: seq<string>): (r: seq<string>)
    ensures |r| == |lines| && forall i :: 0 <= i < |lines| ==> r[i] == lines[i] + "\r"
  {
    if lines == [] then [] else [lines[0] + "\r"] + WithReturns(lines[1..])
  }

  lemma {:induction false} RenderedSplits(lines: seq<string>)
    requires NoNewline(lines)
    ensures IsSplit(Rendered(lines), WithReturns(lines))
  {
    if lines != [] {
      RenderedSplits(lines[1..]);
      var text, line := Rendered(lines), lines[0] + "\r";
      assert text[..|line| + 1] == line + "\n" && text[|line| + 1..] == Rendered(lines[1..]);
      assert WithReturns(lines)[1..] == WithReturns(lines[1..]);
      assert '\n' !in line;
    }
  }

  lemma {:induction false} NormalizedAt(lines: seq<string>, i: nat)
    requires i < |lines|
    ensures |Normalized(lines)| == |lines| && Normalized(lines)[i] == StripLineEnd(lines[i])
    decreases lines
  {
    NormalizedLength(lines);
    if i > 0 {
      NormalizedAt(lines[1..], i - 1);
    }
  }

  lemma {:induction false} NormalizedLength(lines: seq<string>)
    ensures |Normalized(lines)| == |lines|
  {
    if lines != [] {
      NormalizedLength(lines[1..]);
    }
  }

  // A line as the filter looks at it: without the carriage return of its line end.
  ghost predicate IsBare(line: string, bare: string) {
    line == bare + "\r" || (line == bare && (line == [] || line[|line| - 1] != '\r'))
  }

  // The whole filter, for every text. The output splits into lines that are input
  // lines in their order, each ending in one carriage return; an input line is among
  // them exactly if it is no candidate line or is one that names UDP, a host
  // candidate and the client's address.
  lemma FilterInWords(link: DirectIpv4Link, text: string, lines: seq<string>, bare: seq<string>)
    returns (output: seq<string>, at: seq<nat>)
    requires IsSplit(text, lines) && |bare| == |lines| && forall i :: 0 <= i < |lines| ==> IsBare(lines[i], bare[i])
    ensures IsSplit(Filtered(Some(link), text), output)
    ensures |at| == |output| && forall k :: 0 <= k < |at| ==> at[k] < |bare| && output[k] == bare[at[k]] + "\r"
    ensures forall j, k :: 0 <= j < k < |at| ==> at[j] < at[k]
    ensures forall i :: 0 <= i < |bare| ==>
      (i in at <==> ("a=candidate:" <= bare[i] ==> PassesDirect(bare[i], link.clientIp)))
  {
    SplitIsLines(text, lines);
    BareIsNormalized(lines, bare);
    at := KeptExactly(link, bare);
    output := WithReturns(Kept(link, bare));
    SurvivorsHaveNoNewline(link, text);
    RenderedSplits(Kept(link, bare));
    forall i | 0 <= i < |bare| ensures Keeps(link, bare[i]) <==> ("a=candidate:" <= bare[i] ==> PassesDirect(bare[i], link.clientIp)) {
      DirectCandidateInWords(bare[i], link.clientIp);
    }
  }

  lemma BareIsNormalized(lines: seq<string>, bare: seq<string>)
    requires |bare| == |lines| && forall i :: 0 <= i < |lines| ==> IsBare(lines[i], bare[i])
    ensures bare == Normalized(lines)
  {
    NormalizedLength(lines);
    forall i | 0 <= i < |lines| ensures bare[i] == Normalized(lines)[i] {
      NormalizedAt(lines, i);
      assert lines[i] == bare[i] + "\r" ==> lines[i][..|lines[i]| - 1] == bare[i];
    }
  }

  // Without a direct link the answer is applied as it came.
  lemma NoLinkNoFilter(text: string)
    ensures Filtered(None, text) == text
  {
  }
}
