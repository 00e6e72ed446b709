/** Section detection and chunking of policy documents (`DocumentChunker`): a
    document is cut into numbered sections at header lines such as
    `3. LEAVE POLICY:`, and every section into chunks that carry their origin
    and a chunk id. */
module DocumentChunking {
  import opened Wrappers
  import opened PyText

  /** A recognised header line: its section number and title. */
  datatype Header = Header(number: nat, title: string)

  datatype Section = Section(number: nat, title: string, content: string)

  /** The characters allowed in a title: ASCII capitals, blanks and `&`. */
  predicate IsTitleChar(c: char)
  {
    ('A' <= c <= 'Z') || IsSpace(c) || c == '&'
  }

  /** Length of the leading run of ASCII digits. */
  function DigitRun(s: string): (n: nat)
    ensures n <= |s| && AllDigits(s[..n])
    ensures n < |s| ==> !IsDigit(s[n])
  {
    if s != [] && IsDigit(s[0]) then
      var n := 1 + DigitRun(s[1..]);
      assert s[..n] == [s[0]] + s[1..][..n - 1];
      n
    else 0
  }

  /** Length of the leading run of title characters. */
  function TitleRun(s: string): (n: nat)
    ensures n <= |s|
    ensures forall k :: 0 <= k < n ==> IsTitleChar(s[k])
    ensures n < |s| ==> !IsTitleChar(s[n])
  {
    if s != [] && IsTitleChar(s[0]) then 1 + TitleRun(s[1..]) else 0
  }

  /** The header pattern `^(\d+)\.\s+([A-Z\s&]+):` read literally on a stripped
      line: `d` digits, a dot, then `n` title characters of which at least the
      first is blank (the `\s+`) and at least one more remains for the title
      group, then a colon. */
  predicate HeaderMatch(l: string, d: nat, n: nat)
  {
    && 1 <= d && 2 <= n && d + n + 1 < |l|
    && AllDigits(l[..d]) && l[d] == '.'
    && IsSpace(l[d + 1])
    && (forall k :: d + 1 <= k <= d + n ==> IsTitleChar(l[k]))
    && l[d + n + 1] == ':'
  }

  /** The two parts of a stripped line the header pattern picks out, if it
      matches: the digits, and the run of title characters between the dot and
      the colon. That run starts right after the dot, so it still holds the
      blanks the `\s+` consumed, where the regular expression's second group
      starts after them; the two differ only by leading blanks, so they agree
      once stripped, which is all `HeaderOf` keeps. */
  function PatternGroups(l: string): (groups: Option<(string, string)>)
    ensures groups.Some? ==> groups.value.0 != [] && AllDigits(groups.value.0)
  {
    var d := DigitRun(l);
    if 1 <= d < |l| && l[d] == '.' then
      var rest := l[d + 1..];
      var n := TitleRun(rest);
      if 2 <= n < |rest| && IsSpace(rest[0]) && rest[n] == ':' then Some((l[..d], rest[..n]))
      else None
    else None
  }

  /** `re.match` of the header pattern on `line.strip()`: the section number is
      the digits' value and the title the run before the colon, stripped. */
  function HeaderOf(line: string): Option<Header>
  {
    match PatternGroups(Strip(line))
    case None => None
    case Some((digits, run)) => Some(Header(DigitsValue(digits), Strip(run)))
  }

  /** Whatever the scanner picks out is a match of the pattern... */
  lemma PatternGroupsSound(l: string)
    requires PatternGroups(l).Some?
    ensures exists d: nat, n: nat :: HeaderMatch(l, d, n) && PatternGroups(l).value == (l[..d], l[d + 1..d + n + 1])
  {
    var d := DigitRun(l);
    var rest := l[d + 1..];
    var n := TitleRun(rest);
    assert forall k :: d + 1 <= k <= d + n ==> l[k] == rest[k - d - 1];
    assert rest[..n] == l[d + 1..d + n + 1];
    assert HeaderMatch(l, d, n);
  }

  /** ...and every match of the pattern is found, with those very groups: the
      match, when there is one, is unique. */
  lemma PatternGroupsComplete(l: string, d: nat, n: nat)
    requires HeaderMatch(l, d, n)
    ensures PatternGroups(l) == Some((l[..d], l[d + 1..d + n + 1]))
  {
    var rest := l[d + 1..];
    assert DigitRun(l) == d by {
      DigitRunExact(l, d);
    }
    assert TitleRun(rest) == n by {
      assert forall k :: 0 <= k < n ==> rest[k] == l[d + 1 + k];
      TitleRunExact(rest, n);
    }
    assert rest[..n] == l[d + 1..d + n + 1];
  }

  /** The digit run is exactly the digits before the first non-digit. */
  lemma DigitRunExact(s: string, d: nat)
    requires d < |s| && AllDigits(s[..d]) && !IsDigit(s[d])
    ensures DigitRun(s) == d
  {
  }

  lemma TitleRunExact(s: string, n: nat)
    requires n < |s| && (forall k :: 0 <= k < n ==> IsTitleChar(s[k])) && !IsTitleChar(s[n])
    ensures TitleRun(s) == n
  {
  }

  /** The positions of the header lines, in order, for a header recogniser `h`. */
  function HeaderIndices(lines: seq<string>, h: string -> Option<Header>): (hs: seq<nat>)
    ensures forall k :: 0 <= k < |hs| ==> hs[k] < |lines| && h(lines[hs[k]]).Some?
    ensures forall k, k' :: 0 <= k < k' < |hs| ==> hs[k] < hs[k']
  {
    if lines == [] then []
    else
      var hs := HeaderIndices(lines[..|lines| - 1], h);
      if h(lines[|lines| - 1]).Some? then hs + [|lines| - 1] else hs
  }

  /** Every header line is found. */
  lemma {:induction false} HeaderIndicesComplete(lines: seq<string>, h: string -> Option<Header>, i: nat)
    requires i < |lines| && h(lines[i]).Some?
    ensures i in HeaderIndices(lines, h)
  {
    var n := |lines| - 1;
    if i < n {
      assert lines[..n][i] == lines[i];
      HeaderIndicesComplete(lines[..n], h, i);
    }
  }

  lemma HeaderIndicesNext(lines: seq<string>, h: string -> Option<Header>, i: nat)
    requires i < |lines|
    ensures HeaderIndices(lines[..i + 1], h) ==
      HeaderIndices(lines[..i], h) + (if h(lines[i]).Some? then [i] else [])
  {
    assert lines[..i + 1][..i] == lines[..i];
  }

  /** The text of a section: its lines joined by newlines, then stripped. */
  function SectionText(block: seq<string>): string
  {
    Strip(Join(block, "\n"))
  }

  /** The section opened by the header at `start` and closed at `end`. */
  function SectionAt(lines: seq<string>, h: string -> Option<Header>, render: seq<string> -> string, start: nat, end: nat): Section
    requires start < end <= |lines| && h(lines[start]).Some?
  {
    var header := h(lines[start]).value;
    Section(header.number, header.title, render(lines[start..end]))
  }

  /** Header positions fit for cutting at `end`: increasing header positions before it. */
  predicate Cuts(lines: seq<string>, h: string -> Option<Header>, hs: seq<nat>, end: nat)
  {
    && end <= |lines|
    && (forall k :: 0 <= k < |hs| ==> hs[k] < end && h(lines[hs[k]]).Some?)
    && (forall k, k' :: 0 <= k < k' < |hs| ==> hs[k] < hs[k'])
  }

  /** The sections opened at the positions `hs`, each running up to the next
      position and the last one up to `end`. */
  function SectionsBetween(lines: seq<string>, h: string -> Option<Header>, render: seq<string> -> string, hs: seq<nat>, end: nat): (sections: seq<Section>)
    requires Cuts(lines, h, hs, end)
    ensures |sections| == |hs|
  {
    if hs == [] then []
    else
      var last := hs[|hs| - 1];
      SectionsBetween(lines, h, render, hs[..|hs| - 1], last) + [SectionAt(lines, h, render, last, end)]
  }

  /** Section `k` is the block from the k-th header line up to the next one (or
      to `end`): lines before the first header belong to no section. */
  lemma {:induction false} SectionsBetweenSpec(lines: seq<string>, h: string -> Option<Header>, render: seq<string> -> string, hs: seq<nat>, end: nat)
    requires Cuts(lines, h, hs, end)
    ensures forall k :: 0 <= k < |hs| ==>
      SectionsBetween(lines, h, render, hs, end)[k] == SectionAt(lines, h, render, hs[k], if k + 1 < |hs| then hs[k + 1] else end)
  {
    if hs != [] {
      var init, last := hs[..|hs| - 1], hs[|hs| - 1];
      SectionsBetweenSpec(lines, h, render, init, last);
      forall k | 0 <= k < |hs|
        ensures SectionsBetween(lines, h, render, hs, end)[k] == SectionAt(lines, h, render, hs[k], if k + 1 < |hs| then hs[k + 1] else end)
      {
        if k < |init| {
          assert init[k] == hs[k];
          if k + 1 < |init| {
            assert init[k + 1] == hs[k + 1];
          }
        }
      }
    }
  }

  /** The sections of a document for the recogniser `h`: one per header line,
      or the whole text as section 1 "Document" when there is none. */
  function SectionsWith(text: string, h: string -> Option<Header>, render: seq<string> -> string): (sections: seq<Section>)
    ensures sections != []
  {
    var lines := Split(text, '\n');
    var hs := HeaderIndices(lines, h);
    if hs == [] then [Section(1, "Document", text)]
    else SectionsBetween(lines, h, render, hs, |lines|)
  }

  /** `detect_sections` */
  function Sections(text: string): seq<Section>
  {
    SectionsWith(text, HeaderOf, SectionText)
  }

  lemma {:induction false} NoHeaderIndices(lines: seq<string>, h: string -> Option<Header>)
    requires forall i :: 0 <= i < |lines| ==> h(lines[i]).None?
    ensures HeaderIndices(lines, h) == []
  {
    if lines != [] {
      var n := |lines| - 1;
      assert forall i :: 0 <= i < n ==> lines[..n][i] == lines[i];
      NoHeaderIndices(lines[..n], h);
    }
  }

  /** With no header line the document is one section, text unchanged. */
  lemma NoHeaderFallbackWith(text: string, h: string -> Option<Header>, render: seq<string> -> string)
    requires forall line :: line in Split(text, '\n') ==> h(line).None?
    ensures SectionsWith(text, h, render) == [Section(1, "Document", text)]
  {
    NoHeaderIndices(Split(text, '\n'), h);
  }

  lemma NoHeaderFallback(text: string)
    requires forall line :: line in Split(text, '\n') ==> HeaderOf(line).None?
    ensures Sections(text) == [Section(1, "Document", text)]
  {
    NoHeaderFallbackWith(text, HeaderOf, SectionText);
  }

  /** Otherwise there is exactly one section per header line, in document
      order, each made of its header line and the lines up to the next header. */
  lemma SectionsPerHeaderWith(text: string, h: string -> Option<Header>, render: seq<string> -> string)
    requires var lines := Split(text, '\n'); exists i :: 0 <= i < |lines| && h(lines[i]).Some?
    ensures var lines, hs := Split(text, '\n'), HeaderIndices(Split(text, '\n'), h);
      && |SectionsWith(text, h, render)| == |hs|
      && forall k :: 0 <= k < |hs| ==>
           SectionsWith(text, h, render)[k] == SectionAt(lines, h, render, hs[k], if k + 1 < |hs| then hs[k + 1] else |lines|)
  {
    var lines := Split(text, '\n');
    var hs := HeaderIndices(lines, h);
    var i :| 0 <= i < |lines| && h(lines[i]).Some?;
    HeaderIndicesComplete(lines, h, i);
    assert hs != [];
    var sections := SectionsWith(text, h, render);
    assert sections == SectionsBetween(lines, h, render, hs, |lines|);
    SectionsBetweenSpec(lines, h, render, hs, |lines|);
    forall k | 0 <= k < |hs|
      ensures sections[k] == SectionAt(lines, h, render, hs[k], if k + 1 < |hs| then hs[k + 1] else |lines|)
    {
    }
  }

  /** `detect_sections`: one pass over the lines, keeping the section being
      read and its lines, closing it at the next header and at the end. */
  method DetectSections(text: string) returns (sections: seq<Section>)
    ensures sections == Sections(text)
  {
    sections := ScanSections(text, HeaderOf, SectionText);
  }

  /** The state of the scan after line `i - 1`, given the header positions
      `hs` seen so far: no section before the first header; afterwards the
      sections closed so far, and the open one with its header and its lines. */
  ghost predicate Open(lines: seq<string>, h: string -> Option<Header>, render: seq<string> -> string, i: nat, hs: seq<nat>,
                       sections: seq<Section>, current: Option<Header>, content: seq<string>, start: nat)
  {
    && Cuts(lines, h, hs, i)
    && (hs == [] ==> current.None? && sections == [])
    && (hs != [] ==>
          && start == hs[|hs| - 1]
          && current == h(lines[start])
          && content == lines[start..i]
          && Cuts(lines, h, hs[..|hs| - 1], start)
          && sections == SectionsBetween(lines, h, render, hs[..|hs| - 1], start))
  }

  /** What the scan of `detect_sections` holds after the first `i` lines. */
  ghost predicate Scanned(lines: seq<string>, h: string -> Option<Header>, render: seq<string> -> string, i: nat, sections: seq<Section>,
                          current: Option<Header>, content: seq<string>, start: nat)
  {
    && i <= |lines|
    && Open(lines, h, render, i, HeaderIndices(lines[..i], h), sections, current, content, start)
  }

  /** Closing the open section at `end` appends it to the closed ones. */
  lemma CloseSection(lines: seq<string>, h: string -> Option<Header>, render: seq<string> -> string, hs: seq<nat>, end: nat)
    requires hs != [] && Cuts(lines, h, hs, end) && hs[|hs| - 1] < end
    ensures Cuts(lines, h, hs[..|hs| - 1], hs[|hs| - 1])
    ensures SectionsBetween(lines, h, render, hs, end)
      == SectionsBetween(lines, h, render, hs[..|hs| - 1], hs[|hs| - 1]) + [SectionAt(lines, h, render, hs[|hs| - 1], end)]
  {
  }

  lemma OpenHeaderLine(lines: seq<string>, h: string -> Option<Header>, render: seq<string> -> string, i: nat, hs: seq<nat>,
                       sections: seq<Section>, current: Option<Header>, content: seq<string>, start: nat)
    requires Open(lines, h, render, i, hs, sections, current, content, start)
    requires i < |lines| && h(lines[i]).Some?
    ensures Open(lines, h, render, i + 1, hs + [i],
      if current.Some? then sections + [Section(current.value.number, current.value.title, render(content))] else sections,
      h(lines[i]), [lines[i]], i)
  {
    var hs' := hs + [i];
    assert hs'[..|hs'| - 1] == hs;
    assert lines[i..i + 1] == [lines[i]];
    assert Cuts(lines, h, hs, i);
    if current.Some? {
      CloseSection(lines, h, render, hs, i);
    }
  }

  lemma OpenPlainLine(lines: seq<string>, h: string -> Option<Header>, render: seq<string> -> string, i: nat, hs: seq<nat>,
                      sections: seq<Section>, current: Option<Header>, content: seq<string>, start: nat)
    requires Open(lines, h, render, i, hs, sections, current, content, start)
    requires i < |lines| && h(lines[i]).None?
    ensures Open(lines, h, render, i + 1, hs, sections, current, if current.Some? then content + [lines[i]] else content, start)
  {
    if current.Some? {
      assert lines[start..i + 1] == lines[start..i] + [lines[i]];
    }
  }

  lemma ScanHeaderLine(lines: seq<string>, h: string -> Option<Header>, render: seq<string> -> string, i: nat, sections: seq<Section>,
                       current: Option<Header>, content: seq<string>, start: nat)
    requires Scanned(lines, h, render, i, sections, current, content, start)
    requires i < |lines| && h(lines[i]).Some?
    ensures Scanned(lines, h, render, i + 1,
      if current.Some? then sections + [Section(current.value.number, current.value.title, render(content))] else sections,
      h(lines[i]), [lines[i]], i)
  {
    HeaderIndicesNext(lines, h, i);
    OpenHeaderLine(lines, h, render, i, HeaderIndices(lines[..i], h), sections, current, content, start);
  }

  lemma ScanPlainLine(lines: seq<string>, h: string -> Option<Header>, render: seq<string> -> string, i: nat, sections: seq<Section>,
                      current: Option<Header>, content: seq<string>, start: nat)
    requires Scanned(lines, h, render, i, sections, current, content, start)
    requires i < |lines| && h(lines[i]).None?
    ensures Scanned(lines, h, render, i + 1, sections, current, if current.Some? then content + [lines[i]] else content, start)
  {
    var hs := HeaderIndices(lines[..i], h);
    HeaderIndicesNext(lines, h, i);
    assert hs + [] == hs;
    assert HeaderIndices(lines[..i + 1], h) == hs;
    OpenPlainLine(lines, h, render, i, hs, sections, current, content, start);
  }

  lemma ScanEnd(text: string, h: string -> Option<Header>, render: seq<string> -> string, sections: seq<Section>,
                current: Option<Header>, content: seq<string>, start: nat)
    requires var lines := Split(text, '\n'); Scanned(lines, h, render, |lines|, sections, current, content, start)
    ensures var closed := if current.Some? then sections + [Section(current.value.number, current.value.title, render(content))] else sections;
      (if closed == [] then [Section(1, "Document", text)] else closed) == SectionsWith(text, h, render)
  {
    var lines := Split(text, '\n');
    assert lines[..|lines|] == lines;
    var hs := HeaderIndices(lines, h);
    if current.Some? {
      CloseSection(lines, h, render, hs, |lines|);
    }
  }

  /** The scan of `detect_sections`, for the header recogniser `h`. */
  method ScanSections(text: string, h: string -> Option<Header>, render: seq<string> -> string) returns (sections: seq<Section>)
    ensures sections == SectionsWith(text, h, render)
  {
    var lines := Split(text, '\n');
    sections := [];
    var current: Option<Header> := None;
    var content: seq<string> := [];
    ghost var start: nat := 0;
    for i := 0 to |lines|
      invariant Scanned(lines, h, render, i, sections, current, content, start)
    {
      var header := h(lines[i]);
      if header.Some? {
        ScanHeaderLine(lines, h, render, i, sections, current, content, start);
        if current.Some? {
          sections := sections + [Section(current.value.number, current.value.title, render(content))];
        }
        current := header;
        content := [lines[i]];
        start := i;
      } else {
        ScanPlainLine(lines, h, render, i, sections, current, content, start);
        if current.Some? {
          content := content + [lines[i]];
        }
      }
    }
    ScanEnd(text, h, render, sections, current, content, start);
    if current.Some? {
      sections := sections + [Section(current.value.number, current.value.title, render(content))];
    }
    if sections == [] {
      sections := [Section(1, "Document", text)];
    }
  }
}
