/** The line-based LaTeX document of a resume: the text is split into lines, and a line
    holding `\section{…}` or `\subsection{…}` names a section while a line starting with
    `\item` is a bullet. Every other line is kept as plain text. The regular expressions
    of the original are written out as matchers over ASCII characters. */
module AstParser {
  import opened Text
  import opened Options

  datatype Bullet = Bullet(lineIndex: nat, leading: string, content: string)

  datatype Section = Section(name: string, lineIndex: nat)

  // ---------------------------------------------------------------------------
  // Line classification

  const SectionOpen := "\\section{"
  const SubsectionOpen := "\\subsection{"
  const ItemCommand := "\\item"

  /** `\section{` (or another opener) at `i`, then a name without `}`, closed at `k`. */
  predicate BracedAt(line: string, open: string, i: int, k: int)
  {
    && OccursAt(line, open, i)
    && i + |open| <= k < |line| && line[k] == '}'
    && forall m :: i + |open| <= m < k ==> line[m] != '}'
  }

  /** `re.search(open + r"(?P<name>[^}]*)\}", line)`: the name inside the leftmost match. */
  function BracedName(line: string, open: string): Option<string>
  {
    var i := Find(line, open);
    if i < 0 then None
    else
      var j := Find(line[i + |open|..], "}");
      if j < 0 then None else Some(line[i + |open|..i + |open| + j])
  }

  /** The search finds a match exactly when one exists, and then returns the name of the
      match that starts leftmost. */
  lemma {:induction false} BracedNameMatches(line: string, open: string)
    ensures BracedName(line, open).Some? <==> exists i, k :: BracedAt(line, open, i, k)
    ensures BracedName(line, open).Some? ==>
      exists i, k :: && BracedAt(line, open, i, k)
                     && BracedName(line, open).value == line[i + |open|..k]
                     && forall i', k' :: BracedAt(line, open, i', k') ==> i <= i'
  {
    var i := Find(line, open);
    if i >= 0 {
      var j := Find(line[i + |open|..], "}");
      if j >= 0 {
        BracedFound(line, open, i, j);
      } else {
        NoCloseAfter(line, open, i);
      }
    }
  }

  lemma {:induction false} BracedFound(line: string, open: string, i: int, j: int)
    requires i == Find(line, open) && i >= 0
    requires j == Find(line[i + |open|..], "}") && j >= 0
    ensures BracedAt(line, open, i, i + |open| + j)
    ensures forall i', k' :: BracedAt(line, open, i', k') ==> i <= i'
  {
    var rest := line[i + |open|..];
    assert rest[j] == '}' by { assert rest[j..j + 1] == "}"; }
    forall m | i + |open| <= m < i + |open| + j ensures line[m] != '}' {
      assert !OccursAt(rest, "}", m - i - |open|);
      assert rest[m - i - |open|] == line[m];
    }
    forall i', k' ensures BracedAt(line, open, i', k') ==> i <= i' {
      if BracedAt(line, open, i', k') {
        assert OccursAt(line, open, i');
      }
    }
  }

  lemma {:induction false} NoCloseAfter(line: string, open: string, i: int)
    requires i == Find(line, open) && i >= 0
    requires Find(line[i + |open|..], "}") < 0
    ensures forall i', k' :: !BracedAt(line, open, i', k')
  {
    var rest := line[i + |open|..];
    forall m | i + |open| <= m < |line| ensures line[m] != '}' {
      var j' := m - i - |open|;
      assert rest[j'..j' + 1] == [line[m]];
      assert !OccursAt(rest, "}", j');
    }
    forall i', k' ensures !BracedAt(line, open, i', k') {
      if OccursAt(line, open, i') {
        assert i <= i';
      }
    }
  }

  /** `(?:\[[^\]]*\])?`: skips one bracketed option when a closing `]` follows. */
  function SkipOption(s: string): (r: string)
    ensures |r| <= |s| && r == s[|s| - |r|..]
  {
    if |s| > 0 && s[0] == '[' then
      var j := Find(s, "]");
      if j < 0 then s else s[j + 1..]
    else s
  }

  /** `ITEM_PATTERN.match(line)`: the leading whitespace and the content group, which
      starts after `\item`, an optional `[…]` and more whitespace. */
  function ItemMatch(line: string): (r: Option<(string, string)>)
    ensures r.Some? ==> && (forall i :: 0 <= i < |r.value.0| ==> IsSpace(r.value.0[i]))
                        && StartsWith(line, r.value.0 + ItemCommand)
  {
    var body := LStrip(line, Whitespace);
    var lead := line[..|line| - |body|];
    if !StartsWith(body, ItemCommand) then None
    else
      assert forall i :: 0 <= i < |lead| ==> IsSpace(lead[i]) by {
        LStripPrefix(line, Whitespace);
        forall i | 0 <= i < |lead| ensures IsSpace(lead[i]) { WhitespaceIsSpace(lead[i]); }
      }
      assert line == lead + body;
      assert body[..|ItemCommand|] == ItemCommand;
      assert line[..|lead + ItemCommand|] == lead + ItemCommand;
      Some((lead, LStrip(SkipOption(body[|ItemCommand|..]), Whitespace)))
  }

  /** The kind of a line, the first matching pattern deciding. */
  datatype LineKind =
    | SectionLine(name: string)
    | SubsectionLine(name: string)
    | ItemLine(lead: string, content: string)
    | PlainLine

  /** The classification of `parse_document`: section, then subsection, then item. Names
      are stripped and lower-cased; bullet content is stripped. */
  function Classify(line: string): LineKind
  {
    match BracedName(line, SectionOpen)
    case Some(name) => SectionLine(LowerStr(StripSpace(name)))
    case None =>
      match BracedName(line, SubsectionOpen)
      case Some(name) => SubsectionLine(LowerStr(StripSpace(name)))
      case None =>
        match ItemMatch(line)
        case Some((lead, content)) => ItemLine(lead, StripSpace(content))
        case None => PlainLine
  }

  /** A line that carries both a section and an item is a section; an item is recognised
      only on a line where neither section pattern occurs anywhere. */
  lemma {:induction false} ClassifyPriority(line: string)
    ensures (exists i, k :: BracedAt(line, SectionOpen, i, k)) ==> Classify(line).SectionLine?
    ensures (exists i, k :: BracedAt(line, SubsectionOpen, i, k)) ==>
      Classify(line).SectionLine? || Classify(line).SubsectionLine?
    ensures Classify(line).ItemLine? <==>
      && (forall i, k :: !BracedAt(line, SectionOpen, i, k))
      && (forall i, k :: !BracedAt(line, SubsectionOpen, i, k))
      && ItemMatch(line).Some?
  {
    BracedNameMatches(line, SectionOpen);
    BracedNameMatches(line, SubsectionOpen);
  }

  predicate IsStripped(s: string)
  {
    |s| == 0 || (!IsSpace(s[0]) && !IsSpace(s[|s| - 1]))
  }

  /** A section name as stored: stripped and lower-case. */
  predicate IsSectionName(s: string)
  {
    IsStripped(s) && IsLowerStr(s)
  }

  lemma {:induction false} LowerStripped(s: string)
    ensures IsSectionName(LowerStr(StripSpace(s)))
  {
    var t := StripSpace(s);
    var r := LowerStr(t);
    if |r| > 0 {
      assert r[0] == Lower(t[0]) && r[|r| - 1] == Lower(t[|t| - 1]);
    }
  }

  /** Section names come out stripped and lower-case, bullet content stripped and the
      leading part all whitespace. */
  lemma {:induction false} ClassifyNormalises(line: string)
    ensures Classify(line).SectionLine? ==> IsSectionName(Classify(line).name)
    ensures Classify(line).SubsectionLine? ==> IsSectionName(Classify(line).name)
    ensures Classify(line).ItemLine? ==>
      && IsStripped(Classify(line).content)
      && forall i :: 0 <= i < |Classify(line).lead| ==> IsSpace(Classify(line).lead[i])
  {
    match BracedName(line, SectionOpen)
    case Some(name) => LowerStripped(name);
    case None =>
      match BracedName(line, SubsectionOpen)
      case Some(name) => LowerStripped(name);
      case None =>
  }

  // ---------------------------------------------------------------------------
  // Parsing

  /** The kind of every line, in order. */
  function Kinds(lines: seq<string>): (ks: seq<LineKind>)
    ensures |ks| == |lines|
    ensures forall i :: 0 <= i < |lines| ==> ks[i] == Classify(lines[i])
  {
    seq(|lines|, i requires 0 <= i < |lines| => Classify(lines[i]))
  }

  lemma {:induction false} KindsPrefix(lines: seq<string>, n: nat)
    requires n <= |lines|
    ensures Kinds(lines[..n]) == Kinds(lines)[..n]
  {
  }

  lemma {:induction false} KindsUpdate(lines: seq<string>, li: nat, x: string)
    requires li < |lines|
    ensures Kinds(lines[li := x]) == Kinds(lines)[li := Classify(x)]
  {
  }

  predicate IsSectionKind(k: LineKind)
  {
    k.SectionLine? || k.SubsectionLine?
  }

  /** The section a line of kind `k` at `idx` gives, if any. */
  function SectionEntry(k: LineKind, idx: nat): seq<Section>
  {
    match k
    case SectionLine(name) => [Section(name, idx)]
    case SubsectionLine(name) => [Section(name, idx)]
    case _ => []
  }

  /** The bullet a line of kind `k` at `idx` gives, if any. */
  function BulletEntry(k: LineKind, idx: nat): seq<Bullet>
  {
    match k
    case ItemLine(lead, content) => [Bullet(idx, lead, content)]
    case _ => []
  }

  /** The sections of lines of kinds `ks`: one per section or subsection line, in order. */
  function SectionsOf(ks: seq<LineKind>): seq<Section>
  {
    if |ks| == 0 then [] else SectionsOf(ks[..|ks| - 1]) + SectionEntry(ks[|ks| - 1], |ks| - 1)
  }

  /** The bullets of lines of kinds `ks`: one per item line, in order. */
  function BulletsOf(ks: seq<LineKind>): seq<Bullet>
  {
    if |ks| == 0 then [] else BulletsOf(ks[..|ks| - 1]) + BulletEntry(ks[|ks| - 1], |ks| - 1)
  }

  /** The sections `parse_document` finds in `lines`. */
  function ParsedSections(lines: seq<string>): seq<Section>
  {
    SectionsOf(Kinds(lines))
  }

  /** The bullets `parse_document` finds in `lines`. */
  function ParsedBullets(lines: seq<string>): seq<Bullet>
  {
    BulletsOf(Kinds(lines))
  }

  lemma {:induction false} ParsedStep(ks: seq<LineKind>, idx: nat)
    requires idx < |ks|
    ensures SectionsOf(ks[..idx + 1]) == SectionsOf(ks[..idx]) + SectionEntry(ks[idx], idx)
    ensures BulletsOf(ks[..idx + 1]) == BulletsOf(ks[..idx]) + BulletEntry(ks[idx], idx)
  {
    assert ks[..idx + 1][..idx] == ks[..idx];
  }

  /** Every section comes from a section or subsection line of that name. */
  lemma {:induction false} SectionsFromLines(ks: seq<LineKind>)
    ensures forall j :: 0 <= j < |SectionsOf(ks)| ==>
      var s := SectionsOf(ks)[j];
      s.lineIndex < |ks| && IsSectionKind(ks[s.lineIndex]) && ks[s.lineIndex].name == s.name
  {
    if |ks| > 0 {
      var last := |ks| - 1;
      var init := ks[..last];
      SectionsFromLines(init);
      var prev := SectionsOf(init);
      var ss := SectionsOf(ks);
      assert ss == prev + SectionEntry(ks[last], last);
      forall j | 0 <= j < |ss|
        ensures ss[j].lineIndex < |ks| && IsSectionKind(ks[ss[j].lineIndex]) && ks[ss[j].lineIndex].name == ss[j].name
      {
        if j < |prev| {
          assert ss[j] == prev[j];
          assert init[prev[j].lineIndex] == ks[prev[j].lineIndex];
        } else {
          assert ss[j] == Section(ks[last].name, last);
        }
      }
    }
  }

  /** The sections appear in line order. */
  lemma {:induction false} SectionsInOrder(ks: seq<LineKind>)
    ensures forall j, k :: 0 <= j < k < |SectionsOf(ks)| ==>
      SectionsOf(ks)[j].lineIndex < SectionsOf(ks)[k].lineIndex
  {
    if |ks| > 0 {
      var last := |ks| - 1;
      var init := ks[..last];
      SectionsInOrder(init);
      SectionsFromLines(init);
      var prev := SectionsOf(init);
      var ss := SectionsOf(ks);
      assert ss == prev + SectionEntry(ks[last], last);
      forall j, k | 0 <= j < k < |ss| ensures ss[j].lineIndex < ss[k].lineIndex {
        assert ss[j] == prev[j];
        if k < |prev| {
          assert ss[k] == prev[k];
        } else {
          assert ss[k].lineIndex == last;
        }
      }
    }
  }

  /** Every section or subsection line gives a section. */
  lemma {:induction false} SectionsComplete(ks: seq<LineKind>)
    ensures forall i :: 0 <= i < |ks| && IsSectionKind(ks[i]) ==>
      exists j :: 0 <= j < |SectionsOf(ks)| && SectionsOf(ks)[j].lineIndex == i
  {
    if |ks| > 0 {
      var last := |ks| - 1;
      var init := ks[..last];
      SectionsComplete(init);
      var prev := SectionsOf(init);
      var ss := SectionsOf(ks);
      assert ss == prev + SectionEntry(ks[last], last);
      assert forall i :: 0 <= i < |init| ==> init[i] == ks[i];
      forall i | 0 <= i < |ks| && IsSectionKind(ks[i])
        ensures exists j :: 0 <= j < |SectionsOf(ks)| && SectionsOf(ks)[j].lineIndex == i
      {
        if i == last {
          assert ss[|ss| - 1].lineIndex == i;
        } else {
          var j :| 0 <= j < |prev| && prev[j].lineIndex == i;
          assert ss[j] == prev[j];
        }
      }
      assert ss == SectionsOf(ks);
    }
  }

  /** Every bullet comes from an item line and holds its parts. */
  lemma {:induction false} BulletsFromLines(ks: seq<LineKind>)
    ensures forall j :: 0 <= j < |BulletsOf(ks)| ==>
      var b := BulletsOf(ks)[j];
      b.lineIndex < |ks| && ks[b.lineIndex] == ItemLine(b.leading, b.content)
  {
    if |ks| > 0 {
      var last := |ks| - 1;
      var init := ks[..last];
      BulletsFromLines(init);
      var prev := BulletsOf(init);
      var bs := BulletsOf(ks);
      assert bs == prev + BulletEntry(ks[last], last);
      forall j | 0 <= j < |bs|
        ensures bs[j].lineIndex < |ks| && ks[bs[j].lineIndex] == ItemLine(bs[j].leading, bs[j].content)
      {
        if j < |prev| {
          assert bs[j] == prev[j];
          assert init[prev[j].lineIndex] == ks[prev[j].lineIndex];
        } else {
          assert bs[j] == Bullet(last, ks[last].lead, ks[last].content);
        }
      }
    }
  }

  /** The bullets appear in line order. */
  lemma {:induction false} BulletsInOrder(ks: seq<LineKind>)
    ensures forall j, k :: 0 <= j < k < |BulletsOf(ks)| ==>
      BulletsOf(ks)[j].lineIndex < BulletsOf(ks)[k].lineIndex
  {
    if |ks| > 0 {
      var last := |ks| - 1;
      var init := ks[..last];
      BulletsInOrder(init);
      BulletsFromLines(init);
      var prev := BulletsOf(init);
      var bs := BulletsOf(ks);
      assert bs == prev + BulletEntry(ks[last], last);
      forall j, k | 0 <= j < k < |bs| ensures bs[j].lineIndex < bs[k].lineIndex {
        assert bs[j] == prev[j];
        if k < |prev| {
          assert bs[k] == prev[k];
        } else {
          assert bs[k].lineIndex == last;
        }
      }
    }
  }

  /** Every item line gives a bullet. */
  lemma {:induction false} BulletsComplete(ks: seq<LineKind>)
    ensures forall i :: 0 <= i < |ks| && ks[i].ItemLine? ==>
      exists j :: 0 <= j < |BulletsOf(ks)| && BulletsOf(ks)[j].lineIndex == i
  {
    if |ks| > 0 {
      var last := |ks| - 1;
      var init := ks[..last];
      BulletsComplete(init);
      var prev := BulletsOf(init);
      var bs := BulletsOf(ks);
      assert bs == prev + BulletEntry(ks[last], last);
      assert forall i :: 0 <= i < |init| ==> init[i] == ks[i];
      forall i | 0 <= i < |ks| && ks[i].ItemLine?
        ensures exists j :: 0 <= j < |BulletsOf(ks)| && BulletsOf(ks)[j].lineIndex == i
      {
        if i == last {
          assert bs[|bs| - 1].lineIndex == i;
        } else {
          var j :| 0 <= j < |prev| && prev[j].lineIndex == i;
          assert bs[j] == prev[j];
        }
      }
      assert bs == BulletsOf(ks);
    }
  }

  /** A line gives at most one element: no bullet shares its line with a section. */
  lemma {:induction false} OneElementPerLine(lines: seq<string>)
    ensures forall j, k :: 0 <= j < |ParsedBullets(lines)| && 0 <= k < |ParsedSections(lines)| ==>
      ParsedBullets(lines)[j].lineIndex != ParsedSections(lines)[k].lineIndex
  {
    SectionsFromLines(Kinds(lines));
    BulletsFromLines(Kinds(lines));
  }

  /** Parsed section names are stripped and lower-case; parsed bullets are stripped and
      their leading part is all whitespace. */
  lemma {:induction false} ParsedNormalised(lines: seq<string>)
    ensures forall s :: s in ParsedSections(lines) ==> IsSectionName(s.name)
    ensures forall b :: b in ParsedBullets(lines) ==>
      IsStripped(b.content) && forall i :: 0 <= i < |b.leading| ==> IsSpace(b.leading[i])
  {
    SectionsFromLines(Kinds(lines));
    BulletsFromLines(Kinds(lines));
    var ss := ParsedSections(lines);
    var bs := ParsedBullets(lines);
    forall s | s in ss ensures IsSectionName(s.name) {
      var j :| 0 <= j < |ss| && ss[j] == s;
      ClassifyNormalises(lines[s.lineIndex]);
    }
    forall b | b in bs ensures IsStripped(b.content) && forall i :: 0 <= i < |b.leading| ==> IsSpace(b.leading[i]) {
      var j :| 0 <= j < |bs| && bs[j] == b;
      ClassifyNormalises(lines[b.lineIndex]);
    }
  }

  /** `parse_document` */
  method ParseDocument(text: string) returns (doc: Document)
    ensures fresh(doc)
    ensures doc.lines == SplitLines(text)
    ensures doc.bullets == ParsedBullets(doc.lines)
    ensures doc.sections == ParsedSections(doc.lines)
  {
    var lines := SplitLines(text);
    ghost var ks := Kinds(lines);
    var bullets: seq<Bullet> := [];
    var sections: seq<Section> := [];
    for idx := 0 to |lines|
      invariant bullets == BulletsOf(ks[..idx])
      invariant sections == SectionsOf(ks[..idx])
    {
      ParsedStep(ks, idx);
      var line := lines[idx];
      var sectionMatch := BracedName(line, SectionOpen);
      if sectionMatch.Some? {
        sections := sections + [Section(LowerStr(StripSpace(sectionMatch.value)), idx)];
        continue;
      }
      var subsectionMatch := BracedName(line, SubsectionOpen);
      if subsectionMatch.Some? {
        sections := sections + [Section(LowerStr(StripSpace(subsectionMatch.value)), idx)];
        continue;
      }
      var itemMatch := ItemMatch(line);
      if itemMatch.Some? {
        bullets := bullets + [Bullet(idx, itemMatch.value.0, StripSpace(itemMatch.value.1))];
      }
    }
    assert ks[..|lines|] == ks;
    doc := new Document(lines, bullets, sections);
  }

  /** Rendering a parsed document joins the lines of the text with `\n`; for text whose
      only line boundaries are `\n` and that does not end with one, that is the text. */
  lemma {:induction false} RenderParsed(text: string)
    requires forall i :: 0 <= i < |text| && IsLineBreak(text[i]) ==> text[i] == '\n'
    requires |text| == 0 || text[|text| - 1] != '\n'
    ensures Join(SplitLines(text), "\n") == text
  {
    JoinSplitLines(text);
  }

  // ---------------------------------------------------------------------------
  // The document

  /** The line written for a bullet by `replace_bullet`. */
  function ItemLineText(leading: string, content: string): string
  {
    leading + ItemCommand + " " + content
  }

  /** A line written by `replace_bullet` reads back as the same bullet, provided the new
      content is stripped and the line names no section. */
  lemma {:induction false} ItemLineTextParses(leading: string, content: string)
    requires forall i :: 0 <= i < |leading| ==> IsSpace(leading[i])
    requires IsStripped(content)
    ensures ItemMatch(ItemLineText(leading, content)) == Some((leading, content))
    ensures (&& BracedName(ItemLineText(leading, content), SectionOpen).None?
             && BracedName(ItemLineText(leading, content), SubsectionOpen).None?) ==>
      Classify(ItemLineText(leading, content)) == ItemLine(leading, content)
  {
    var body := ItemCommand + " " + content;
    assert ItemLineText(leading, content) == leading + body;
    ItemBody(content);
    ItemMatchOf(leading, body);
    LStripOneSpace(content);
    StripStripped(content);
  }

  lemma {:induction false} ItemBody(content: string)
    ensures StartsWith(ItemCommand + " " + content, ItemCommand)
    ensures (ItemCommand + " " + content)[|ItemCommand|..] == " " + content
    ensures SkipOption(" " + content) == " " + content
  {
    var body := ItemCommand + " " + content;
    assert body[..|ItemCommand|] == ItemCommand;
    assert body[|ItemCommand|..] == " " + content;
  }

  /** `ITEM_PATTERN` on whitespace followed by `\item`: the whitespace is the lead. */
  lemma {:induction false} ItemMatchOf(lead: string, body: string)
    requires forall i :: 0 <= i < |lead| ==> IsSpace(lead[i])
    requires StartsWith(body, ItemCommand)
    ensures ItemMatch(lead + body) == Some((lead, LStrip(SkipOption(body[|ItemCommand|..]), Whitespace)))
  {
    assert body[0] == '\\' by { assert body[..|ItemCommand|][0] == body[0]; }
    LStripSpaces(lead, body);
    assert (lead + body)[..|lead + body| - |body|] == lead;
  }

  /** Neither section pattern matches anywhere in the line. */
  predicate NoSectionIn(line: string)
  {
    BracedName(line, SectionOpen).None? && BracedName(line, SubsectionOpen).None?
  }

  /** The bullets of the first `n` lines are a prefix of all the bullets, and every
      later bullet lies at line `n` or after it. */
  lemma {:induction false} BulletsOfPrefix(ks: seq<LineKind>, n: nat)
    requires n <= |ks|
    ensures |BulletsOf(ks[..n])| <= |BulletsOf(ks)|
    ensures BulletsOf(ks)[..|BulletsOf(ks[..n])|] == BulletsOf(ks[..n])
    ensures forall j :: |BulletsOf(ks[..n])| <= j < |BulletsOf(ks)| ==> BulletsOf(ks)[j].lineIndex >= n
    decreases |ks|
  {
    if n < |ks| {
      var last := |ks| - 1;
      var init := ks[..last];
      assert init[..n] == ks[..n];
      BulletsOfPrefix(init, n);
      var e := BulletEntry(ks[last], last);
      assert BulletsOf(ks) == BulletsOf(init) + e;
      assert forall j :: 0 <= j < |e| ==> e[j].lineIndex == last;
    } else {
      assert ks[..n] == ks;
    }
  }

  /** Turning one item line into another with the same lead changes that one bullet's
      content and no other bullet. */
  lemma {:induction false} BulletsOfUpdate(ks: seq<LineKind>, li: nat, c: string)
    requires li < |ks| && ks[li].ItemLine?
    ensures |BulletsOf(ks[..li])| < |BulletsOf(ks)|
    ensures BulletsOf(ks[li := ItemLine(ks[li].lead, c)]) ==
      BulletsOf(ks)[|BulletsOf(ks[..li])| := Bullet(li, ks[li].lead, c)]
    decreases |ks|
  {
    var last := |ks| - 1;
    var init := ks[..last];
    var ks' := ks[li := ItemLine(ks[li].lead, c)];
    var b' := Bullet(li, ks[li].lead, c);
    assert BulletsOf(ks) == BulletsOf(init) + BulletEntry(ks[last], last);
    assert BulletsOf(ks') == BulletsOf(ks'[..last]) + BulletEntry(ks'[last], last);
    if li == last {
      assert ks'[..last] == init;
      assert ks[..li] == init;
      UpdateAppend(BulletsOf(init), BulletEntry(ks[last], last), |BulletsOf(init)|, b');
    } else {
      assert ks'[..last] == init[li := ItemLine(ks[li].lead, c)];
      assert init[..li] == ks[..li];
      BulletsOfUpdate(init, li, c);
      UpdateAppend(BulletsOf(init), BulletEntry(ks[last], last), |BulletsOf(ks[..li])|, b');
    }
  }

  lemma {:induction false} UpdateAppend<T>(a: seq<T>, e: seq<T>, p: nat, x: T)
    requires p < |a| || (p == |a| && |e| == 1)
    ensures p < |a| ==> (a + e)[p := x] == a[p := x] + e
    ensures p == |a| ==> (a + e)[p := x] == a + [x]
  {
  }

  /** Changing a line that gives no section into another that gives none leaves the
      sections unchanged. */
  lemma {:induction false} SectionsOfUpdate(ks: seq<LineKind>, li: nat, k: LineKind)
    requires li < |ks| && !IsSectionKind(ks[li]) && !IsSectionKind(k)
    ensures SectionsOf(ks[li := k]) == SectionsOf(ks)
    decreases |ks|
  {
    var last := |ks| - 1;
    var init := ks[..last];
    var ks' := ks[li := k];
    if li == last {
      assert ks'[..last] == init;
    } else {
      assert ks'[..last] == init[li := k];
      SectionsOfUpdate(init, li, k);
    }
  }

  /** The bullet at position `index` is preceded by exactly the bullets of the lines
      before its own line. */
  lemma {:induction false} BulletPosition(ks: seq<LineKind>, index: nat)
    requires index < |BulletsOf(ks)|
    ensures BulletsOf(ks)[index].lineIndex < |ks|
    ensures |BulletsOf(ks[..BulletsOf(ks)[index].lineIndex])| == index
  {
    var bs := BulletsOf(ks);
    var b := bs[index];
    var li := b.lineIndex;
    BulletsFromLines(ks);
    BulletsInOrder(ks);
    var k := |BulletsOf(ks[..li])|;
    BulletsOfPrefix(ks, li);
    BulletsOfPrefix(ks, li + 1);
    ParsedStep(ks, li);
    var pre := BulletsOf(ks[..li + 1]);
    assert BulletEntry(ks[li], li) == [Bullet(li, b.leading, b.content)];
    assert pre[k] == Bullet(li, b.leading, b.content);
    assert bs[k] == pre[k];
  }

  /** Re-parsing the lines after `replace_bullet` gives the updated bullets and the same
      sections, when the new content is stripped and its line names no section. */
  lemma {:induction false} ReplaceBulletReparses(lines: seq<string>, index: nat, newContent: string)
    requires index < |ParsedBullets(lines)|
    requires IsStripped(newContent)
    requires NoSectionIn(ItemLineText(ParsedBullets(lines)[index].leading, newContent))
    ensures var b := ParsedBullets(lines)[index];
      b.lineIndex < |lines| &&
      ParsedBullets(lines[b.lineIndex := ItemLineText(b.leading, newContent)]) ==
        ParsedBullets(lines)[index := b.(content := newContent)]
    ensures var b := ParsedBullets(lines)[index];
      b.lineIndex < |lines| &&
      ParsedSections(lines[b.lineIndex := ItemLineText(b.leading, newContent)]) == ParsedSections(lines)
  {
    var ks := Kinds(lines);
    var bs := BulletsOf(ks);
    var b := bs[index];
    var li := b.lineIndex;
    BulletsFromLines(ks);
    assert ks[li] == ItemLine(b.leading, b.content);
    var x := ItemLineText(b.leading, newContent);
    ClassifyNormalises(lines[li]);
    ItemLineTextParses(b.leading, newContent);
    KindsUpdate(lines, li, x);
    assert Kinds(lines[li := x]) == ks[li := ItemLine(ks[li].lead, newContent)];
    BulletsOfUpdate(ks, li, newContent);
    BulletPosition(ks, index);
    SectionsOfUpdate(ks, li, Classify(x));
  }

  /** The page count of `page_estimate` from the number of lines and of page breaks. */
  function PageCount(lineCount: nat, pageBreaks: nat): (p: nat)
  {
    var pagesByLength := Max(1, (lineCount + 55 - 1) / 55);
    Max(pageBreaks + 1, pagesByLength)
  }

  function Max(a: int, b: int): int { if a >= b then a else b }

  /** The estimate is the least page count that holds every page break and fits the
      lines 55 to a page. */
  lemma {:induction false} PageCountLeast(lineCount: nat, pageBreaks: nat)
    ensures PageCount(lineCount, pageBreaks) >= 1
    ensures PageCount(lineCount, pageBreaks) >= pageBreaks + 1
    ensures PageCount(lineCount, pageBreaks) * 55 >= lineCount
    ensures forall p :: p >= 1 && p >= pageBreaks + 1 && p * 55 >= lineCount ==> p >= PageCount(lineCount, pageBreaks)
  {
    var q := (lineCount + 54) / 55;
    assert q * 55 <= lineCount + 54 < q * 55 + 55;
    forall p: int ensures p >= 1 && p >= pageBreaks + 1 && p * 55 >= lineCount ==> p >= PageCount(lineCount, pageBreaks)
    {
      if p <= q - 1 {
        assert p * 55 <= (q - 1) * 55;
      }
    }
  }

  /** A line that asks for a new page: `\newpage` or `\pagebreak` occurs in it. */
  predicate IsPageBreak(line: string)
  {
    Contains(line, "\\newpage") || Contains(line, "\\pagebreak")
  }

  /** `sum(1 for line in lines if PAGEBREAK_PATTERN.search(line))` */
  function PageBreaks(lines: seq<string>): (n: nat)
    ensures n <= |lines|
    ensures n == 0 <==> forall i :: 0 <= i < |lines| ==> !IsPageBreak(lines[i])
  {
    if |lines| == 0 then 0
    else
      var init := lines[..|lines| - 1];
      assert forall i :: 0 <= i < |init| ==> init[i] == lines[i];
      PageBreaks(init) + (if IsPageBreak(lines[|lines| - 1]) then 1 else 0)
  }

  class Document {
    var lines: seq<string>
    var bullets: seq<Bullet>
    var sections: seq<Section>

    constructor(lines: seq<string>, bullets: seq<Bullet>, sections: seq<Section>)
      ensures this.lines == lines && this.bullets == bullets && this.sections == sections
    {
      this.lines := lines;
      this.bullets := bullets;
      this.sections := sections;
    }

    /** The bullets and sections are those the parser finds in the lines. */
    predicate Parsed()
      reads this
    {
      bullets == ParsedBullets(lines) && sections == ParsedSections(lines)
    }

    /** `replace_bullet`: rewrites the bullet's line as its leading whitespace, `\item `
        and the new content, and records the new content; nothing else changes. */
    method ReplaceBullet(index: nat, newContent: string)
      requires index < |bullets| && bullets[index].lineIndex < |lines|
      modifies this
      ensures lines == old(lines)[old(bullets)[index].lineIndex := ItemLineText(old(bullets)[index].leading, newContent)]
      ensures bullets == old(bullets)[index := old(bullets)[index].(content := newContent)]
      ensures sections == old(sections)
      ensures old(Parsed()) && IsStripped(newContent) && NoSectionIn(ItemLineText(old(bullets)[index].leading, newContent)) ==>
        Parsed()
    {
      var bullet := bullets[index];
      if Parsed() && IsStripped(newContent) && NoSectionIn(ItemLineText(bullet.leading, newContent)) {
        ReplaceBulletReparses(lines, index, newContent);
      }
      lines := lines[bullet.lineIndex := bullet.leading + ItemCommand + " " + newContent];
      bullets := bullets[index := Bullet(bullet.lineIndex, bullet.leading, newContent)];
    }

    /** `render` */
    function Render(): string
      reads this
    {
      Join(lines, "\n")
    }

    /** `bullet_texts`: the contents, in bullet order. */
    function BulletTexts(): (ts: seq<string>)
      reads this
      ensures |ts| == |bullets|
      ensures forall j :: 0 <= j < |ts| ==> ts[j] == bullets[j].content
    {
      seq(|bullets|, j requires 0 <= j < |bullets| reads this => bullets[j].content)
    }

    /** `section_names`: the names, in section order. */
    function SectionNames(): (ns: seq<string>)
      reads this
      ensures |ns| == |sections|
      ensures forall j :: 0 <= j < |ns| ==> ns[j] == sections[j].name
    {
      seq(|sections|, j requires 0 <= j < |sections| reads this => sections[j].name)
    }

    /** `page_estimate` */
    function PageEstimate(): (p: nat)
      reads this
      ensures p >= 1 && p >= PageBreaks(lines) + 1 && p * 55 >= |lines|
      ensures forall q :: q >= 1 && q >= PageBreaks(lines) + 1 && q * 55 >= |lines| ==> q >= p
    {
      PageCountLeast(|lines|, PageBreaks(lines));
      PageCount(|lines|, PageBreaks(lines))
    }
  }

  // ---------------------------------------------------------------------------
  // Helpers about stripping

  lemma {:induction false} LStripPrefix(s: string, chars: set<char>)
    ensures forall i :: 0 <= i < |s| - |LStrip(s, chars)| ==> s[i] in chars
  {
    if |s| > 0 && s[0] in chars {
      LStripPrefix(s[1..], chars);
    }
  }

  lemma {:induction false} LStripSpaces(lead: string, body: string)
    requires forall i :: 0 <= i < |lead| ==> IsSpace(lead[i])
    requires |body| > 0 && !IsSpace(body[0])
    ensures LStrip(lead + body, Whitespace) == body
    decreases |lead|
  {
    WhitespaceIsSpace(body[0]);
    if |lead| > 0 {
      WhitespaceIsSpace(lead[0]);
      assert (lead + body)[1..] == lead[1..] + body;
      LStripSpaces(lead[1..], body);
    } else {
      assert lead + body == body;
    }
  }

  lemma {:induction false} LStripOneSpace(content: string)
    requires IsStripped(content)
    ensures LStrip(" " + content, Whitespace) == content
  {
    assert (" " + content)[1..] == content;
    if |content| > 0 {
      WhitespaceIsSpace(content[0]);
    }
  }

  lemma {:induction false} StripStripped(s: string)
    requires IsStripped(s)
    ensures StripSpace(s) == s
  {
    if |s| > 0 {
      WhitespaceIsSpace(s[0]);
      WhitespaceIsSpace(s[|s| - 1]);
    }
  }
}
