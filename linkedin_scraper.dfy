/** The pure helpers of the job harvester: the file-name slug of a title or company, the
    frequency keywords of a posting, the whitespace collapse of a manual job description
    and the clamp of the posting limit. */
module Harvest {
  import opened Options
  import opened Text
  import opened Sorting
  import opened Counters
  import KeywordExtract

  // ---------------------------------------------------------------------------
  // `_slug`

  /** A character `_slug` keeps: `ch.isalnum() or ch == "-"`. */
  predicate IsSlugChar(c: char) { IsAlnum(c) || c == '-' }

  /** `"".join(ch for ch in s if ch.isalnum() or ch == "-")` */
  function KeepSlugChars(s: string): (r: string)
    ensures |r| <= |s|
    ensures forall i :: 0 <= i < |r| ==> r[i] in s && IsSlugChar(r[i])
    ensures (forall i :: 0 <= i < |s| ==> IsSlugChar(s[i])) ==> r == s
  {
    if |s| == 0 then ""
    else
      var rest := KeepSlugChars(s[1..]);
      assert forall i :: 0 <= i < |rest| ==> rest[i] in s[1..];
      assert s == [s[0]] + s[1..];
      if IsSlugChar(s[0]) then [s[0]] + rest else rest
  }

  /** `LinkedInScraper._slug`: lower-case, spaces to `-`, then keep only letters, digits
      and `-`. */
  function Slug(value: string): (r: string)
    ensures |r| <= |value|
    ensures forall i :: 0 <= i < |r| ==> IsSlugChar(r[i]) && !IsUpper(r[i])
  {
    var safe := ReplaceChar(LowerStr(value), ' ', '-');
    var r := KeepSlugChars(safe);
    assert forall i :: 0 <= i < |r| ==> r[i] in safe;
    assert forall c :: c in safe ==> !IsUpper(c);
    r
  }

  lemma {:induction false} KeepSlugCharsAppend(a: string, b: string)
    ensures KeepSlugChars(a + b) == KeepSlugChars(a) + KeepSlugChars(b)
    decreases |a|
  {
    if |a| > 0 {
      assert (a + b)[1..] == a[1..] + b;
      KeepSlugCharsAppend(a[1..], b);
    } else {
      assert a + b == b;
    }
  }

  /** The slug of a concatenation is the concatenation of the slugs. */
  lemma {:induction false} SlugAppend(a: string, b: string)
    ensures Slug(a + b) == Slug(a) + Slug(b)
  {
    LowerStrAppend(a, b);
    var la := ReplaceChar(LowerStr(a), ' ', '-');
    var lb := ReplaceChar(LowerStr(b), ' ', '-');
    assert ReplaceChar(LowerStr(a + b), ' ', '-') == la + lb;
    KeepSlugCharsAppend(la, lb);
  }

  /** What one character becomes in a slug: a space or a dash becomes a dash, a letter
      its lower case, a digit itself, and anything else nothing. */
  lemma {:induction false} SlugChar(c: char)
    ensures Slug([c]) == if c == ' ' || c == '-' then "-" else if IsAlnum(c) then [Lower(c)] else ""
  {
    var safe := ReplaceChar(LowerStr([c]), ' ', '-');
    assert safe == [if c == ' ' then '-' else Lower(c)];
    assert safe[1..] == "";
  }

  /** A slug is its own slug. */
  lemma {:induction false} SlugIdempotent(value: string)
    ensures Slug(Slug(value)) == Slug(value)
  {
    var r := Slug(value);
    LowerStrOfLower(r);
    assert ReplaceChar(r, ' ', '-') == r;
  }

  // ---------------------------------------------------------------------------
  // `_simple_keywords`

  /** The characters `w.strip(".,:- ")` removes. */
  const KeywordStripChars: set<char> := {'.', ',', ':', '-', ' '}

  /** `str.isalpha` on ASCII: non-empty and letters only. */
  predicate IsAlpha(w: string) { |w| > 0 && forall i :: 0 <= i < |w| ==> IsLetter(w[i]) }

  /** `[w.strip(".,:- ").lower() for w in ws if len(w) > 3]`: the length test comes before
      the stripping. */
  function CleanWords(ws: seq<string>): (r: seq<string>)
    ensures |r| <= |ws|
  {
    if |ws| == 0 then []
    else
      var rest := CleanWords(ws[..|ws| - 1]);
      var w := ws[|ws| - 1];
      if |w| > 3 then rest + [LowerStr(Strip(w, KeywordStripChars))] else rest
  }

  /** The words the frequency loop counts (the others are skipped by `continue`). */
  function AlphaWords(words: seq<string>): (r: seq<string>)
    ensures forall k :: 0 <= k < |r| ==> IsAlpha(r[k])
    ensures forall w :: w in r <==> w in words && IsAlpha(w)
  {
    if |words| == 0 then []
    else
      var init := words[..|words| - 1];
      var w := words[|words| - 1];
      assert words == init + [w];
      if IsAlpha(w) then AlphaWords(init) + [w] else AlphaWords(init)
  }

  /** The `freq` dictionary after counting `words`. */
  function FreqOf(words: seq<string>): (f: map<string, nat>)
  {
    if |words| == 0 then map[]
    else
      var f := FreqOf(words[..|words| - 1]);
      var w := words[|words| - 1];
      if IsAlpha(w) then f[w := Get(f, w) + 1] else f
  }

  /** `freq[w]` is the number of times the alphabetic word `w` was seen, and the keys are
      exactly the alphabetic words seen. */
  lemma {:induction false} FreqCounts(words: seq<string>)
    ensures forall w :: Get(FreqOf(words), w) == multiset(AlphaWords(words))[w]
    ensures forall w :: w in FreqOf(words) <==> w in AlphaWords(words)
  {
    if |words| > 0 {
      var init := words[..|words| - 1];
      FreqCounts(init);
      var w := words[|words| - 1];
      if IsAlpha(w) {
        assert AlphaWords(words) == AlphaWords(init) + [w];
        assert multiset(AlphaWords(words)) == multiset(AlphaWords(init)) + multiset{w};
      }
    }
  }

  /** One `(word, count)` item of `freq.items()`. */
  datatype Item = Item(word: string, count: nat)

  /** `freq.items()`, in the dictionary's insertion order `order`. */
  function Items(order: seq<string>, freq: map<string, nat>): (items: seq<Item>)
    ensures |items| == |order|
    ensures forall i :: 0 <= i < |order| ==> items[i] == Item(order[i], Get(freq, order[i]))
  {
    seq(|order|, i requires 0 <= i < |order| => Item(order[i], Get(freq, order[i])))
  }

  /** The sort key `(-count, word)`: more frequent first, then alphabetical. */
  function ItemLess(): (Item, Item) -> bool
  {
    (a: Item, b: Item) => a.count > b.count || (a.count == b.count && LexLess(a.word, b.word))
  }

  /** Items of different words are ordered one way or the other, and the key order is
      irreflexive and transitive. */
  lemma {:induction false} ItemLessStrictTotal(items: seq<Item>)
    requires forall i, j :: 0 <= i < j < |items| ==> items[i].word != items[j].word
    ensures StrictTotalOn(ItemLess(), items) && Distinct(items)
  {
    var lt := ItemLess();
    forall a | a in items ensures !lt(a, a) {
      LexLessIrreflexive(a.word);
    }
    forall a, b, c | a in items && b in items && c in items && lt(a, b) && lt(b, c) ensures lt(a, c) {
      if a.count == b.count && b.count == c.count {
        LexLessTransitive(a.word, b.word, c.word);
      }
    }
    forall a, b | a in items && b in items && a != b ensures lt(a, b) || lt(b, a) {
      var i :| 0 <= i < |items| && items[i] == a;
      var j :| 0 <= j < |items| && items[j] == b;
      assert a.word != b.word by {
        if i < j {
          assert items[i].word != items[j].word;
        } else {
          assert items[j].word != items[i].word;
        }
      }
      LexLessTotal(a.word, b.word);
    }
  }

  /** `s[:limit]` with Python's slice semantics: a negative limit counts from the end. */
  function SliceTo<T>(s: seq<T>, limit: int): (r: seq<T>)
    ensures |r| <= |s| && r == s[..|r|]
    ensures limit >= 0 ==> |r| == if limit < |s| then limit else |s|
    ensures limit < 0 ==> |r| == if |s| + limit > 0 then |s| + limit else 0
  {
    if limit >= 0 then (if limit < |s| then s[..limit] else s)
    else if |s| + limit > 0 then s[..|s| + limit]
    else []
  }

  function WordsOf(items: seq<Item>): (ws: seq<string>)
    ensures |ws| == |items|
    ensures forall i :: 0 <= i < |items| ==> ws[i] == items[i].word
  {
    seq(|items|, i requires 0 <= i < |items| => items[i].word)
  }

  /** The words the frequency loop counts for `description`. */
  function Counted(description: string): seq<string>
  {
    AlphaWords(CleanWords(Split(description)))
  }

  /** The number of times the alphabetic word `w` is counted for `description`. */
  function Frequency(description: string, w: string): nat
  {
    multiset(Counted(description))[w]
  }

  /** `x` comes before `w` under the sort key `(-count, word)`. */
  predicate RanksBefore(description: string, x: string, w: string)
  {
    Frequency(description, x) > Frequency(description, w) ||
    (Frequency(description, x) == Frequency(description, w) && LexLess(x, w))
  }

  /** The items of the frequency table, one per distinct alphabetic word. */
  function ItemsOf(description: string): (items: seq<Item>)
    ensures StrictTotalOn(ItemLess(), items) && Distinct(items)
  {
    var order := KeywordExtract.Unique(Counted(description));
    var items := Items(order, FreqOf(CleanWords(Split(description))));
    ItemLessStrictTotal(items);
    items
  }

  /** `sorted(freq.items(), key=lambda item: (-item[1], item[0]))` */
  function RankedItems(description: string): (ranked: seq<Item>)
    ensures SortedBy(ItemLess(), ranked)
    ensures multiset(ranked) == multiset(ItemsOf(description))
  {
    Sort(ItemsOf(description), ItemLess())
  }

  /** What `_simple_keywords(description, limit)` returns. */
  function SimpleKeywordsOf(description: string, limit: int := 15): seq<string>
  {
    WordsOf(SliceTo(RankedItems(description), limit))
  }

  lemma {:induction false} UniqueAppend(s: seq<string>, x: string)
    ensures KeywordExtract.Unique(s + [x]) ==
      if x in KeywordExtract.Unique(s) then KeywordExtract.Unique(s) else KeywordExtract.Unique(s) + [x]
  {
    assert (s + [x])[..|s|] == s;
  }

  lemma {:induction false} CountStep(words: seq<string>, i: nat)
    requires i < |words|
    ensures FreqOf(words[..i + 1]) ==
      if IsAlpha(words[i]) then FreqOf(words[..i])[words[i] := Get(FreqOf(words[..i]), words[i]) + 1]
      else FreqOf(words[..i])
    ensures AlphaWords(words[..i + 1]) ==
      if IsAlpha(words[i]) then AlphaWords(words[..i]) + [words[i]] else AlphaWords(words[..i])
  {
    assert words[..i + 1][..i] == words[..i];
  }

  /** The counting loop of `_simple_keywords`: `freq` counts the alphabetic words and
      `order` lists them in the order the dictionary first saw them. */
  method CountWords(words: seq<string>) returns (freq: map<string, nat>, order: seq<string>)
    ensures freq == FreqOf(words)
    ensures order == KeywordExtract.Unique(AlphaWords(words))
  {
    freq := map[];
    order := [];
    for i := 0 to |words|
      invariant freq == FreqOf(words[..i])
      invariant order == KeywordExtract.Unique(AlphaWords(words[..i]))
    {
      CountStep(words, i);
      var word := words[i];
      if !IsAlpha(word) {
        continue;
      }
      UniqueAppend(AlphaWords(words[..i]), word);
      FreqCounts(words[..i]);
      if word !in freq {
        order := order + [word];
      }
      freq := freq[word := Get(freq, word) + 1];
    }
    assert words[..|words|] == words;
  }

  /** `_simple_keywords`: count the alphabetic words, sort the items by
      `(-count, word)` and keep the first `limit` words. */
  method SimpleKeywords(description: string, limit: int := 15) returns (r: seq<string>)
    ensures r == SimpleKeywordsOf(description, limit)
  {
    var freq, order := CountWords(CleanWords(Split(description)));
    var items := Items(order, freq);
    assert items == ItemsOf(description);
    var ranked := Sort(items, ItemLess());
    r := WordsOf(SliceTo(ranked, limit));
  }

  /** `it` is the table entry of a counted word: the word and the number of times it
      was counted. */
  predicate IsEntry(description: string, it: Item)
  {
    IsAlpha(it.word) && it.word in Counted(description) && it.count == Frequency(description, it.word)
  }

  /** The table holds exactly the entries of the counted words. */
  lemma {:induction false} ItemsOfMeaning(description: string)
    ensures forall it :: it in ItemsOf(description) ==> IsEntry(description, it)
    ensures forall w :: w in Counted(description) ==> Item(w, Frequency(description, w)) in ItemsOf(description)
  {
    var order := KeywordExtract.Unique(Counted(description));
    var items := ItemsOf(description);
    FreqCounts(CleanWords(Split(description)));
    forall it | it in items ensures IsEntry(description, it) {
      var i :| 0 <= i < |items| && items[i] == it;
      assert it.word == order[i];
    }
    forall w | w in Counted(description) ensures Item(w, Frequency(description, w)) in items {
      var i :| 0 <= i < |order| && order[i] == w;
      assert items[i] == Item(w, Frequency(description, w));
    }
  }

  /** Each ranked item is the entry of a counted word, and every counted word has its
      entry among the ranked items. */
  lemma {:induction false} RankedItemsMeaning(description: string)
    ensures forall k :: 0 <= k < |RankedItems(description)| ==> IsEntry(description, RankedItems(description)[k])
    ensures forall w :: w in Counted(description) ==> Item(w, Frequency(description, w)) in RankedItems(description)
  {
    var items := ItemsOf(description);
    var ranked := RankedItems(description);
    ItemsOfMeaning(description);
    forall k | 0 <= k < |ranked| ensures IsEntry(description, ranked[k]) {
      assert ranked[k] in multiset(items);
    }
    forall w | w in Counted(description) ensures Item(w, Frequency(description, w)) in ranked {
      assert Item(w, Frequency(description, w)) in multiset(ranked);
    }
  }

  /** At most `limit` words come back when `limit` is not negative. */
  lemma {:induction false} SimpleKeywordsBound(description: string, limit: int)
    ensures limit >= 0 ==> |SimpleKeywordsOf(description, limit)| <= limit
    ensures |SimpleKeywordsOf(description, limit)| <= |Counted(description)|
  {
    var items := ItemsOf(description);
    var order := KeywordExtract.Unique(Counted(description));
    assert |multiset(RankedItems(description))| == |multiset(items)|;
    UniqueLength(Counted(description));
  }

  lemma {:induction false} UniqueLength(s: seq<string>)
    ensures |KeywordExtract.Unique(s)| <= |s|
    decreases |s|
  {
    if |s| > 0 {
      UniqueLength(s[..|s| - 1]);
    }
  }

  /** The words returned are distinct, alphabetic words the loop counted. */
  lemma {:induction false} SimpleKeywordsWords(description: string, limit: int)
    ensures Distinct(SimpleKeywordsOf(description, limit))
    ensures forall w :: w in SimpleKeywordsOf(description, limit) ==> IsAlpha(w) && w in Counted(description)
  {
    var ranked := RankedItems(description);
    var kept := SliceTo(ranked, limit);
    var r := SimpleKeywordsOf(description, limit);
    RankedItemsMeaning(description);
    forall i, j | 0 <= i < j < |r| ensures r[i] != r[j] {
      assert kept[i] == ranked[i] && kept[j] == ranked[j];
      assert ItemLess()(ranked[i], ranked[j]);
      LexLessIrreflexive(r[i]);
    }
    forall w | w in r ensures IsAlpha(w) && w in Counted(description) {
      var i :| 0 <= i < |r| && r[i] == w;
      assert kept[i] == ranked[i];
    }
  }

  /** The words come by decreasing frequency, and alphabetically among equal
      frequencies. */
  lemma {:induction false} SimpleKeywordsOrdered(description: string, limit: int)
    ensures forall i, j :: 0 <= i < j < |SimpleKeywordsOf(description, limit)| ==>
      RanksBefore(description, SimpleKeywordsOf(description, limit)[i], SimpleKeywordsOf(description, limit)[j])
  {
    var ranked := RankedItems(description);
    var kept := SliceTo(ranked, limit);
    var r := SimpleKeywordsOf(description, limit);
    RankedItemsMeaning(description);
    forall i, j | 0 <= i < j < |r| ensures RanksBefore(description, r[i], r[j]) {
      assert kept[i] == ranked[i] && kept[j] == ranked[j];
      assert ItemLess()(ranked[i], ranked[j]);
    }
  }

  /** Top-k: a counted word that is left out ranks after every word returned. */
  lemma {:induction false} SimpleKeywordsTop(description: string, limit: int)
    ensures forall w, x ::
      (w in Counted(description) && w !in SimpleKeywordsOf(description, limit) && x in SimpleKeywordsOf(description, limit)) ==>
      RanksBefore(description, x, w)
  {
    var ranked := RankedItems(description);
    var kept := SliceTo(ranked, limit);
    var r := SimpleKeywordsOf(description, limit);
    RankedItemsMeaning(description);
    PrefixRanksFirst(ItemLess(), ranked, kept);
    forall w, x | w in Counted(description) && w !in r && x in r ensures RanksBefore(description, x, w) {
      var c := Item(w, Frequency(description, w));
      assert c !in kept by {
        forall k | 0 <= k < |kept| ensures kept[k] != c {
          assert r[k] == kept[k].word;
        }
      }
      var i :| 0 <= i < |r| && r[i] == x;
      assert kept[i] in kept && kept[i] == ranked[i];
      assert ItemLess()(kept[i], c);
    }
  }

  /** The length test comes before the stripping, so a three-letter word survives when
      punctuation follows it: "api." yields the keyword "api". */
  lemma {:induction false} PunctuatedShortWordKept(x: string, limit: int)
    requires IsAlpha(x) && IsLowerStr(x) && |x| == 3 && limit >= 1
    ensures SimpleKeywordsOf(x + ".", limit) == [x]
  {
    var w := x + ".";
    assert IsWord(w);
    SplitWord(w);
    StripTrailingDot(x);
    LowerStrOfLower(x);
    assert CleanWords([w]) == [x] by {
      assert [w][..0] == [];
    }
    SingleWordItems(w, x);
  }

  lemma {:induction false} StripTrailingDot(x: string)
    requires IsAlpha(x)
    ensures Strip(x + ".", KeywordStripChars) == x
  {
    var w := x + ".";
    assert w[..|w| - 1] == x;
    assert RStrip(x, KeywordStripChars) == x;
    assert LStrip(w, KeywordStripChars) == w;
  }

  /** ... while the same word with nothing after it is dropped. */
  lemma {:induction false} BareShortWordDropped(x: string, limit: int)
    requires IsAlpha(x) && |x| == 3
    ensures SimpleKeywordsOf(x, limit) == []
  {
    assert IsWord(x);
    SplitWord(x);
    assert CleanWords([x]) == [];
    assert Counted(x) == [];
    assert ItemsOf(x) == [];
  }

  /** A description whose only cleaned word is the alphabetic `x` yields `x`. */
  lemma {:induction false} SingleWordItems(description: string, x: string)
    requires CleanWords(Split(description)) == [x] && IsAlpha(x)
    ensures forall limit :: limit >= 1 ==> SimpleKeywordsOf(description, limit) == [x]
  {
    assert [x][..0] == [];
    assert AlphaWords([x]) == AlphaWords([]) + [x];
    assert Counted(description) == [x];
    assert KeywordExtract.Unique([x]) == [x];
    FreqCounts([x]);
    assert Get(FreqOf([x]), x) == 1;
    assert ItemsOf(description) == [Item(x, 1)];
    assert RankedItems(description) == [Item(x, 1)] by {
      SortedUnique(ItemLess(), RankedItems(description), [Item(x, 1)]);
    }
  }

  // ---------------------------------------------------------------------------
  // `ManualJob`

  /** `" ".join(s.split())` */
  function Collapse(s: string): string
  {
    Join(Split(s), " ")
  }

  /** The collapsed description holds the same words, joined by single spaces, with no
      whitespace at either end. */
  lemma {:induction false} CollapseShape(s: string)
    ensures Split(Collapse(s)) == Split(s)
    ensures Collapse(Collapse(s)) == Collapse(s)
    ensures var r := Collapse(s);
      (|r| > 0 ==> !IsSpace(r[0]) && !IsSpace(r[|r| - 1])) &&
      forall i :: 0 <= i < |r| && IsSpace(r[i]) ==> r[i] == ' ' && i + 1 < |r| && !IsSpace(r[i + 1])
  {
    SplitJoin(Split(s));
    JoinedBySingleSpaces(Split(s));
  }

  lemma {:induction false} JoinedBySingleSpaces(ws: seq<string>)
    requires forall k :: 0 <= k < |ws| ==> IsWord(ws[k])
    ensures var r := Join(ws, " ");
      (|r| > 0 ==> !IsSpace(r[0]) && !IsSpace(r[|r| - 1])) &&
      forall i :: 0 <= i < |r| && IsSpace(r[i]) ==> r[i] == ' ' && i + 1 < |r| && !IsSpace(r[i + 1])
    decreases |ws|
  {
    if |ws| > 1 {
      JoinedBySingleSpaces(ws[1..]);
      var w := ws[0];
      var rest := Join(ws[1..], " ");
      var r := Join(ws, " ");
      assert r == w + " " + rest;
      assert |rest| > 0 by {
        assert ws[1..][0] == ws[1];
        JoinHead(ws[1..]);
      }
      forall i | 0 <= i < |w| ensures !IsSpace(r[i]) {
        assert r[i] == w[i];
      }
      forall i | |w| < i < |r| ensures r[i] == rest[i - |w| - 1] {
      }
    }
  }

  /** Joining words starts with the first word. */
  lemma {:induction false} JoinHead(ws: seq<string>)
    requires |ws| > 0 && IsWord(ws[0])
    ensures |Join(ws, " ")| >= |ws[0]| > 0 && Join(ws, " ")[..|ws[0]|] == ws[0]
  {
  }

  /** `ManualJob`: a job description entered by hand; `__post_init__` collapses the
      whitespace of the description. */
  class ManualJob {
    var title: string
    var company: string
    var description: string
    var location: string
    var seniority: Option<string>
    var url: string

    constructor(title: string, company: string, description: string, location: string := "",
                seniority: Option<string> := None, url: string := "manual://entry")
      ensures this.title == title && this.company == company
      ensures this.description == Collapse(description)
      ensures this.location == location && this.seniority == seniority && this.url == url
    {
      this.title := title;
      this.company := company;
      this.location := location;
      this.seniority := seniority;
      this.url := url;
      this.description := Collapse(description);
    }
  }

  // ---------------------------------------------------------------------------
  // `LinkedInScraper.__init__`

  /** `max(1, max_postings)`: at least one posting is always harvested. */
  function PostingLimit(maxPostings: int): (n: int)
    ensures n >= 1
    ensures maxPostings >= 1 ==> n == maxPostings
    ensures maxPostings < 1 ==> n == 1
  {
    if maxPostings >= 1 then maxPostings else 1
  }

  /** The settings of the harvester. The browser automation, the delays and the output
      directory creation are not part of this model. */
  class LinkedInScraper {
    var email: Option<string>
    var password: Option<string>
    var manualMode: bool
    var delaySeconds: real
    var authenticate: bool
    var maxPostings: int
    var jobOutputDir: string

    constructor(email: Option<string>, password: Option<string>, manualMode: bool := false, delaySeconds: real := 2.0,
                authenticate: bool := false, maxPostings: int := 1, jobOutputDir: Option<string> := None)
      ensures this.email == email && this.password == password
      ensures this.manualMode == manualMode && this.delaySeconds == delaySeconds && this.authenticate == authenticate
      ensures this.maxPostings == PostingLimit(maxPostings)
      ensures this.jobOutputDir == if jobOutputDir.Some? then jobOutputDir.value else "artifacts/jobs"
    {
      this.email := email;
      this.password := password;
      this.manualMode := manualMode;
      this.delaySeconds := delaySeconds;
      this.authenticate := authenticate;
      this.maxPostings := PostingLimit(maxPostings);
      this.jobOutputDir := if jobOutputDir.Some? then jobOutputDir.value else "artifacts/jobs";
    }
  }
}
