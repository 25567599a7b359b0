/** The ATS scorer of `ats/scorer.py`: four metrics on a 0 to 100 scale (keyword
    coverage, required sections, bullet quality, keyword distribution) and their
    weighted total. Python's `round(x, 2)` is the parameter `round2`; every metric is
    specified before rounding. */
module Scorer {
  import opened Text
  import opened Sorting
  import opened KeywordExtract
  import opened Counters

  /** ACTION_VERBS */
  const ActionVerbs: set<string> := {
    "accelerated", "achieved", "built", "coordinated", "delivered", "designed", "developed",
    "drove", "enabled", "improved", "implemented", "launched", "led", "managed", "optimized",
    "owned", "reduced", "scaled", "spearheaded", "streamlined"
  }

  /** REQUIRED_SECTIONS */
  const RequiredSections: set<string> := {"experience", "education", "skills"}

  /** What is assumed of `round(x, 2)`: it is monotone, keeps 0 and 100, and moves a
      value by at most half a hundredth. */
  ghost predicate IsRounding(round2: real -> real)
  {
    && (forall x, y :: x <= y ==> round2(x) <= round2(y))
    && round2(0.0) == 0.0
    && round2(100.0) == 100.0
    && (forall x :: x - 0.005 <= round2(x) <= x + 0.005)
  }

  function Min(a: real, b: real): real { if a < b then a else b }
  function Max(a: real, b: real): real { if a < b then b else a }

  // ---------------------------------------------------------------------------
  // Coverage

  /** A keyword is found in the lower-cased text when its token is a substring of it, or
      one of its curated synonyms or its own synonyms is. */
  predicate KeywordFound(text: string, c: Candidate)
  {
    || Contains(text, c.token)
    || exists s :: s in SynonymSet(c.token) + (set t | t in c.synonyms) && Contains(text, s)
  }

  /** How many of the keywords are found in the text. */
  function MatchedCount(text: string, keywords: seq<Candidate>): (n: nat)
    ensures n <= |keywords|
  {
    if |keywords| == 0 then 0
    else
      MatchedCount(text, keywords[..|keywords| - 1])
        + (if KeywordFound(text, keywords[|keywords| - 1]) then 1 else 0)
  }

  /** The coverage metric before rounding: `min(matched / len(keywords), 1.0) * 100.0`. */
  function CoverageRaw(resumeText: string, keywords: seq<Candidate>): real
  {
    if |keywords| == 0 then 100.0
    else Min(MatchedCount(LowerStr(resumeText), keywords) as real / |keywords| as real, 1.0) * 100.0
  }

  /** `_coverage_score`: 100 without keywords, otherwise the rounded raw coverage. */
  function CoverageValue(resumeText: string, keywords: seq<Candidate>, round2: real -> real): real
  {
    if |keywords| == 0 then 100.0 else round2(CoverageRaw(resumeText, keywords))
  }

  /** A share of a positive whole lies in [0, 1], and is 1 exactly for the whole. */
  lemma {:induction false} ShareBounds(m: real, n: real)
    requires 0.0 <= m <= n && n > 0.0
    ensures 0.0 <= m / n <= 1.0
    ensures m / n == 1.0 <==> m == n
  {
    assert (m / n) * n == m;
  }

  lemma {:induction false} ShareMonotone(a: real, b: real, n: real)
    requires a <= b && n > 0.0
    ensures a / n <= b / n
  {
    assert (a / n) * n == a && (b / n) * n == b;
  }

  /** Coverage is 100 times the share of keywords found, so it lies in [0, 100]; it is
      100 exactly when every keyword is found. */
  lemma {:induction false} CoverageBounds(resumeText: string, keywords: seq<Candidate>)
    ensures |keywords| > 0 ==>
      CoverageRaw(resumeText, keywords) == MatchedCount(LowerStr(resumeText), keywords) as real / |keywords| as real * 100.0
    ensures 0.0 <= CoverageRaw(resumeText, keywords) <= 100.0
    ensures CoverageRaw(resumeText, keywords) == 100.0
      <==> MatchedCount(LowerStr(resumeText), keywords) == |keywords|
  {
    if |keywords| > 0 {
      var m := MatchedCount(LowerStr(resumeText), keywords) as real;
      var n := |keywords| as real;
      ShareBounds(m, n);
    }
  }

  /** A keyword found in a text is found in the text with more appended. */
  lemma {:induction false} KeywordFoundAppend(text: string, more: string, c: Candidate)
    requires KeywordFound(text, c)
    ensures KeywordFound(text + more, c)
  {
    if Contains(text, c.token) {
      ContainsAppend(text, more, c.token);
    } else {
      var s :| s in SynonymSet(c.token) + (set t | t in c.synonyms) && Contains(text, s);
      ContainsAppend(text, more, s);
    }
  }

  lemma {:induction false} MatchedCountAppend(text: string, more: string, keywords: seq<Candidate>)
    ensures MatchedCount(text, keywords) <= MatchedCount(text + more, keywords)
  {
    if |keywords| > 0 {
      MatchedCountAppend(text, more, keywords[..|keywords| - 1]);
      if KeywordFound(text, keywords[|keywords| - 1]) {
        KeywordFoundAppend(text, more, keywords[|keywords| - 1]);
      }
    }
  }

  /** Appending text to the resume never lowers coverage. */
  lemma {:induction false} CoverageMonotone(resumeText: string, more: string, keywords: seq<Candidate>)
    ensures CoverageRaw(resumeText, keywords) <= CoverageRaw(resumeText + more, keywords)
  {
    LowerStrAppend(resumeText, more);
    MatchedCountAppend(LowerStr(resumeText), LowerStr(more), keywords);
    if |keywords| > 0 {
      var a := MatchedCount(LowerStr(resumeText), keywords) as real;
      var b := MatchedCount(LowerStr(resumeText + more), keywords) as real;
      var n := |keywords| as real;
      ShareMonotone(a, b, n);
      ShareBounds(a, n);
      ShareBounds(b, n);
    }
  }

  // ---------------------------------------------------------------------------
  // Sections

  /** The names of the sections present, lower-cased. */
  function PresentSections(sections: seq<string>): set<string>
  {
    set s | s in sections :: LowerStr(s)
  }

  /** The required sections not present, compared case-insensitively. */
  function MissingSections(sections: seq<string>): (m: set<string>)
    ensures m <= RequiredSections
    ensures forall r :: r in m <==> r in RequiredSections && forall s :: s in sections ==> LowerStr(s) != r
  {
    RequiredSections - PresentSections(sections)
  }

  /** `_section_score` before rounding. */
  function SectionRaw(sections: seq<string>, pageEstimate: int, maxPages: int): real
  {
    var score := 100.0 - |MissingSections(sections)| as real * 20.0
      - (if pageEstimate > maxPages then 20.0 else 0.0);
    Max(score, 0.0)
  }

  /** The section metric is 100 less 20 per missing required section and 20 for a
      document over the page budget; the floor at 0 is never reached, so it lies in
      [20, 100], and it is 100 exactly when nothing is missing and the pages fit. */
  lemma {:induction false} SectionBounds(sections: seq<string>, pageEstimate: int, maxPages: int)
    ensures SectionRaw(sections, pageEstimate, maxPages)
      == 100.0 - |MissingSections(sections)| as real * 20.0 - (if pageEstimate > maxPages then 20.0 else 0.0)
    ensures 20.0 <= SectionRaw(sections, pageEstimate, maxPages) <= 100.0
    ensures SectionRaw(sections, pageEstimate, maxPages) == 100.0
      <==> |MissingSections(sections)| == 0 && pageEstimate <= maxPages
  {
    var m := MissingSections(sections);
    assert |m| <= 3 by {
      assert |RequiredSections| == 3;
      SubsetCard(m, RequiredSections);
    }
  }

  lemma {:induction false} SubsetCard<T>(a: set<T>, b: set<T>)
    requires a <= b
    ensures |a| <= |b|
  {
    assert b == a + (b - a);
  }

  // ---------------------------------------------------------------------------
  // Bullet quality

  /** `bullet.lower().split()` */
  function Words(bullet: string): seq<string>
  {
    Split(LowerStr(bullet))
  }

  predicate OpensWithVerb(bullet: string)
  {
    |Words(bullet)| > 0 && Words(bullet)[0] in ActionVerbs
  }

  predicate BadLength(bullet: string)
  {
    |bullet| < 35 || |bullet| > 220
  }

  /** A word in the past tense anywhere and a word in "-ing" among the first five. */
  predicate TenseMixed(bullet: string)
  {
    && (exists w :: w in Words(bullet) && EndsWith(w, "ed"))
    && (exists w :: w in Take(Words(bullet), 5) && EndsWith(w, "ing"))
  }

  function VerbHits(bullets: seq<string>): (n: nat)
    ensures n <= |bullets|
  {
    if |bullets| == 0 then 0
    else VerbHits(bullets[..|bullets| - 1]) + (if OpensWithVerb(bullets[|bullets| - 1]) then 1 else 0)
  }

  function LengthPenalties(bullets: seq<string>): (n: nat)
    ensures n <= |bullets|
  {
    if |bullets| == 0 then 0
    else LengthPenalties(bullets[..|bullets| - 1]) + (if BadLength(bullets[|bullets| - 1]) then 1 else 0)
  }

  function TenseInconsistencies(bullets: seq<string>): (n: nat)
    ensures n <= |bullets|
  {
    if |bullets| == 0 then 0
    else TenseInconsistencies(bullets[..|bullets| - 1]) + (if TenseMixed(bullets[|bullets| - 1]) then 1 else 0)
  }

  /** One more bullet adds its own verb hit, length penalty and tense inconsistency. */
  lemma {:induction false} QualityStep(bullets: seq<string>, i: nat)
    requires i < |bullets|
    ensures VerbHits(bullets[..i + 1]) == VerbHits(bullets[..i]) + (if OpensWithVerb(bullets[i]) then 1 else 0)
    ensures LengthPenalties(bullets[..i + 1]) == LengthPenalties(bullets[..i]) + (if BadLength(bullets[i]) then 1 else 0)
    ensures TenseInconsistencies(bullets[..i + 1]) ==
      TenseInconsistencies(bullets[..i]) + (if TenseMixed(bullets[i]) then 1 else 0)
  {
    assert bullets[..i + 1][..i] == bullets[..i];
  }

  /** `_quality_score` before rounding. */
  function QualityRaw(bullets: seq<string>): real
  {
    if |bullets| == 0 then 50.0
    else
      var ratio := VerbHits(bullets) as real / |bullets| as real;
      var score := 60.0 + ratio * 30.0 - LengthPenalties(bullets) as real * 4.0
        - TenseInconsistencies(bullets) as real * 4.0;
      Max(score, 0.0)
  }

  /** `_quality_score`: 50 without bullets, otherwise the rounded raw quality. */
  function QualityValue(bullets: seq<string>, round2: real -> real): real
  {
    if |bullets| == 0 then 50.0 else round2(QualityRaw(bullets))
  }

  /** Quality lies in [0, 90]; with no length or tense penalty it is 60 plus 30 times the
      share of bullets opening with an action verb, and 90 when all of them do. */
  lemma {:induction false} QualityBounds(bullets: seq<string>)
    ensures 0.0 <= QualityRaw(bullets) <= 90.0
    ensures |bullets| > 0 && LengthPenalties(bullets) == 0 && TenseInconsistencies(bullets) == 0 ==>
      QualityRaw(bullets) == 60.0 + VerbHits(bullets) as real / |bullets| as real * 30.0
    ensures (|bullets| > 0 && LengthPenalties(bullets) == 0 && TenseInconsistencies(bullets) == 0
      && VerbHits(bullets) == |bullets|) ==> QualityRaw(bullets) == 90.0
  {
    if |bullets| > 0 {
      ShareBounds(VerbHits(bullets) as real, |bullets| as real);
    }
  }

  // ---------------------------------------------------------------------------
  // Keyword distribution

  /** `[candidate.token for candidate in keywords]` */
  function Tokens(keywords: seq<Candidate>): (ts: seq<string>)
    ensures |ts| == |keywords|
    ensures forall i :: 0 <= i < |ts| ==> ts[i] == keywords[i].token
  {
    seq(|keywords|, i requires 0 <= i < |keywords| => keywords[i].token)
  }

  /** What a bullet's counter holds for a keyword, given the lower-cased bullet: every
      listed copy of the keyword adds its occurrences once more. */
  function BulletCount(lowered: string, tokens: seq<string>, keyword: string): nat
  {
    if |tokens| == 0 then 0
    else
      BulletCount(lowered, tokens[..|tokens| - 1], keyword)
        + (if tokens[|tokens| - 1] == keyword then CountOcc(lowered, keyword) else 0)
  }

  /** A bullet's counter holds, for a keyword, its number of listed copies times its
      occurrences in the lower-cased bullet. */
  lemma {:induction false} BulletCountIsProduct(lowered: string, tokens: seq<string>, keyword: string)
    ensures BulletCount(lowered, tokens, keyword) == multiset(tokens)[keyword] * CountOcc(lowered, keyword)
  {
    if |tokens| > 0 {
      var init := tokens[..|tokens| - 1];
      var last := tokens[|tokens| - 1];
      BulletCountIsProduct(lowered, init, keyword);
      var o := CountOcc(lowered, keyword);
      var m := multiset(init)[keyword];
      assert multiset(tokens)[keyword] == m + (if last == keyword then 1 else 0) by {
        assert tokens == init + [last];
      }
      if last == keyword {
        MulSucc(m, o);
      }
    }
  }

  lemma {:induction false} MulSucc(m: nat, o: nat)
    ensures (m + 1) * o == m * o + o
  {
  }

  /** A bullet's counter holds something for a keyword exactly when the keyword is listed
      and occurs in the lower-cased bullet. */
  lemma {:induction false} BulletCountPositive(lowered: string, tokens: seq<string>, keyword: string)
    ensures BulletCount(lowered, tokens, keyword) > 0 <==> keyword in tokens && Contains(lowered, keyword)
  {
    if |tokens| > 0 {
      var init := tokens[..|tokens| - 1];
      BulletCountPositive(lowered, init, keyword);
      assert tokens == init + [tokens[|tokens| - 1]];
    }
  }

  /** Counting one more listed keyword. */
  lemma {:induction false} BulletCountStep(lowered: string, tokens: seq<string>, t: nat, keyword: string)
    requires t < |tokens|
    ensures BulletCount(lowered, tokens[..t + 1], keyword)
      == BulletCount(lowered, tokens[..t], keyword) + (if tokens[t] == keyword then CountOcc(lowered, keyword) else 0)
  {
    assert tokens[..t + 1][..t] == tokens[..t];
  }

  /** What the global counter holds for a keyword: the sum of the bullet counters. */
  function TotalCount(bullets: seq<string>, tokens: seq<string>, keyword: string): nat
  {
    if |bullets| == 0 then 0
    else TotalCount(bullets[..|bullets| - 1], tokens, keyword) + BulletCount(LowerStr(bullets[|bullets| - 1]), tokens, keyword)
  }

  /** Counting one more bullet. */
  lemma {:induction false} TotalCountStep(bullets: seq<string>, tokens: seq<string>, i: nat, keyword: string)
    requires i < |bullets|
    ensures TotalCount(bullets[..i + 1], tokens, keyword)
      == TotalCount(bullets[..i], tokens, keyword) + BulletCount(LowerStr(bullets[i]), tokens, keyword)
  {
    assert bullets[..i + 1][..i] == bullets[..i];
  }

  /** Some lower-cased bullet contains the keyword. */
  predicate UsedSomewhere(bullets: seq<string>, keyword: string)
  {
    exists b :: b in bullets && Contains(LowerStr(b), keyword)
  }

  /** A keyword is counted somewhere exactly when it is listed and occurs in some
      lower-cased bullet. */
  lemma {:induction false} TotalCountPositive(bullets: seq<string>, tokens: seq<string>, keyword: string)
    ensures TotalCount(bullets, tokens, keyword) > 0 <==> keyword in tokens && UsedSomewhere(bullets, keyword)
  {
    if |bullets| > 0 {
      var init := bullets[..|bullets| - 1];
      var last := bullets[|bullets| - 1];
      TotalCountPositive(init, tokens, keyword);
      assert bullets == init + [last];
      BulletCountPositive(LowerStr(last), tokens, keyword);
      assert forall b :: b in bullets <==> b in init || b == last;
    }
  }

  /** Penalty for keywords counted more than twice overall, over the keys `keys`. */
  function OverusePenalty(bullets: seq<string>, tokens: seq<string>, keys: seq<string>): nat
  {
    if |keys| == 0 then 0
    else
      var c := TotalCount(bullets, tokens, keys[|keys| - 1]);
      OverusePenalty(bullets, tokens, keys[..|keys| - 1]) + (if c > 2 then (c - 2) * 5 else 0)
  }

  /** Penalty for keywords counted more than once in one bullet, over the keys `keys`. */
  function RepeatPenalty(bullet: string, tokens: seq<string>, keys: seq<string>): nat
  {
    if |keys| == 0 then 0
    else
      var c := BulletCount(LowerStr(bullet), tokens, keys[|keys| - 1]);
      RepeatPenalty(bullet, tokens, keys[..|keys| - 1]) + (if c > 1 then (c - 1) * 5 else 0)
  }

  function RepeatPenalties(bullets: seq<string>, tokens: seq<string>, keys: seq<string>): nat
  {
    if |bullets| == 0 then 0
    else RepeatPenalties(bullets[..|bullets| - 1], tokens, keys) + RepeatPenalty(bullets[|bullets| - 1], tokens, keys)
  }

  /** All penalties, the keys being the distinct keyword tokens. */
  function Penalties(bullets: seq<string>, tokens: seq<string>): nat
  {
    OverusePenalty(bullets, tokens, Unique(tokens)) + RepeatPenalties(bullets, tokens, Unique(tokens))
  }

  /** How many entries of `ks` are counted somewhere (a listed duplicate counts twice). */
  function CoveredCount(bullets: seq<string>, tokens: seq<string>, ks: seq<string>): (n: nat)
    ensures n <= |ks|
  {
    if |ks| == 0 then 0
    else CoveredCount(bullets, tokens, ks[..|ks| - 1]) + (if TotalCount(bullets, tokens, ks[|ks| - 1]) > 0 then 1 else 0)
  }

  /** `_distribution_score` before rounding. */
  function DistributionRaw(bullets: seq<string>, keywords: seq<Candidate>): real
  {
    var tokens := Tokens(keywords);
    if |tokens| == 0 then 100.0
    else
      var ratio := CoveredCount(bullets, tokens, tokens) as real / |tokens| as real;
      Min(Max(70.0 + ratio * 30.0 - Penalties(bullets, tokens) as real, 0.0), 100.0)
  }

  /** The raw distribution score from its two counts. */
  lemma {:induction false} DistributionRawOf(bullets: seq<string>, keywords: seq<Candidate>, covered: nat, penalties: nat)
    requires |keywords| > 0
    requires covered == CoveredCount(bullets, Tokens(keywords), Tokens(keywords))
    requires penalties == Penalties(bullets, Tokens(keywords))
    ensures DistributionRaw(bullets, keywords)
      == Min(Max(70.0 + covered as real / |keywords| as real * 30.0 - penalties as real, 0.0), 100.0)
  {
  }

  /** `_distribution_score`: 100 without keywords, otherwise the rounded raw value. */
  function DistributionValue(bullets: seq<string>, keywords: seq<Candidate>, round2: real -> real): real
  {
    if |keywords| == 0 then 100.0 else round2(DistributionRaw(bullets, keywords))
  }

  /** Distribution lies in [0, 100]; without penalties it is 70 plus 30 times the share
      of keywords used in some bullet, so 100 when all are used. */
  lemma {:induction false} DistributionBounds(bullets: seq<string>, keywords: seq<Candidate>)
    ensures 0.0 <= DistributionRaw(bullets, keywords) <= 100.0
    ensures |keywords| > 0 && Penalties(bullets, Tokens(keywords)) == 0 ==>
      DistributionRaw(bullets, keywords)
        == 70.0 + CoveredCount(bullets, Tokens(keywords), Tokens(keywords)) as real / |keywords| as real * 30.0
    ensures (|keywords| > 0 && Penalties(bullets, Tokens(keywords)) == 0
      && CoveredCount(bullets, Tokens(keywords), Tokens(keywords)) == |keywords|) ==>
      DistributionRaw(bullets, keywords) == 100.0
  {
    var tokens := Tokens(keywords);
    if |tokens| > 0 {
      ShareBounds(CoveredCount(bullets, tokens, tokens) as real, |tokens| as real);
    }
  }

  /** Every keyword entry is covered exactly when each occurs in some lower-cased
      bullet. */
  lemma {:induction false} CoveredCountMeaning(bullets: seq<string>, tokens: seq<string>, ks: seq<string>)
    requires forall k :: k in ks ==> k in tokens
    ensures CoveredCount(bullets, tokens, ks) == |ks| <==> forall i :: 0 <= i < |ks| ==> UsedSomewhere(bullets, ks[i])
  {
    if |ks| > 0 {
      var init := ks[..|ks| - 1];
      assert forall k :: k in init ==> k in ks;
      CoveredCountMeaning(bullets, tokens, init);
      TotalCountPositive(bullets, tokens, ks[|ks| - 1]);
      assert forall i :: 0 <= i < |init| ==> init[i] == ks[i];
    }
  }

  // ---------------------------------------------------------------------------
  // summarise_keywords

  /** The report entry of a keyword: `{"global": n}`. */
  function GlobalEntry(n: int): map<string, int>
  {
    map["global" := n]
  }

  // ---------------------------------------------------------------------------
  // The total

  /** ScoreBreakdown; `details` maps each metric's name to the value its text shows. */
  datatype Breakdown = Breakdown(
    coverage: real, section: real, quality: real, distribution: real, total: real,
    details: map<string, real>)

  /** The weighted total before rounding. */
  function WeightedTotal(coverage: real, section: real, quality: real, distribution: real): real
  {
    coverage * 0.4 + section * 0.2 + quality * 0.2 + distribution * 0.2
  }

  /** What `ATSScorer(max_pages=maxPages).score(...)` returns. */
  function ScoreOf(maxPages: int, resumeText: string, bullets: seq<string>, keywords: seq<Candidate>,
                   sections: seq<string>, pageEstimate: int, round2: real -> real): Breakdown
  {
    var c := CoverageValue(resumeText, keywords, round2);
    var s := round2(SectionRaw(sections, pageEstimate, maxPages));
    var q := QualityValue(bullets, round2);
    var d := DistributionValue(bullets, keywords, round2);
    Breakdown(c, s, q, d, round2(WeightedTotal(c, s, q, d)),
      map["coverage" := c, "section" := s, "quality" := q, "distribution" := d])
  }

  /** Under a rounding, every metric and the total lie in [0, 100], and the details have
      exactly the four metric keys. */
  lemma {:induction false} ScoreBounds(maxPages: int, resumeText: string, bullets: seq<string>, keywords: seq<Candidate>,
                    sections: seq<string>, pageEstimate: int, round2: real -> real)
    requires IsRounding(round2)
    ensures var b := ScoreOf(maxPages, resumeText, bullets, keywords, sections, pageEstimate, round2);
      && 0.0 <= b.coverage <= 100.0 && 0.0 <= b.section <= 100.0
      && 0.0 <= b.quality <= 100.0 && 0.0 <= b.distribution <= 100.0
      && 0.0 <= b.total <= 100.0
      && b.details.Keys == {"coverage", "section", "quality", "distribution"}
  {
    CoverageBounds(resumeText, keywords);
    SectionBounds(sections, pageEstimate, maxPages);
    QualityBounds(bullets);
    DistributionBounds(bullets, keywords);
    var b := ScoreOf(maxPages, resumeText, bullets, keywords, sections, pageEstimate, round2);
    RoundingBounds(round2, CoverageRaw(resumeText, keywords));
    RoundingBounds(round2, SectionRaw(sections, pageEstimate, maxPages));
    RoundingBounds(round2, QualityRaw(bullets));
    RoundingBounds(round2, DistributionRaw(bullets, keywords));
    RoundingBounds(round2, WeightedTotal(b.coverage, b.section, b.quality, b.distribution));
  }

  lemma {:induction false} RoundingBounds(round2: real -> real, x: real)
    requires IsRounding(round2)
    requires 0.0 <= x <= 100.0
    ensures 0.0 <= round2(x) <= 100.0
  {
  }

  /** Each rounded metric lies within half a hundredth of its raw value. */
  lemma {:induction false} MetricsNear(resumeText: string, bullets: seq<string>, keywords: seq<Candidate>,
                                       round2: real -> real)
    requires IsRounding(round2)
    ensures CoverageRaw(resumeText, keywords) - 0.005 <= CoverageValue(resumeText, keywords, round2)
      <= CoverageRaw(resumeText, keywords) + 0.005
    ensures QualityRaw(bullets) - 0.005 <= QualityValue(bullets, round2) <= QualityRaw(bullets) + 0.005
    ensures DistributionRaw(bullets, keywords) - 0.005 <= DistributionValue(bullets, keywords, round2)
      <= DistributionRaw(bullets, keywords) + 0.005
  {
  }

  /** A share that grows by at least one out of at most 1000 grows by at least 0.1 per cent. */
  lemma {:induction false} ShareStep(m1: real, m2: real, n: real)
    requires 0.0 < n <= 1000.0 && m2 - m1 >= 1.0
    ensures m2 / n * 100.0 - m1 / n * 100.0 >= 0.1
  {
    var q := (m2 - m1) / n;
    assert m2 / n * 100.0 - m1 / n * 100.0 == q * 100.0;
    assert q * n == m2 - m1;
  }

  /** One more keyword found out of at most 1000 raises raw coverage by at least 0.1. */
  lemma {:induction false} CoverageStep(text1: string, text2: string, keywords: seq<Candidate>)
    requires 0 < |keywords| <= 1000
    requires MatchedCount(LowerStr(text1), keywords) < MatchedCount(LowerStr(text2), keywords)
    ensures CoverageRaw(text2, keywords) - CoverageRaw(text1, keywords) >= 0.1
  {
    CoverageBounds(text1, keywords);
    CoverageBounds(text2, keywords);
    ShareStep(MatchedCount(LowerStr(text1), keywords) as real, MatchedCount(LowerStr(text2), keywords) as real,
              |keywords| as real);
  }

  /** A weighted total rises when coverage rises by 0.09 and the other metrics drop by at
      most 0.01. */
  lemma {:induction false} WeightedRises(c1: real, q1: real, d1: real, c2: real, q2: real, d2: real, s: real)
    requires c2 - c1 >= 0.09 && q2 - q1 >= -0.01 && d2 - d1 >= -0.01
    ensures WeightedTotal(c2, s, q2, d2) - WeightedTotal(c1, s, q1, d1) >= 0.032
  {
  }

  /** With the same keywords, sections and page estimate, a resume text in which more
      keywords are found, and bullets whose quality and distribution are no lower, scores
      a strictly higher total, whatever the rounding (for up to 1000 keywords, where one
      more keyword found outweighs the rounding of the five values). */
  lemma {:induction false} MoreKeywordsRaiseTotal(maxPages: int, keywords: seq<Candidate>, sections: seq<string>,
                                                  pageEstimate: int, round2: real -> real,
                                                  text1: string, bullets1: seq<string>,
                                                  text2: string, bullets2: seq<string>)
    requires IsRounding(round2)
    requires 0 < |keywords| <= 1000
    requires MatchedCount(LowerStr(text1), keywords) < MatchedCount(LowerStr(text2), keywords)
    requires QualityRaw(bullets1) <= QualityRaw(bullets2)
    requires DistributionRaw(bullets1, keywords) <= DistributionRaw(bullets2, keywords)
    ensures ScoreOf(maxPages, text1, bullets1, keywords, sections, pageEstimate, round2).total
      < ScoreOf(maxPages, text2, bullets2, keywords, sections, pageEstimate, round2).total
  {
    CoverageStep(text1, text2, keywords);
    MetricsNear(text1, bullets1, keywords, round2);
    MetricsNear(text2, bullets2, keywords, round2);
    var b1 := ScoreOf(maxPages, text1, bullets1, keywords, sections, pageEstimate, round2);
    var b2 := ScoreOf(maxPages, text2, bullets2, keywords, sections, pageEstimate, round2);
    WeightedRises(b1.coverage, b1.quality, b1.distribution, b2.coverage, b2.quality, b2.distribution, b1.section);
  }

  // ---------------------------------------------------------------------------
  // The scorer

  /** ATSScorer */
  class ATSScorer {
    const maxPages: int

    constructor(maxPages: int := 2)
      ensures this.maxPages == maxPages
    {
      this.maxPages := maxPages;
    }

    /** `score`: the four metrics, their rounded weighted total and the details. */
    method Score(resumeText: string, bullets: seq<string>, keywords: seq<Candidate>,
                 sections: seq<string>, pageEstimate: int, round2: real -> real)
      returns (b: Breakdown)
      ensures b == ScoreOf(maxPages, resumeText, bullets, keywords, sections, pageEstimate, round2)
    {
      var coverage := CoverageScore(resumeText, keywords, round2);
      var section := SectionScore(sections, pageEstimate, round2);
      var quality := QualityScore(bullets, round2);
      var distribution := DistributionScore(bullets, keywords, round2);
      var total := round2(coverage * 0.4 + section * 0.2 + quality * 0.2 + distribution * 0.2);
      var details := map["coverage" := coverage, "section" := section, "quality" := quality,
                          "distribution" := distribution];
      b := Breakdown(coverage, section, quality, distribution, total, details);
    }

    /** `_coverage_score` */
    method CoverageScore(resumeText: string, keywords: seq<Candidate>, round2: real -> real)
      returns (score: real)
      ensures score == CoverageValue(resumeText, keywords, round2)
    {
      var text := LowerStr(resumeText);
      var matched := 0;
      for i := 0 to |keywords|
        invariant matched == MatchedCount(text, keywords[..i])
      {
        assert keywords[..i + 1][..i] == keywords[..i];
        var candidate := keywords[i];
        if Contains(text, candidate.token) {
          matched := matched + 1;
          continue;
        }
        var synonyms := SynonymSet(candidate.token) + (set t | t in candidate.synonyms);
        if exists syn :: syn in synonyms && Contains(text, syn) {
          matched := matched + 1;
        }
      }
      assert keywords[..|keywords|] == keywords;
      if |keywords| == 0 {
        return 100.0;
      }
      var coverageRatio := matched as real / |keywords| as real;
      score := round2(Min(coverageRatio, 1.0) * 100.0);
    }

    /** `_section_score` */
    function SectionScore(sections: seq<string>, pageEstimate: int, round2: real -> real): real
    {
      round2(SectionRaw(sections, pageEstimate, maxPages))
    }

    /** `_quality_score` */
    method QualityScore(bullets: seq<string>, round2: real -> real) returns (score: real)
      ensures score == QualityValue(bullets, round2)
    {
      if |bullets| == 0 {
        return 50.0;
      }
      var verbHits, shortOrLongPenalties, tenseInconsistencies := QualityCounts(bullets);
      var verbRatio := verbHits as real / |bullets| as real;
      var s := 60.0 + verbRatio * 30.0;
      s := s - shortOrLongPenalties as real * 4.0;
      s := s - tenseInconsistencies as real * 4.0;
      score := round2(Max(s, 0.0));
    }

    /** `_distribution_score` */
    method DistributionScore(bullets: seq<string>, keywords: seq<Candidate>, round2: real -> real)
      returns (score: real)
      ensures score == DistributionValue(bullets, keywords, round2)
    {
      var keywordTokens := Tokens(keywords);
      if |keywordTokens| == 0 {
        return 100.0;
      }
      var counts, perBulletCounts := CountKeywords(bullets, keywordTokens);
      var penalties := PenaltyTotal(bullets, keywordTokens, counts, perBulletCounts);
      var uniqueCoverage := UniqueCoverage(bullets, keywordTokens, counts);
      var diversityRatio := uniqueCoverage as real / |keywordTokens| as real;
      var baseScore := 70.0 + diversityRatio * 30.0;
      var s := Max(baseScore - penalties as real, 0.0);
      DistributionRawOf(bullets, keywords, uniqueCoverage, penalties);
      score := round2(Min(s, 100.0));
    }
  }

  /** The counting loop of `_quality_score`: bullets opening with an action verb, bullets
      of a bad length and bullets mixing tenses. */
  method QualityCounts(bullets: seq<string>) returns (verbHits: nat, shortOrLongPenalties: nat, tenseInconsistencies: nat)
    ensures verbHits == VerbHits(bullets)
    ensures shortOrLongPenalties == LengthPenalties(bullets)
    ensures tenseInconsistencies == TenseInconsistencies(bullets)
  {
    verbHits, shortOrLongPenalties, tenseInconsistencies := 0, 0, 0;
    for i := 0 to |bullets|
      invariant verbHits == VerbHits(bullets[..i])
      invariant shortOrLongPenalties == LengthPenalties(bullets[..i])
      invariant tenseInconsistencies == TenseInconsistencies(bullets[..i])
    {
      QualityStep(bullets, i);
      var bullet := bullets[i];
      var words := Split(LowerStr(bullet));
      var opensWithVerb := |words| > 0 && words[0] in ActionVerbs;
      var badLength := |bullet| < 35 || |bullet| > 220;
      var pastTense := exists w :: w in words && EndsWith(w, "ed");
      var ingEarly := exists w :: w in Take(words, 5) && EndsWith(w, "ing");
      verbHits := verbHits + if opensWithVerb then 1 else 0;
      shortOrLongPenalties := shortOrLongPenalties + if badLength then 1 else 0;
      tenseInconsistencies := tenseInconsistencies + if pastTense && ingEarly then 1 else 0;
    }
    assert bullets[..|bullets|] == bullets;
  }

  /** The counting loop of `_distribution_score`: the global counter and one counter per
      bullet. */
  method CountKeywords(bullets: seq<string>, keywordTokens: seq<string>)
    returns (counts: map<string, nat>, perBulletCounts: seq<map<string, nat>>)
    ensures forall k :: Get(counts, k) == TotalCount(bullets, keywordTokens, k)
    ensures |perBulletCounts| == |bullets|
    ensures forall j, k :: 0 <= j < |bullets| ==> Get(perBulletCounts[j], k) == BulletCount(LowerStr(bullets[j]), keywordTokens, k)
  {
    counts := map[];
    perBulletCounts := [];
    for i := 0 to |bullets|
      invariant |perBulletCounts| == i
      invariant forall k :: Get(counts, k) == TotalCount(bullets[..i], keywordTokens, k)
      invariant forall j, k :: 0 <= j < i ==> Get(perBulletCounts[j], k) == BulletCount(LowerStr(bullets[j]), keywordTokens, k)
    {
      var bulletCounter, newCounts := CountBullet(LowerStr(bullets[i]), keywordTokens, counts);
      forall k {
        TotalCountStep(bullets, keywordTokens, i, k);
      }
      counts := newCounts;
      perBulletCounts := perBulletCounts + [bulletCounter];
    }
    assert bullets[..|bullets|] == bullets;
  }

  /** The penalty loops of `_distribution_score`, over the distinct keyword tokens. */
  method PenaltyTotal(bullets: seq<string>, keywordTokens: seq<string>, counts: map<string, nat>,
                      perBulletCounts: seq<map<string, nat>>)
    returns (penalties: nat)
    requires forall k :: Get(counts, k) == TotalCount(bullets, keywordTokens, k)
    requires |perBulletCounts| == |bullets|
    requires forall j, k :: 0 <= j < |bullets| ==> Get(perBulletCounts[j], k) == BulletCount(LowerStr(bullets[j]), keywordTokens, k)
    ensures penalties == Penalties(bullets, keywordTokens)
  {
    var keys := Unique(keywordTokens);
    penalties := 0;
    for j := 0 to |keys|
      invariant penalties == OverusePenalty(bullets, keywordTokens, keys[..j])
    {
      assert keys[..j + 1][..j] == keys[..j];
      var count := Get(counts, keys[j]);
      if count > 2 {
        penalties := penalties + (count - 2) * 5;
      }
    }
    assert keys[..|keys|] == keys;
    for b := 0 to |perBulletCounts|
      invariant penalties == OverusePenalty(bullets, keywordTokens, keys) + RepeatPenalties(bullets[..b], keywordTokens, keys)
    {
      assert bullets[..b + 1][..b] == bullets[..b];
      var bulletCounter := perBulletCounts[b];
      var before := penalties;
      for j := 0 to |keys|
        invariant penalties == before + RepeatPenalty(bullets[b], keywordTokens, keys[..j])
      {
        assert keys[..j + 1][..j] == keys[..j];
        var count := Get(bulletCounter, keys[j]);
        if count > 1 {
          penalties := penalties + (count - 1) * 5;
        }
      }
    }
    assert bullets[..|bullets|] == bullets;
  }

  /** `sum(1 for keyword in keyword_tokens if counts[keyword] > 0)` */
  method UniqueCoverage(bullets: seq<string>, keywordTokens: seq<string>, counts: map<string, nat>)
    returns (uniqueCoverage: nat)
    requires forall k :: Get(counts, k) == TotalCount(bullets, keywordTokens, k)
    ensures uniqueCoverage == CoveredCount(bullets, keywordTokens, keywordTokens)
  {
    uniqueCoverage := 0;
    for j := 0 to |keywordTokens|
      invariant uniqueCoverage == CoveredCount(bullets, keywordTokens, keywordTokens[..j])
    {
      assert keywordTokens[..j + 1][..j] == keywordTokens[..j];
      if Get(counts, keywordTokens[j]) > 0 {
        uniqueCoverage := uniqueCoverage + 1;
      }
    }
    assert keywordTokens[..|keywordTokens|] == keywordTokens;
  }

  /** The inner loop of `_distribution_score` over one bullet: its own counter, and the
      global counter with the bullet's occurrences added. */
  method CountBullet(lowered: string, keywordTokens: seq<string>, counts: map<string, nat>)
    returns (bulletCounter: map<string, nat>, newCounts: map<string, nat>)
    ensures forall k :: Get(bulletCounter, k) == BulletCount(lowered, keywordTokens, k)
    ensures forall k :: Get(newCounts, k) == Get(counts, k) + BulletCount(lowered, keywordTokens, k)
  {
    bulletCounter := map[];
    newCounts := counts;
    for t := 0 to |keywordTokens|
      invariant forall k :: Get(bulletCounter, k) == BulletCount(lowered, keywordTokens[..t], k)
      invariant forall k :: Get(newCounts, k) == Get(counts, k) + BulletCount(lowered, keywordTokens[..t], k)
    {
      var keyword := keywordTokens[t];
      var occurrences := CountOcc(lowered, keyword);
      if occurrences != 0 {
        bulletCounter := Add(bulletCounter, keyword, occurrences);
        newCounts := Add(newCounts, keyword, occurrences);
      }
      forall k
        ensures Get(bulletCounter, k) == BulletCount(lowered, keywordTokens[..t + 1], k)
        ensures Get(newCounts, k) == Get(counts, k) + BulletCount(lowered, keywordTokens[..t + 1], k)
      {
        BulletCountStep(lowered, keywordTokens, t, k);
      }
    }
    assert keywordTokens[..|keywordTokens|] == keywordTokens;
  }

  /** `summarise_keywords`: for every keyword token, `{"global": n}` with `n` its count
      over all lower-cased bullets, each listed copy counted again. The inner dictionaries
      only ever hold the key "global", so the counts are kept in one map and wrapped at
      the end. */
  method SummariseKeywords(keywords: seq<Candidate>, bullets: seq<string>)
    returns (summary: map<string, map<string, int>>)
    ensures summary.Keys == set c | c in keywords :: c.token
    ensures forall k :: k in summary ==> summary[k] == GlobalEntry(TotalCount(bullets, Tokens(keywords), k))
  {
    var tokens := Tokens(keywords);
    var global: map<string, int> := map[];
    for i := 0 to |keywords|
      invariant global.Keys == set j | 0 <= j < i :: keywords[j].token
      invariant forall k :: k in global ==> global[k] == 0
    {
      global := global[keywords[i].token := 0];
    }
    assert global.Keys == set c | c in keywords :: c.token by {
      forall c | c in keywords ensures c.token in global {
        var j :| 0 <= j < |keywords| && keywords[j] == c;
      }
    }
    ghost var keySet := global.Keys;
    for i := 0 to |bullets|
      invariant global.Keys == keySet
      invariant forall k :: k in global ==> global[k] == TotalCount(bullets[..i], tokens, k)
    {
      global := AddBulletCounts(global, LowerStr(bullets[i]), tokens);
      forall k {
        TotalCountStep(bullets, tokens, i, k);
      }
    }
    assert bullets[..|bullets|] == bullets;
    summary := map k | k in global :: GlobalEntry(global[k]);
  }

  /** One pass of `summarise_keywords` over a lower-cased bullet: every listed keyword
      adds its occurrences to its count. */
  method AddBulletCounts(global: map<string, int>, lowered: string, tokens: seq<string>)
    returns (updated: map<string, int>)
    requires forall k :: k in tokens ==> k in global
    ensures updated.Keys == global.Keys
    ensures forall k :: k in global ==> updated[k] == global[k] + BulletCount(lowered, tokens, k)
  {
    updated := global;
    for t := 0 to |tokens|
      invariant updated.Keys == global.Keys
      invariant forall k :: k in global ==> updated[k] == global[k] + BulletCount(lowered, tokens[..t], k)
    {
      forall k {
        BulletCountStep(lowered, tokens, t, k);
      }
      var token := tokens[t];
      updated := AddOccurrences(updated, token, CountOcc(lowered, token));
    }
    assert tokens[..|tokens|] == tokens;
  }

  /** `if count: summary[token]["global"] += count` */
  method AddOccurrences(global: map<string, int>, token: string, count: nat)
    returns (updated: map<string, int>)
    requires token in global
    ensures updated == global[token := global[token] + count]
  {
    updated := global;
    if count != 0 {
      updated := global[token := global[token] + count];
    }
  }
}
