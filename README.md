# Resume Optimizer — a Dafny model of its core

Resume Optimizer tunes a LaTeX résumé to a job posting for Applicant-Tracking-System
(ATS) screening. It ranks the posting's keywords, scores the résumé against them and
against a few formatting conventions, and rewrites résumé bullets so that more keywords
appear, within a length budget when the strict mode is on. This project models that
pipeline and the small helpers around it, and proves what each part promises.

| file | module | models |
|---|---|---|
| `options.dfy` | `Options` | the optional value used for `None` |
| `text.dfy` | `Text` | the ASCII part of Python's `str`: character classes, `lower`, `find`, `in`, `count`, `split`, `join`, `strip`, `splitlines` |
| `counters.dfy` | `Counters` | `Counter`-style maps with a default of zero |
| `sorting.dfy` | `Sorting` | `sorted` under a key with no ties, as an insertion sort whose result is the one ordered permutation |
| `keyword_extract.dfy` | `KeywordExtract` | `ats/keyword_extract.py`: tokenising, bigrams, the frequency ranking with its first-seen tie-break and deduplication, and the choice between the semantic and the frequency ranking |
| `keyword_examples.dfy` | `KeywordExamples` | the stop-word facts and the keyword-extraction test scenario |
| `scorer.dfy` | `Scorer` | `ats/scorer.py`: the four metrics as specification functions, the `ATSScorer` class whose loop methods are proved equal to them, the weighted total and `summarise_keywords` |
| `ast_parser.dfy` | `AstParser` | `latex/ast_parser.py`: the line classifier, `parse_document`, and the `Document` class with `replace_bullet`, `render`, `bullet_texts`, `section_names` and `page_estimate` |
| `rewriter.dfy` | `Rewriter` | `latex/rewriter.py`: `_replace_synonym`, the per-candidate step, the usage ledger, the strict budget and the write-back through `Document.ReplaceBullet` |
| `pdf_compile.dfy` | `PdfCompile` | `compile/pdf_compile.py`: the minimal PDF file and its cross-reference table, following section 7.5.4 of ISO 32000-1 |
| `typer.dfy` | `TyperShim` | `typer/__init__.py`: command registration and dispatch, the argv option parser and annotation resolution |
| `linkedin_scraper.dfy` | `Harvest` | `harvest/linkedin_scraper.py`: `_slug`, `_simple_keywords`, `ManualJob` and the scraper's settings |

Where the code is imperative (the counting and deduplication loops, the scorer's
accumulators, the rewriter's nested loops, `parse_document`, the argv loop, the
frequency table of `_simple_keywords`), the model is a method with a loop. Each such
method is proved equal to a specification function, and the properties are lemmas about
that function. Objects updated in place (`Document`, `ATSScorer`, `Typer`, `ManualJob`,
`LinkedInScraper`) are classes.

Three behaviours of the code that a reader might not expect:
- `_extract_keywords_basic` builds bigrams from the token stream after `normalise` has
  already removed the stop words (ats/keyword_extract.py:59-60, 75). The stop-word test
  on bigram halves (line 91) therefore never discards anything, and the two words on
  either side of a removed stop word form a bigram.
- `optimize_resume` adds a keyword's existing occurrences in a bullet to its usage
  counter, besides the insertions it makes (latex/rewriter.py:45-46).
- `_distribution_score` counts a keyword token that is listed twice once per listing
  (ats/scorer.py:128-141).

Default arguments of the source (`limit=15`, `max_pages=2`, `max_keywords=20`,
`use_openai=True`, `strict=False`, the `ManualJob` and `LinkedInScraper` field defaults,
`help=None`, `name=None`) are the default values of the corresponding Dafny parameters.

## Model

| member | source | states |
|---|---|---|
| KeywordExtract.SynonymListsSorted | ats/keyword_extract.py:34-45 | every synonym list handed out is in ascending order, as `sorted(SYNONYMS.get(token, []))` promises |
| KeywordExtract.TokenRun | ats/keyword_extract.py:55 | the run of `[a-zA-Z0-9+.#-]` characters at the front is maximal: every character in it belongs to the class and the next one does not |
| KeywordExtract.Matches | ats/keyword_extract.py:55-59 | every match of the token pattern starts with a letter and has at least three characters of the class |
| KeywordExtract.LowerAndFilter | ats/keyword_extract.py:59-60 | every kept token is the lower-cased form of some match; every match whose lower-cased form is not a stopword is kept |
| KeywordExtract.Normalise | ats/keyword_extract.py:58-61 | `normalise` yields only lower-case, non-stopword tokens, and keeps every match that is not a stopword |
| KeywordExtract.Bigrams | ats/keyword_extract.py:64-66 | `_ngram(tokens, 2)` has one entry per adjacent pair (none for fewer than two tokens), each the pair joined by a single space |
| KeywordExtract.Unique | ats/keyword_extract.py:74 | the keys of `Counter(tokens)` have no repeats and are exactly the tokens that occur |
| KeywordExtract.UnigramCandidates | ats/keyword_extract.py:86-88 | one unigram candidate per distinct token |
| KeywordExtract.BigramCandidatesOf | ats/keyword_extract.py:90-93 | every bigram candidate scores its count plus 0.5 with no synonyms, and no bigram appears twice |
| KeywordExtract.TokenHasNoSpace | ats/keyword_extract.py:55 | a token never contains a space |
| KeywordExtract.BigramIsNotToken | ats/keyword_extract.py:64-66 | a bigram is never also a unigram, so the two candidate kinds never share a token |
| KeywordExtract.CandidatesDistinct | ats/keyword_extract.py:84-93 | no two candidates share a token |
| KeywordExtract.FirstSeenValues | ats/keyword_extract.py:77-82 | `first_seen` maps each token to its first index and each bigram to `len(tokens)` plus its first bigram index |
| KeywordExtract.FirstSeenOfToken | ats/keyword_extract.py:78-79 | a token's `first_seen` entry is its first index |
| KeywordExtract.FirstSeenOfBigram | ats/keyword_extract.py:80-82 | a bigram's `first_seen` entry is the offset plus its first bigram index |
| KeywordExtract.FirstSeenOfCandidate | ats/keyword_extract.py:77-98 | every candidate has a `first_seen` entry, so the `get(..., 0)` default is never used |
| KeywordExtract.FirstSeenStart | ats/keyword_extract.py:77-82 | only the first token has `first_seen` 0, and a different second token has 1 |
| KeywordExtract.FirstSeenInjective | ats/keyword_extract.py:77-82 | different candidates have different `first_seen` entries |
| KeywordExtract.CandidateTokens | ats/keyword_extract.py:84-93 | every candidate is a token or a bigram of the text |
| KeywordExtract.RankLessTotalPair | ats/keyword_extract.py:97-99 | two candidates with different `first_seen` entries are ordered one way or the other by the sort key |
| KeywordExtract.RankLessPartialOrder | ats/keyword_extract.py:97-99 | the key `(-score, first_seen)` orders irreflexively and transitively |
| KeywordExtract.CandidatesDistinctAsValues | ats/keyword_extract.py:84-93 | the candidate list has no repeated entry |
| KeywordExtract.RankLessTotalOn | ats/keyword_extract.py:97-99 | any two different candidates are ordered by the sort key |
| KeywordExtract.RankLessStrictTotal | ats/keyword_extract.py:97-99 | the sort key is a strict total order on the candidates, so `sorted` has exactly one possible result |
| KeywordExtract.Ranked | ats/keyword_extract.py:97-99 | the sorted candidates are a permutation of the candidates, ordered by descending score then ascending `first_seen` |
| KeywordExtract.DedupDistinct | ats/keyword_extract.py:100-103 | the `seen` check drops nothing from a list with distinct tokens |
| KeywordExtract.FirstSeenFromEntries | ats/keyword_extract.py:77-82 | a map with the first-occurrence entries for every token and bigram is the `first_seen` table |
| KeywordExtract.UnigramFirstSeen | ats/keyword_extract.py:77-79 | the first `setdefault` loop records each token at its first index |
| KeywordExtract.AddBigramFirstSeen | ats/keyword_extract.py:80-82 | the second loop adds each new bigram at the offset plus its first index and keeps every token entry |
| KeywordExtract.FirstSeenTable | ats/keyword_extract.py:77-82 | the two loops build the `first_seen` table |
| KeywordExtract.DedupStep | ats/keyword_extract.py:100-103 | one round of the dedup loop skips a seen token and otherwise keeps the candidate and records it |
| KeywordExtract.TakeDistinct | ats/keyword_extract.py:95-105 | the dedup loop returns the first `max(max_keywords, 1)` candidates with unseen tokens |
| KeywordExtract.ExtractKeywordsBasic | ats/keyword_extract.py:69-107 | `_extract_keywords_basic` returns the ranking of the text's candidates, or nothing for a text without tokens |
| KeywordExtract.ExtractKeywords | ats/keyword_extract.py:167-176 | a non-empty model answer is returned as it is when OpenAI is enabled; otherwise the basic extraction is used |
| KeywordExtract.BigramParts | ats/keyword_extract.py:64-66 | splitting a bigram on spaces gives back its two tokens (see also lines 91) |
| KeywordExtract.BigramsEqual | ats/keyword_extract.py:64-66 | equal bigrams come from equal token pairs |
| KeywordExtract.BigramsHaveNoStopwordPart | ats/keyword_extract.py:90-92 | no bigram has a stopword part, so the `continue` on line 92 never runs |
| KeywordExtract.AllBigramCandidates | ats/keyword_extract.py:90-93 | every bigram without a stopword part becomes a candidate scored count + 0.5 |
| KeywordExtract.BigramIsCandidate | ats/keyword_extract.py:90-93 | the only bigram of a two-token text is a candidate scored 1.5 |
| KeywordExtract.CandidateScores | ats/keyword_extract.py:84-93 | every token is a candidate scored by its count with its sorted synonyms; every bigram is one scored by its count plus 0.5; nothing else is a candidate |
| KeywordExtract.NoTie | ats/keyword_extract.py:88-93 | a unigram and a bigram never tie, and the unigram ranks higher exactly when its count exceeds the bigram's |
| KeywordExtract.PermutationDistinctTokens | ats/keyword_extract.py:97-99 | sorting keeps the candidates' tokens distinct |
| KeywordExtract.RankedDistinct | ats/keyword_extract.py:97-103 | the sorted list holds exactly the candidates, no token twice, so the `seen` check never skips one |
| KeywordExtract.RankTokensIsPrefix | ats/keyword_extract.py:95-107 | the result is the first `max(max_keywords, 1)` entries of the sorted candidates |
| KeywordExtract.RankTokensShape | ats/keyword_extract.py:95-107 | for a non-empty token list the result is non-empty with distinct tokens, at most `max_keywords` long, and one entry when `max_keywords < 1` (the break runs after the first append) |
| KeywordExtract.RankTokensAreCandidates | ats/keyword_extract.py:95-107 | every result is a candidate |
| KeywordExtract.RankTokensLength | ats/keyword_extract.py:95-107 | the result length is the smaller of the limit and the number of candidates |
| KeywordExtract.RankKeywordsShape | ats/keyword_extract.py:69-107 | the result is empty exactly when `normalise` finds no tokens; otherwise as above |
| KeywordExtract.RankTokensKinds | ats/keyword_extract.py:84-107 | every result is a unigram scored by its count or a bigram scored by its count plus 0.5 |
| KeywordExtract.RankTokensOrder | ats/keyword_extract.py:97-99 | scores never increase along the result, and ties keep first-occurrence order |
| KeywordExtract.OrderedPair | ats/keyword_extract.py:97-99 | a candidate sorted before another has a score at least as high, and on a tie occurs earlier |
| KeywordExtract.TiedPair | ats/keyword_extract.py:97-99 | of two tied candidates, the one sorted first occurs earlier |
| KeywordExtract.RankTokensTop | ats/keyword_extract.py:95-107 | every kept candidate ranks above every dropped one |
| KeywordExtract.RankTokensFirst | ats/keyword_extract.py:95-107 | the first result ranks above every other candidate |
| KeywordExtract.FirstTokenWins | ats/keyword_extract.py:97-99 | when the first token has the top count, it comes first, because it has `first_seen` 0 |
| KeywordExtract.BeforeSecondIsFirst | ats/keyword_extract.py:97-99 | when the second token has the top count, only the first token can rank before it |
| KeywordExtract.SecondTokenKept | ats/keyword_extract.py:95-107 | when the second token has the top count and `max_keywords >= 2`, it is in the result |
| KeywordExtract.TokenRunOfRun | ats/keyword_extract.py:55 | the token-character run of a word followed by a separator is the whole word |
| KeywordExtract.MatchesWord | ats/keyword_extract.py:55-59 | a word followed by a separator is matched, then the scan continues after it |
| KeywordExtract.MatchesWords | ats/keyword_extract.py:55-59 | a word followed by a space is matched, then the scan continues after the space |
| KeywordExtract.MatchesJoin | ats/keyword_extract.py:55-59 | matching words joined by spaces gives back those words |
| KeywordExtract.LowerAndFilterKeepsAll | ats/keyword_extract.py:59-60 | when no match is a stopword, lowering and filtering keeps every match in place |
| KeywordExamples.StopwordFacts | ats/keyword_extract.py:12-31 | "and" is a stopword; "python" and "data" are not |
| KeywordExamples.MatchesAcrossStopword | ats/keyword_extract.py:55-59 | the pattern matches all three words of "data and python" |
| KeywordExamples.FilterAcrossStopword | ats/keyword_extract.py:59-60 | filtering drops "and" and keeps ["data", "python"] |
| KeywordExamples.NormaliseAcrossStopword | ats/keyword_extract.py:58-61 | `normalise("data and python")` is ["data", "python"] |
| KeywordExamples.DataPythonBigram | ats/keyword_extract.py:64-66 | the only bigram of ["data", "python"] is "data python" |
| KeywordExamples.DataPythonCandidates | ats/keyword_extract.py:90-93 | "data python" is a candidate scored 1.5 |
| KeywordExamples.BigramAcrossStopword | ats/keyword_extract.py:70-75 | stopwords go before the pairs are built, so "data and python" yields the bigram candidate "data python" scored 1.5 (see also lines 90-93) |
| KeywordExamples.ScenarioWordsAreTokens | tests/test_keyword_extract.py:5 | every lower-cased word of the test text is a token |
| KeywordExamples.LowerScenario | tests/test_keyword_extract.py:5 | lower-casing the test words gives the scenario tokens |
| KeywordExamples.FilterScenario | tests/test_keyword_extract.py:5 | no test word is a stopword |
| KeywordExamples.NormaliseScenario | tests/test_keyword_extract.py:5 | `normalise` of the test text is its six words lower-cased |
| KeywordExamples.ScenarioHeadsOf | tests/test_keyword_extract.py:5 | the first letters of the scenario tokens |
| KeywordExamples.HeadPairsDiffer | tests/test_keyword_extract.py:5 | no two adjacent pairs of the scenario start with the same letters |
| KeywordExamples.ScenarioBigramsDistinct | tests/test_keyword_extract.py:5 | the scenario has five different bigrams |
| KeywordExamples.ScenarioTokenCounts | tests/test_keyword_extract.py:5 | "python" and "analytics" occur twice, and no token more often |
| KeywordExamples.ScenarioBigramCounts | tests/test_keyword_extract.py:5 | every bigram occurs at most once |
| KeywordExamples.ScenarioScores | tests/test_keyword_extract.py:5 | no candidate scores above 2.0 |
| KeywordExamples.RankScenarioFirst | tests/test_keyword_extract.py:4-8 | with five keywords the ranking starts with "python" |
| KeywordExamples.RankScenarioKept | tests/test_keyword_extract.py:4-9 | "analytics" is among the five keywords |
| KeywordExamples.RankKeywordsScenario | tests/test_keyword_extract.py:4-10 | on the test text, the basic extractor puts "python" first and keeps "analytics" |
| Scorer.MatchedCount | ats/scorer.py:85-92 | no more keywords match than there are keywords |
| Scorer.CoverageBounds | ats/scorer.py:93-96 | coverage is the share of matched keywords times 100, lies in [0, 100], and is 100 exactly when every keyword matches |
| Scorer.MatchedCountAppend | ats/scorer.py:84-92 | appending text never lowers the number of matched keywords |
| Scorer.CoverageMonotone | ats/scorer.py:83-96 | appending text to the resume never lowers coverage |
| Scorer.KeywordFoundAppend | ats/scorer.py:87-91 | a keyword, or one of its synonyms, found in a text is still found after more text is appended |
| Scorer.MissingSections | ats/scorer.py:99-100 | the missing sections are exactly the required ones that no present section equals after lower-casing |
| Scorer.SectionBounds | ats/scorer.py:98-105 | the section score is 100 minus 20 per missing section minus 20 over the page limit; it lies in [20, 100], so the `max(score, 0.0)` never applies; it is 100 exactly when nothing is missing and the page estimate is within the limit |
| Scorer.VerbHits | ats/scorer.py:113-116 | no more verb hits than bullets |
| Scorer.LengthPenalties | ats/scorer.py:117-118 | no more length penalties than bullets |
| Scorer.TenseInconsistencies | ats/scorer.py:119-120 | no more tense inconsistencies than bullets |
| Scorer.QualityStep | ats/scorer.py:113-120 | one more bullet adds its own verb hit, length penalty and tense inconsistency |
| Scorer.QualityBounds | ats/scorer.py:107-125 | quality lies in [0, 90]; with no length or tense penalty it is 60 plus 30 times the verb share; it is 90 when every bullet opens with an action verb |
| Scorer.Tokens | ats/scorer.py:128 | the keyword tokens, in order |
| Scorer.BulletCountIsProduct | ats/scorer.py:136-140 | a bullet's counter holds, for each keyword, its occurrences times the number of times it is listed |
| Scorer.BulletCountPositive | ats/scorer.py:136-140 | a bullet counts a keyword exactly when the keyword is listed and occurs in the bullet |
| Scorer.BulletCountStep | ats/scorer.py:136-140 | counting one more listed keyword adds its occurrences to its own entry only |
| Scorer.TotalCountStep | ats/scorer.py:133-141 | counting one more bullet adds that bullet's counts |
| Scorer.TotalCountPositive | ats/scorer.py:133-141 | the global counter holds something for a keyword exactly when it is listed and some bullet contains it |
| Scorer.CoveredCount | ats/scorer.py:151 | `unique_coverage` never exceeds the number of keyword tokens |
| Scorer.DistributionRawOf | ats/scorer.py:151-155 | the raw distribution score is `min(max(70 + 30 * coverage share - penalties, 0), 100)` |
| Scorer.DistributionBounds | ats/scorer.py:127-155 | distribution lies in [0, 100]; without penalties it is 70 plus 30 times the share of keywords used, so 100 when all are used |
| Scorer.CoveredCountMeaning | ats/scorer.py:151 | every keyword is covered exactly when each occurs in some lower-cased bullet |
| Scorer.ScoreBounds | ats/scorer.py:53-80 | under any rounding that keeps [0, 100], every metric and the total lie in [0, 100], and the details name the four metrics |
| Scorer.ATSScorer.constructor | ats/scorer.py:50-51 | records the page limit |
| Scorer.ATSScorer.Score | ats/scorer.py:53-80 | computes the four metrics and their weighted total 0.4 / 0.2 / 0.2 / 0.2, rounded |
| Scorer.ATSScorer.CoverageScore | ats/scorer.py:83-96 | the matching loop gives 100 without keywords, otherwise the rounded coverage |
| Scorer.ATSScorer.QualityScore | ats/scorer.py:107-125 | 50 without bullets, otherwise the rounded quality from the three counts |
| Scorer.ATSScorer.DistributionScore | ats/scorer.py:127-155 | 100 without keywords, otherwise the rounded distribution score from the counters, penalties and coverage |
| Scorer.QualityCounts | ats/scorer.py:110-120 | the loop counts bullets opening with an action verb, bullets shorter than 35 or longer than 220 characters, and bullets mixing tenses |
| Scorer.CountKeywords | ats/scorer.py:131-141 | the global counter and each bullet's counter hold the occurrence counts |
| Scorer.PenaltyTotal | ats/scorer.py:143-150 | 5 per global occurrence beyond two, plus 5 per occurrence beyond one in any single bullet |
| Scorer.UniqueCoverage | ats/scorer.py:151 | counts the keyword entries with a positive global count |
| Scorer.CountBullet | ats/scorer.py:134-140 | one bullet's counter, and the global counter grown by it |
| Scorer.SummariseKeywords | ats/scorer.py:158-170 | the report has one entry per keyword token, holding `{"global": n}` with n its total occurrences over the bullets |
| Scorer.AddBulletCounts | ats/scorer.py:165-169 | one bullet adds its occurrences to every listed keyword and adds no key |
| Scorer.AddOccurrences | ats/scorer.py:168-169 | adds a count to one entry |
| Scorer.MetricsNear | ats/scorer.py:93-96 | coverage, quality and distribution, once rounded to two places, are each within 0.005 of their unrounded values |
| Scorer.CoverageStep | ats/scorer.py:82-96 | one more keyword found, out of at most 1000, raises the unrounded coverage by at least 0.1 |
| Scorer.MoreKeywordsRaiseTotal | tests/test_scorer.py:5-29 | with the same keywords, sections and page estimate, a text in which more keywords are found, with bullets of no lower quality and distribution, gets a strictly higher total, whatever the rounding |
| AstParser.BracedNameMatches | latex/ast_parser.py:8-9 | the search finds a name exactly when a `\section{...}` match exists, and returns the name of the leftmost one (see also lines 66, 70) |
| AstParser.BracedFound | latex/ast_parser.py:8-9 | the first opener with a `}` after it is the leftmost match |
| AstParser.NoCloseAfter | latex/ast_parser.py:8-9 | when no `}` follows the first opener, the line has no match at all |
| AstParser.SkipOption | latex/ast_parser.py:10 | the optional `[...]` group only removes a prefix |
| AstParser.ItemMatch | latex/ast_parser.py:10 | a matched lead is all whitespace and is followed by `\item` at the start of the line (see also lines 74) |
| AstParser.ClassifyPriority | latex/ast_parser.py:65-75 | a section match wins over a subsection match, and both win over an item; a line is an item exactly when neither section pattern matches and the item pattern does |
| AstParser.LowerStripped | latex/ast_parser.py:68-72 | `.strip().lower()` yields a stripped, lower-case name |
| AstParser.ClassifyNormalises | latex/ast_parser.py:68-80 | section names are stripped and lower-case; item content is stripped and the lead is whitespace |
| AstParser.Kinds | latex/ast_parser.py:65 | one classification per line, in order |
| AstParser.KindsPrefix | latex/ast_parser.py:65 | the classification of a prefix of the lines is the prefix of the classification |
| AstParser.KindsUpdate | latex/ast_parser.py:65 | replacing one line changes only that line's classification |
| AstParser.ParsedStep | latex/ast_parser.py:65-82 | one loop round appends that line's section or bullet |
| AstParser.SectionsFromLines | latex/ast_parser.py:66-73 | every section comes from a section or subsection line with that name |
| AstParser.SectionsInOrder | latex/ast_parser.py:65-73 | the sections appear in line order |
| AstParser.SectionsComplete | latex/ast_parser.py:65-73 | every section or subsection line gives a section |
| AstParser.BulletsFromLines | latex/ast_parser.py:74-82 | every bullet comes from an item line and holds its lead and content |
| AstParser.BulletsInOrder | latex/ast_parser.py:65-82 | the bullets appear in line order |
| AstParser.BulletsComplete | latex/ast_parser.py:74-82 | every item line gives a bullet |
| AstParser.OneElementPerLine | latex/ast_parser.py:67-75 | no bullet shares its line with a section, because of the `continue`s |
| AstParser.ParsedNormalised | latex/ast_parser.py:68-80 | every parsed section name is stripped and lower-case; every bullet is stripped with a whitespace lead |
| AstParser.ParseDocument | latex/ast_parser.py:60-84 | the loop returns a new document of the text's lines with the bullets and sections found in them |
| AstParser.RenderParsed | latex/ast_parser.py:42-43 | rendering the parsed lines gives the text back when it uses only `\n` line breaks and has no trailing one (see also lines 61) |
| AstParser.ItemLineTextParses | latex/ast_parser.py:10 | a line written by `replace_bullet` reads back as the same lead and content, provided the content is stripped (see also lines 35) |
| AstParser.ItemBody | latex/ast_parser.py:10 | `\item` plus a space and the content skips no option group (see also lines 35) |
| AstParser.ItemMatchOf | latex/ast_parser.py:10 | whitespace followed by `\item` is matched with that whitespace as the lead |
| AstParser.BulletsOfPrefix | latex/ast_parser.py:65-82 | the bullets of the first n lines are a prefix of all bullets, and the rest lie at line n or later |
| AstParser.BulletsOfUpdate | latex/ast_parser.py:33-40 | turning an item line into another with the same lead changes only that bullet's content |
| AstParser.SectionsOfUpdate | latex/ast_parser.py:65-73 | changing a line that is not a section, into one that is not, keeps the sections |
| AstParser.BulletPosition | latex/ast_parser.py:65-82 | bullet `index` sits on a line that has exactly `index` bullets before it |
| AstParser.ReplaceBulletReparses | latex/ast_parser.py:33-40 | re-parsing the lines after `replace_bullet` gives the updated bullets and the same sections, when the new content is stripped and names no section |
| AstParser.PageCountLeast | latex/ast_parser.py:53-57 | the page estimate is the least page count that holds every page break and fits 55 lines to a page |
| AstParser.PageBreaks | latex/ast_parser.py:54 | at most one break per line, and none exactly when no line holds `\newpage` or `\pagebreak` |
| AstParser.Document.constructor | latex/ast_parser.py:27-31 | holds the given lines, bullets and sections |
| AstParser.Document.ReplaceBullet | latex/ast_parser.py:33-40 | rewrites the bullet's line as its lead, `\item ` and the new content, updates that bullet's content, keeps the sections, and keeps the document consistent with its lines |
| AstParser.Document.BulletTexts | latex/ast_parser.py:45-47 | the bullets' contents, in order |
| AstParser.Document.SectionNames | latex/ast_parser.py:49-51 | the sections' names, in order |
| AstParser.Document.PageEstimate | latex/ast_parser.py:53-57 | at least one page, one more than the page breaks, and enough for 55 lines a page; and the least such count |
| Rewriter.ReplaceSynonym | latex/rewriter.py:20-29 | a failed substitution returns the text unchanged; a successful one changes its length by the keyword's length less the synonym's |
| Rewriter.Window | latex/rewriter.py:26 | the clamped slice around the match holds a backslash exactly when the match is not clear of macros |
| Rewriter.ReplaceSynonymMeaning | latex/rewriter.py:20-29 | the substitution succeeds exactly when the synonym's first occurrence in the lower-cased text has no backslash within two characters; the result is that occurrence replaced by the keyword; no occurrence means `(text, False)` |
| Rewriter.FirstReplacement | latex/rewriter.py:50-59 | a text found by the synonym search contains the keyword and, in strict mode, is within 10 characters of the original's length |
| Rewriter.SubstitutionPlacesKeyword | latex/rewriter.py:28 | a successful substitution leaves the keyword in the text |
| Rewriter.AdditionPlacesKeyword | latex/rewriter.py:62-65 | appending ` (token)` leaves the keyword in the text |
| Rewriter.FirstReplacementAt | latex/rewriter.py:50-59 | the search takes the first synonym, in iteration order, whose substitution succeeds and passes the strict check |
| Rewriter.FirstReplacementNone | latex/rewriter.py:50-61 | the search finds nothing when no synonym is taken |
| Rewriter.StepLedger | latex/rewriter.py:42-67 | one candidate keeps the usage counter growing and never inserts a keyword whose usage is already two; an insertion adds one to its usage and leaves the keyword in the text |
| Rewriter.CandidateStepLedger | latex/rewriter.py:42-67 | the same for one candidate, with its synonym search |
| Rewriter.CandidateStepsLedger | latex/rewriter.py:42-67 | the same for the whole candidate loop of one bullet |
| Rewriter.CountsIn | latex/rewriter.py:36 | one entry per keyword token, holding its count in the lower-cased text (see also lines 74) |
| Rewriter.RewriteBullet | latex/rewriter.py:39-69 | in strict mode a bullet ends within 10 characters of its original length; the usage counter only grows |
| Rewriter.Contents | latex/rewriter.py:38-39 | the bullets' contents, in order |
| Rewriter.Fold | latex/rewriter.py:38-71 | one final text per bullet |
| Rewriter.FoldLedger | latex/rewriter.py:38-71 | the bullet loop keeps the insertion cap when each bullet does |
| Rewriter.FoldGrows | latex/rewriter.py:38-71 | the usage counter after any prefix of the bullets is below the final one |
| Rewriter.FoldBudget | latex/rewriter.py:68-69 | every bullet stays within budget when each rewrite does |
| Rewriter.BulletRewriteKeeps | latex/rewriter.py:39-69 | the per-bullet rewrite keeps the cap, and in strict mode the budget |
| Rewriter.RewriteAll | latex/rewriter.py:38-71 | one final text per bullet |
| Rewriter.RewriteAllStep | latex/rewriter.py:38-71 | one more bullet is rewritten with the usage counter left by the bullets before it |
| Rewriter.AtMostTwoInsertions | latex/rewriter.py:43-44 | no keyword is inserted more than twice over the whole document, and every insertion is counted in `usage` (see also lines 62-67) |
| Rewriter.CappedAfter | latex/rewriter.py:43-44 | usage never decreases from one bullet to a later one, and a keyword whose usage has reached two is never inserted again |
| Rewriter.StrictWithinBudget | latex/rewriter.py:53-69 | in strict mode every bullet's final length is within 10 characters of its original |
| Rewriter.WriteBack | latex/rewriter.py:70-71 | writing bullets back keeps the number of lines |
| Rewriter.WriteBackLines | latex/rewriter.py:70-71 | a changed bullet's line holds its new item line, and every other line is as it was |
| Rewriter.OptimizedLines | latex/rewriter.py:33-73 | the optimised document has as many lines as the original |
| Rewriter.KeywordMap | latex/rewriter.py:74-78 | one entry per keyword token, holding its lower-case counts before and after |
| Rewriter.KeywordMapOfCounts | latex/rewriter.py:36 | the keyword map is built from the before and after counts (see also lines 74-78) |
| Rewriter.UnchangedBulletsKeepLines | latex/rewriter.py:70-73 | every line that holds no changed bullet is as it was |
| Rewriter.ChangedBulletLines | latex/rewriter.py:70-71 | a changed bullet's line becomes its lead, `\item ` and the new content |
| Rewriter.TrySynonyms | latex/rewriter.py:49-59 | the synonym loop returns the first synonym's substitution that is taken |
| Rewriter.RewriteBulletContent | latex/rewriter.py:39-69 | the candidate loop and the strict rollback compute the bullet's final text and the new usage counter |
| Rewriter.WriteBackStep | latex/rewriter.py:70-71 | one more bullet is written back only when it changed |
| Rewriter.RewriteBulletAt | latex/rewriter.py:38-71 | one outer round rewrites bullet idx and writes it back with `replace_bullet` only when it changed |
| Rewriter.RewriteDocument | latex/rewriter.py:38-71 | the outer loop leaves the document's lines with every changed bullet written back |
| Rewriter.OptimizeResume | latex/rewriter.py:32-88 | the optimised text is the rewritten lines joined by newlines; the keyword map holds each token's counts before and after |
| Rewriter.StepText | latex/rewriter.py:42-67 | a keyword used twice is skipped; one the bullet already holds only adds its occurrences to the usage; otherwise the synonym substitution found is taken, and without one only the non-strict mode appends ` (token)` |
| PdfCompile.Decimal | compile/pdf_compile.py:85-89 | `str(n).encode()` is at least one byte, all decimal digits |
| PdfCompile.DecimalValue | compile/pdf_compile.py:85-89 | reading the digits back gives n |
| PdfCompile.DecimalLength | compile/pdf_compile.py:94 | a number below 10^w has at most w digits |
| PdfCompile.PadZero | compile/pdf_compile.py:94 | `{o:010}` pads to ten bytes and never truncates a longer number |
| PdfCompile.PadZeroValue | compile/pdf_compile.py:94 | padding with zeros keeps the value, and an offset below 10^10 is exactly ten digits |
| PdfCompile.ObjHead | compile/pdf_compile.py:81-86 | the `k 0 obj` head has the length of k's digits plus six |
| PdfCompile.ReplaceByte | compile/pdf_compile.py:83 | `bytes.replace` of one byte by another changes exactly those bytes |
| PdfCompile.EscapeMeaning | compile/pdf_compile.py:83 | every `(` of the body becomes `[` and every `)` becomes `]`, nothing else changes, no parenthesis is left, and escaping twice is escaping once |
| PdfCompile.ObjectPieces | compile/pdf_compile.py:80-90 | the file begins with the header followed by objects 1 to 5 |
| PdfCompile.XrefPieces | compile/pdf_compile.py:88 | the table is `xref`, the subsection `0 6`, the free entry, then the entries of objects 1 to 5 in order |
| PdfCompile.AsciiLengths | compile/pdf_compile.py:80-94 | the lengths of the fixed pieces: a 9-byte header, a 20-byte free entry, a 6-byte `\n%%EOF` |
| PdfCompile.DocumentParts | compile/pdf_compile.py:87-90 | the file starts with the header, the table starts at `xref_offset`, and the trailer ends the file |
| PdfCompile.ObjectPart | compile/pdf_compile.py:81-88 | object k sits at the offset its table entry records |
| PdfCompile.DocumentFrame | compile/pdf_compile.py:80-90 | the file starts with `%PDF-1.4\n` and ends with `%%EOF` |
| PdfCompile.StartXrefNumber | compile/pdf_compile.py:87-89 | the number after `startxref` is the decimal form of `xref_offset` and reads back as it, followed by the end marker |
| PdfCompile.XrefKeywordAtOffset | compile/pdf_compile.py:87-90 | the `xref` keyword begins at the byte offset given after `startxref` |
| PdfCompile.FreeEntryFirst | compile/pdf_compile.py:88 | the first entry of the table is the free entry `0000000000 65535 f \n` |
| PdfCompile.ObjectAtOffset | compile/pdf_compile.py:81-88 | the `k 0 obj` head of object k sits at its recorded offset |
| PdfCompile.OffsetsBelow | compile/pdf_compile.py:87-88 | every object offset is at most `xref_offset` |
| PdfCompile.XrefEntryReads | compile/pdf_compile.py:93-94 | an entry is 20 bytes (section 7.5.4 of ISO 32000-1), its first ten digits read back as the offset, and ` 00000 n \n` follows |
| PdfCompile.EntriesAreTwentyBytes | compile/pdf_compile.py:88-94 | all six entries are 20 bytes |
| PdfCompile.EntryAt | compile/pdf_compile.py:88 | the entry of object k sits 20·k bytes after the free entry's start |
| PdfCompile.XrefEntryPointsAtObject | compile/pdf_compile.py:81-94 | the ten digits of entry k read back as the byte offset of object k |
| PdfCompile.LengthMatchesStream | compile/pdf_compile.py:83-85 | the `/Length` value reads back as the byte length of the stream, which follows `stream\n` and precedes `\nendstream` |
| PdfCompile.BodyInStream | compile/pdf_compile.py:83 | the stream is the text-showing prefix, the escaped body, then `) Tj ET` |
| TyperShim.ResolveAnnotation | typer/__init__.py:120-133 | an annotation changes exactly when it is a string whose lower-case form is "path", "bool", "float", "int" or "list[str]"; any other string comes back unchanged |
| TyperShim.ResolveIdempotent | typer/__init__.py:120-133 | resolving twice is resolving once |
| TyperShim.ResolveIgnoresCase | typer/__init__.py:121-132 | the mapping ignores case, and a mapped spelling never stays a string |
| TyperShim.Underscored | typer/__init__.py:25 | replacing `-` by `_` keeps the length and leaves no `-` (see also lines 34, 68) |
| TyperShim.Lookup | typer/__init__.py:69-71 | a parameter is found exactly when one has that name, and then it is one with that name |
| TyperShim.InitialValue | typer/__init__.py:54-61 | an `Option` default is used unless it is `...`; a plain default is used; no default or `Option(...)` starts as None |
| TyperShim.InitialResult | typer/__init__.py:54-61 | the result has an entry for every parameter and for nothing else |
| TyperShim.InitialResultValue | typer/__init__.py:54-61 | each parameter's entry is its initial value |
| TyperShim.AsList | typer/__init__.py:83 | `list(result[key])`: None gives an empty list, a list its items, a string its characters; anything else is not iterable |
| TyperShim.ConvertValue | typer/__init__.py:105-117 | a value token becomes a path, a float or an int exactly when the resolved annotation says so, and stays a string otherwise |
| TyperShim.Run | typer/__init__.py:84-86 | the tokens from i up to the next `--` token or the end: none is an option, and the run stops only there |
| TyperShim.RunIs | typer/__init__.py:84-86 | the run is exactly the stretch of non-option tokens ending at an option token or the end |
| TyperShim.Step | typer/__init__.py:64-94 | one loop round raises "Unexpected argument" on a token without `--` and "Unknown option" on an option naming no parameter; otherwise it moves the index forward within argv, keeps the result's keys, changes only the named parameter, and never raises a bare exit |
| TyperShim.StepBool | typer/__init__.py:73-81 | the round of a bool option stores the flag and moves past the consumed token |
| TyperShim.StepList | typer/__init__.py:82-87 | the round of a list option stores the collected list and moves past the run |
| TyperShim.ParseFrom | typer/__init__.py:63-94 | the loop keeps the result's keys, raises only with a message, and raises whatever its round at the current position raises |
| TyperShim.CompleteOne | typer/__init__.py:97-99 | completing one parameter sets only its entry |
| TyperShim.CompleteFrom | typer/__init__.py:96-102 | the completion loop keeps the keys and raises only "Missing option" messages |
| TyperShim.ParseArgumentsOf | typer/__init__.py:49-102 | the result has the parameters' names as keys; a first token without `--` raises "Unexpected argument"; a first option naming no parameter raises "Unknown option" |
| TyperShim.ReachedSameOutcome | typer/__init__.py:63-94 | the loop's outcome is the same from any position it reaches through successful rounds |
| TyperShim.ReachedTokenErrors | typer/__init__.py:63-70 | at any position the loop reaches, a token without `--` makes `_parse_arguments` raise "Unexpected argument" and an option naming no parameter "Unknown option" |
| TyperShim.InitialValues | typer/__init__.py:54-61 | the first loop builds the initial result |
| TyperShim.CollectValues | typer/__init__.py:83-86 | the inner loop appends the run after the option to the existing values and stops at its end |
| TyperShim.CompleteDefaults | typer/__init__.py:96-102 | the second loop performs the completion |
| TyperShim.ParseArguments | typer/__init__.py:49-102 | `_parse_arguments` computes the parse: the option loop, then the completion |
| TyperShim.Untouched | typer/__init__.py:63-94 | a parameter that no option token names keeps the value it had |
| TyperShim.CompleteOneLeavesLater | typer/__init__.py:96-101 | completing one parameter leaves the later ones alone |
| TyperShim.CompleteFromRaises | typer/__init__.py:96-101 | completion raises exactly when some parameter is still None and has no default at all, and the message names such a parameter with `-` for `_` |
| TyperShim.CompleteFromValues | typer/__init__.py:96-101 | on success each parameter holds its completed value |
| TyperShim.RequiredOptionStaysNone | typer/__init__.py:57 | a required `Option(...)` that is never given stays None (see also lines 98) |
| TyperShim.MissingOptionRaises | typer/__init__.py:61 | a parameter without a default that is never given makes the parse raise (see also lines 100-101) |
| TyperShim.DefaultsNeverMissing | typer/__init__.py:96-101 | when every parameter has a default, only the option loop can raise |
| TyperShim.LookupFinds | typer/__init__.py:69-71 | every parameter is found under its own name |
| TyperShim.BoolOptionValue | typer/__init__.py:73-81 | a bool option alone is True; followed by a non-option token it takes it and is False exactly when that token is "false", "0" or "no" in any case |
| TyperShim.ListOptionCollects | typer/__init__.py:82-87 | a list option takes every following token up to the next `--` token and appends them to the list it holds |
| TyperShim.ValueOptionTakesNext | typer/__init__.py:88-93 | any other option without a following token raises "requires a value", and otherwise takes the next token, even a `--` one |
| TyperShim.CommandName | typer/__init__.py:25 | the registered name is the given name, or else the function's, with `-` replaced by `_` |
| TyperShim.DispatchIn | typer/__init__.py:31-39 | empty argv exits with 0, and only then; an unknown command raises "Unknown command"; otherwise the registered function is called with the parsed arguments |
| TyperShim.UnderscoredIdempotent | typer/__init__.py:25-34 | normalising a name twice is normalising once |
| TyperShim.RegisteredCommandReached | typer/__init__.py:23-39 | a command registered under a name is reached by that name written with either `-` or `_`, and receives the parse of the remaining arguments |
| TyperShim.Typer.constructor | typer/__init__.py:19-21 | the help text, or "" when there is none, and an empty command table |
| TyperShim.Typer.Command | typer/__init__.py:23-29 | registers the function under its command name and returns it unchanged |
| TyperShim.Typer.Dispatch | typer/__init__.py:31-39 | dispatches on the current command table |
| Harvest.KeepSlugChars | harvest/linkedin_scraper.py:259 | keeps only letters, digits and `-`, drawn from the input, and keeps an input made only of those unchanged |
| Harvest.Slug | harvest/linkedin_scraper.py:256-259 | a slug is no longer than its input and holds only lower-case letters, digits and `-` |
| Harvest.KeepSlugCharsAppend | harvest/linkedin_scraper.py:259 | the filter works character by character |
| Harvest.SlugAppend | harvest/linkedin_scraper.py:256-259 | the slug of a concatenation is the concatenation of the slugs |
| Harvest.SlugChar | harvest/linkedin_scraper.py:258-259 | a space or a dash becomes `-`, a letter or digit its lower-case form, anything else disappears |
| Harvest.SlugIdempotent | harvest/linkedin_scraper.py:256-259 | a slug is its own slug |
| Harvest.CleanWords | harvest/linkedin_scraper.py:263 | at most one cleaned word per input word |
| Harvest.AlphaWords | harvest/linkedin_scraper.py:265-267 | the words counted are exactly the alphabetic ones |
| Harvest.FreqCounts | harvest/linkedin_scraper.py:264-268 | `freq[w]` is the number of times the alphabetic word w was seen, and the keys are exactly those words |
| Harvest.Items | harvest/linkedin_scraper.py:269 | `freq.items()` pairs each word, in insertion order, with its count |
| Harvest.ItemLessStrictTotal | harvest/linkedin_scraper.py:269 | the key `(-count, word)` is a strict total order on items of different words |
| Harvest.SliceTo | harvest/linkedin_scraper.py:270 | `s[:limit]` is a prefix: `limit` entries when `limit >= 0`, otherwise all but the last `-limit` |
| Harvest.WordsOf | harvest/linkedin_scraper.py:270 | the words of the items, in order |
| Harvest.ItemsOf | harvest/linkedin_scraper.py:264-269 | the table's items have no repeats and are totally ordered by the key |
| Harvest.RankedItems | harvest/linkedin_scraper.py:269 | the sorted items are a permutation of the table, ordered by the key |
| Harvest.CountStep | harvest/linkedin_scraper.py:265-268 | one more word is counted when it is alphabetic and skipped otherwise |
| Harvest.CountWords | harvest/linkedin_scraper.py:264-268 | the counting loop builds `freq` and its insertion order |
| Harvest.SimpleKeywords | harvest/linkedin_scraper.py:262-270 | `_simple_keywords` returns the words of the first `limit` sorted items |
| Harvest.ItemsOfMeaning | harvest/linkedin_scraper.py:264-269 | the table holds exactly the entries of the counted words |
| Harvest.RankedItemsMeaning | harvest/linkedin_scraper.py:269 | each sorted item is a counted word with its count, and every counted word is there |
| Harvest.SimpleKeywordsBound | harvest/linkedin_scraper.py:262-270 | at most `limit` words when `limit >= 0`, and never more than the distinct counted words |
| Harvest.SimpleKeywordsWords | harvest/linkedin_scraper.py:262-270 | the words returned are distinct, non-empty and alphabetic, and were counted |
| Harvest.SimpleKeywordsOrdered | harvest/linkedin_scraper.py:269-270 | the words come by decreasing frequency, then alphabetically |
| Harvest.SimpleKeywordsTop | harvest/linkedin_scraper.py:269-270 | a counted word that is left out ranks after every word returned |
| Harvest.PunctuatedShortWordKept | harvest/linkedin_scraper.py:263 | the length test comes before stripping, so a three-letter word followed by `.` comes back |
| Harvest.StripTrailingDot | harvest/linkedin_scraper.py:263 | stripping removes a trailing `.` from a word |
| Harvest.BareShortWordDropped | harvest/linkedin_scraper.py:263 | the same three-letter word on its own is dropped |
| Harvest.SingleWordItems | harvest/linkedin_scraper.py:262-270 | a description whose only cleaned word is alphabetic yields that word |
| Harvest.CollapseShape | harvest/linkedin_scraper.py:29-30 | the collapsed description has the same words, separated by single spaces, with no leading or trailing whitespace, and collapsing again changes nothing |
| Harvest.JoinedBySingleSpaces | harvest/linkedin_scraper.py:30 | words joined by one space have single spaces between them and none at either end |
| Harvest.ManualJob.constructor | harvest/linkedin_scraper.py:19-30 | a manual job keeps its fields and collapses the whitespace of its description |
| Harvest.PostingLimit | harvest/linkedin_scraper.py:85 | `max(1, max_postings)` is at least one and keeps any positive value |
| Harvest.LinkedInScraper.constructor | harvest/linkedin_scraper.py:69-86 | the settings as given, the posting limit clamped to at least one, and `artifacts/jobs` when no output directory is given |

## Left out

- Semantic keyword ranking (`extract_keywords_openai`, `openai_utils.py`): it calls a network service. `ExtractKeywords` takes its result as an optional parameter.
- The unified diff of `optimize_resume` (`difflib`): a library call. `RewriteResult` holds the optimised text and the keyword map only.
- Rounding to two places and `f"{x:.2f} / 100"` formatting: floating-point work. Rounding is the parameter `round2`, constrained only by `IsRounding` (monotone, fixes 0 and 100, moves a value by at most 0.005). The `details` map holds the rounded values, not their text.
- Regular expressions (token, section, item and page-break patterns): replaced by hand-written ASCII character predicates.
- Unicode: strings are ASCII. Characters outside ASCII are neither letters, digits nor whitespace, and `lower` leaves them alone. `splitlines` splits on the ASCII line breaks only.
- The iteration order of Python sets: the synonyms tried by the rewriter come in an order given as a parameter per keyword.
- `_convert_value`'s `float()` and `int()` parsing: floating-point and integer parsing. The token is kept as `FloatOf`/`IntOf`. Parameter kinds are limited to the annotations listed in `Annotation`. The `__origin__ is Optional` branch is left out because it is never taken: the origin of `Optional[X]` is `Union`.
- `Typer.invoke` and `__call__` (reading `sys.argv`), calling the registered function, and help texts: `Dispatch` returns the call to be made (function and keyword arguments) instead of making it.
- `PDFCompiler.compile`, `_compile_cloud`, `_compile_local` and `_write_minimal_pdf`: HTTP, subprocess and file I/O.
- `LinkedInScraper.harvest` with its browser automation, `_from_manual`, `JobPosting.to_json`, `_persist`, `load_manual_file`, `clear_job_artifacts` and `load_manual_jobs_from_paths`: browser, clock and file I/O. The creation of the output directory in the constructor is left out too.
- `cli/resume_opt.py` and `typer/testing/__init__.py`: orchestration and console redirection. cli/resume_opt.py is not part of this model.
- Scorer.ATSScorer.DistributionScore: the penalty loop runs over the distinct keyword tokens in list order instead of the `Counter`'s keys. Tokens absent from the counter add no penalty, so the total is the same.
- PdfCompile.XrefEntryPointsAtObject: requires every offset to be below 10^10. A wider offset makes a longer entry, since the zero padding does not truncate.
- Scorer.MoreKeywordsRaiseTotal: the literal strings of the scorer test are not evaluated. The lemma covers every input with at most 1000 keywords in which the second text matches more keywords and its bullets score no lower on quality and distribution.
- Harvest.SlugIdempotent: idempotence is proved for ASCII input only.
