/** The frequency keyword ranker of `ats/keyword_extract.py`: tokenise a job description,
    drop stop words, count words and adjacent word pairs, and rank them. */
module KeywordExtract {
  import opened Text
  import opened Sorting
  import opened Options

  /** STOPWORDS */
  const Stopwords: set<string> := {
    "the", "and", "for", "with", "that", "this", "from", "into", "will", "your", "have",
    "work", "team", "role", "skills", "required", "responsibilities", "experience"
  }

  /** SYNONYMS, each entry written as the sorted list `sorted(SYNONYMS.get(token, []))`
      (SynonymListsSorted proves the lists are in Python's string order). */
  function SortedSynonyms(token: string): seq<string>
  {
    if token == "sql" then ["mysql", "postgres", "redshift"]
    else if token == "python" then ["numpy", "pandas"]
    else if token == "dashboard" then ["looker", "powerbi", "tableau"]
    else if token == "analysis" then ["analytical", "analytics"]
    else if token == "manage" then ["lead", "led", "oversaw"]
    else if token == "project" then ["initiative", "program"]
    else if token == "communication" then ["presentation", "stakeholder"]
    else if token == "cloud" then ["aws", "azure", "gcp"]
    else if token == "automation" then ["orchestration", "workflow"]
    else if token == "testing" then ["qa", "quality"]
    else []
  }

  /** `SYNONYMS.get(token, set())` */
  function SynonymSet(token: string): set<string>
  {
    set s | s in SortedSynonyms(token)
  }

  lemma {:induction false} SynonymListsSorted(token: string)
    ensures SortedBy(LexLess, SortedSynonyms(token))
  {
    if token == "sql" {
      SortedThree("mysql", "postgres", "redshift");
    } else if token == "python" {
      SortedTwo("numpy", "pandas");
    } else if token == "dashboard" {
      SortedThree("looker", "powerbi", "tableau");
    } else if token == "analysis" {
      SortedTwo("analytical", "analytics");
    } else if token == "manage" {
      SortedThree("lead", "led", "oversaw");
    } else if token == "project" {
      SortedTwo("initiative", "program");
    } else if token == "communication" {
      SortedTwo("presentation", "stakeholder");
    } else if token == "cloud" {
      SortedThree("aws", "azure", "gcp");
    } else if token == "automation" {
      SortedTwo("orchestration", "workflow");
    } else if token == "testing" {
      SortedTwo("qa", "quality");
    }
  }

  lemma {:induction false} SortedTwo(a: string, b: string)
    requires LexLess(a, b)
    ensures SortedBy(LexLess, [a, b])
  {
  }

  lemma {:induction false} SortedThree(a: string, b: string, c: string)
    requires LexLess(a, b) && LexLess(b, c) && LexLess(a, c)
    ensures SortedBy(LexLess, [a, b, c])
  {
  }

  /** KeywordCandidate */
  datatype Candidate = Candidate(token: string, score: real, synonyms: seq<string>)

  // ---------------------------------------------------------------------------
  // normalise

  /** The characters TOKEN_PATTERN allows after the first letter. */
  predicate IsTokenChar(c: char)
  {
    IsLetter(c) || IsDigit(c) || c == '+' || c == '.' || c == '#' || c == '-'
  }

  /** Length of the leading run of token characters. */
  function TokenRun(s: string): (n: nat)
    ensures n <= |s|
    ensures forall i :: 0 <= i < n ==> IsTokenChar(s[i])
    ensures n < |s| ==> !IsTokenChar(s[n])
  {
    if |s| == 0 || !IsTokenChar(s[0]) then 0 else 1 + TokenRun(s[1..])
  }

  /** What TOKEN_PATTERN matches: a letter followed by at least two token characters. */
  predicate IsRawToken(t: string)
  {
    |t| >= 3 && IsLetter(t[0]) && forall i :: 0 <= i < |t| ==> IsTokenChar(t[i])
  }

  /** `TOKEN_PATTERN.finditer(s)`: scanning from the left, a letter followed by a run of
      at least two token characters is a match, taken as long as possible; otherwise the
      scan moves on by one character. */
  function Matches(s: string): (ms: seq<string>)
    ensures forall k :: 0 <= k < |ms| ==> IsRawToken(ms[k])
    decreases |s|
  {
    if |s| == 0 then []
    else
      var n := TokenRun(s[1..]);
      if IsLetter(s[0]) && n >= 2 then
        assert forall i :: 1 <= i < 1 + n ==> s[i] == s[1..][i - 1];
        [s[..1 + n]] + Matches(s[1 + n..])
      else Matches(s[1..])
  }

  /** What `normalise` promises of every token it returns. */
  predicate IsToken(t: string)
  {
    && |t| >= 3
    && IsLower(t[0])
    && (forall i :: 0 <= i < |t| ==> IsTokenChar(t[i]) && !IsUpper(t[i]))
    && t !in Stopwords
  }

  /** The lower-cased matches that are not stop words, in order. */
  function LowerAndFilter(ms: seq<string>): (ts: seq<string>)
    requires forall k :: 0 <= k < |ms| ==> IsRawToken(ms[k])
    ensures |ts| <= |ms|
    ensures forall k :: 0 <= k < |ts| ==> IsToken(ts[k])
    ensures forall k :: 0 <= k < |ms| && LowerStr(ms[k]) !in Stopwords ==> LowerStr(ms[k]) in ts
    ensures forall t :: t in ts ==> exists k :: 0 <= k < |ms| && LowerStr(ms[k]) == t
  {
    if |ms| == 0 then []
    else
      assert IsRawToken(ms[0]);
      var t := LowerStr(ms[0]);
      var rest := LowerAndFilter(ms[1..]);
      assert forall k :: 1 <= k < |ms| ==> ms[k] == ms[1..][k - 1];
      if t in Stopwords then rest else [t] + rest
  }

  /** `normalise(text)`: every token is lower case, starts with a letter, is at least
      three characters of letters, digits and `+.#-`, and is not a stop word; every
      match of the token pattern that is not a stop word once lower-cased is kept. */
  function Normalise(text: string): (tokens: seq<string>)
    ensures forall k :: 0 <= k < |tokens| ==> IsToken(tokens[k])
    ensures forall m :: m in Matches(text) && LowerStr(m) !in Stopwords ==> LowerStr(m) in tokens
  {
    LowerAndFilter(Matches(text))
  }

  /** `_ngram(tokens, 2)`: each token joined to the next by one space. */
  function Bigrams(tokens: seq<string>): (bs: seq<string>)
    ensures |bs| == if |tokens| < 2 then 0 else |tokens| - 1
    ensures forall i :: 0 <= i < |bs| ==> bs[i] == tokens[i] + " " + tokens[i + 1]
  {
    if |tokens| < 2 then []
    else seq(|tokens| - 1, i requires 0 <= i < |tokens| - 1 => tokens[i] + " " + tokens[i + 1])
  }

  // ---------------------------------------------------------------------------
  // Counting and first occurrences

  /** Index of the first occurrence of `x` in `s`. */
  function FirstIndex<T(==)>(s: seq<T>, x: T): (i: nat)
    requires x in s
    ensures i < |s| && s[i] == x
    ensures forall j :: 0 <= j < i ==> s[j] != x
  {
    if s[0] == x then 0 else 1 + FirstIndex(s[1..], x)
  }

  /** The distinct elements of `s` in order of first occurrence: the key order of a
      `Counter` or `dict` filled from `s`. */
  function Unique(s: seq<string>): (u: seq<string>)
    ensures Distinct(u)
    ensures forall x :: x in u <==> x in s
  {
    if |s| == 0 then []
    else
      var u := Unique(s[..|s| - 1]);
      assert forall x :: x in s <==> x in s[..|s| - 1] || x == s[|s| - 1] by {
        assert s == s[..|s| - 1] + [s[|s| - 1]];
      }
      if s[|s| - 1] in u then u else u + [s[|s| - 1]]
  }

  /** Whether any space-separated part of a token is a stop word (line 91). */
  predicate HasStopwordPart(token: string)
  {
    exists p :: p in Split(token) && p in Stopwords
  }

  function UnigramCandidates(tokens: seq<string>): (cs: seq<Candidate>)
    ensures |cs| == |Unique(tokens)|
    ensures forall i :: 0 <= i < |cs| ==> cs[i].token == Unique(tokens)[i]
  {
    var u := Unique(tokens);
    seq(|u|, i requires 0 <= i < |u| =>
      Candidate(u[i], multiset(tokens)[u[i]] as real, SortedSynonyms(u[i])))
  }

  function BigramCandidatesOf(us: seq<string>, bigrams: seq<string>): (cs: seq<Candidate>)
    ensures |cs| <= |us|
    ensures forall c :: c in cs ==> c.token in us
    ensures forall c :: c in cs ==> c == Candidate(c.token, multiset(bigrams)[c.token] as real + 0.5, [])
    ensures Distinct(us) ==> forall i, j :: 0 <= i < j < |cs| ==> cs[i].token != cs[j].token
  {
    if |us| == 0 then []
    else
      var rest := BigramCandidatesOf(us[1..], bigrams);
      if HasStopwordPart(us[0]) then rest
      else [Candidate(us[0], multiset(bigrams)[us[0]] as real + 0.5, [])] + rest
  }

  /** All candidates: the unigrams, then the bigrams without a stop-word part. */
  function Candidates(tokens: seq<string>): seq<Candidate>
  {
    UnigramCandidates(tokens) + BigramCandidatesOf(Unique(Bigrams(tokens)), Bigrams(tokens))
  }

  /** `first_seen`: each unigram at its first index, each bigram at `len(tokens)` plus its
      first index among the bigrams. */
  function FirstSeen(tokens: seq<string>): map<string, int>
  {
    var bigrams := Bigrams(tokens);
    (map b | b in bigrams :: |tokens| + FirstIndex(bigrams, b))
      + (map t | t in tokens :: FirstIndex(tokens, t))
  }

  /** The sort key `(-score, first_seen.get(token, 0))` as a strict order. */
  function RankLess(firstSeen: map<string, int>): (Candidate, Candidate) -> bool
  {
    (a: Candidate, b: Candidate) =>
      var fa := if a.token in firstSeen then firstSeen[a.token] else 0;
      var fb := if b.token in firstSeen then firstSeen[b.token] else 0;
      a.score > b.score || (a.score == b.score && fa < fb)
  }

  predicate DistinctTokens(cs: seq<Candidate>)
  {
    forall i, j :: 0 <= i < j < |cs| ==> cs[i].token != cs[j].token
  }

  lemma {:induction false} TokenHasNoSpace(t: string)
    requires IsToken(t)
    ensures ' ' !in t
  {
    assert forall i :: 0 <= i < |t| ==> t[i] != ' ';
  }

  /** A unigram never equals a bigram: a bigram holds a space, a token does not. */
  lemma {:induction false} BigramIsNotToken(tokens: seq<string>, b: string)
    requires forall k :: 0 <= k < |tokens| ==> IsToken(tokens[k])
    requires b in Bigrams(tokens)
    ensures b !in tokens
  {
    var bs := Bigrams(tokens);
    var i :| 0 <= i < |bs| && bs[i] == b;
    assert b[|tokens[i]|] == ' ';
    if b in tokens {
      var k :| 0 <= k < |tokens| && tokens[k] == b;
      TokenHasNoSpace(tokens[k]);
    }
  }

  lemma {:induction false} CandidatesDistinct(tokens: seq<string>)
    requires forall k :: 0 <= k < |tokens| ==> IsToken(tokens[k])
    ensures DistinctTokens(Candidates(tokens))
  {
    var uni := UnigramCandidates(tokens);
    var bi := BigramCandidatesOf(Unique(Bigrams(tokens)), Bigrams(tokens));
    var cs := uni + bi;
    forall i, j | 0 <= i < j < |cs| ensures cs[i].token != cs[j].token {
      if j < |uni| {
      } else if i >= |uni| {
        assert cs[i] == bi[i - |uni|] && cs[j] == bi[j - |uni|];
      } else {
        assert cs[j] in bi;
        assert cs[j].token in Bigrams(tokens);
        BigramIsNotToken(tokens, cs[j].token);
        assert cs[i].token in Unique(tokens);
      }
    }
  }

  /** `first_seen` holds each token at its first index and each bigram at `len(tokens)`
      plus its first index among the bigrams. */
  lemma {:induction false} FirstSeenValues(tokens: seq<string>)
    requires forall k :: 0 <= k < |tokens| ==> IsToken(tokens[k])
    ensures forall t :: t in tokens ==> t in FirstSeen(tokens) && FirstSeen(tokens)[t] == FirstIndex(tokens, t)
    ensures forall b :: b in Bigrams(tokens) ==>
      b in FirstSeen(tokens) && FirstSeen(tokens)[b] == |tokens| + FirstIndex(Bigrams(tokens), b)
  {
    forall t | t in tokens ensures t in FirstSeen(tokens) && FirstSeen(tokens)[t] == FirstIndex(tokens, t) {
      FirstSeenOfToken(tokens, t);
    }
    forall b | b in Bigrams(tokens)
      ensures b in FirstSeen(tokens) && FirstSeen(tokens)[b] == |tokens| + FirstIndex(Bigrams(tokens), b)
    {
      FirstSeenOfBigram(tokens, b);
    }
  }

  lemma {:induction false} FirstSeenOfToken(tokens: seq<string>, t: string)
    requires t in tokens
    ensures t in FirstSeen(tokens) && FirstSeen(tokens)[t] == FirstIndex(tokens, t)
  {
  }

  lemma {:induction false} FirstSeenOfBigram(tokens: seq<string>, b: string)
    requires forall k :: 0 <= k < |tokens| ==> IsToken(tokens[k])
    requires b in Bigrams(tokens)
    ensures b in FirstSeen(tokens) && FirstSeen(tokens)[b] == |tokens| + FirstIndex(Bigrams(tokens), b)
  {
    BigramIsNotToken(tokens, b);
  }

  /** The `first_seen` entry of a candidate: its first index when it is a unigram, the
      token count plus its first index among the bigrams when it is a bigram. */
  lemma {:induction false} FirstSeenOfCandidate(tokens: seq<string>, c: Candidate)
    requires forall k :: 0 <= k < |tokens| ==> IsToken(tokens[k])
    requires c in Candidates(tokens)
    ensures c.token in FirstSeen(tokens)
    ensures c.token in tokens ==> FirstSeen(tokens)[c.token] == FirstIndex(tokens, c.token)
    ensures c.token !in tokens ==>
      c.token in Bigrams(tokens) && FirstSeen(tokens)[c.token] == |tokens| + FirstIndex(Bigrams(tokens), c.token)
  {
    CandidateTokens(tokens);
    if c.token in tokens {
      FirstSeenOfToken(tokens, c.token);
    } else {
      FirstSeenOfBigram(tokens, c.token);
    }
  }

  /** `first_seen` is never negative, and only the first token is seen at 0; the second
      token, when new, is seen at 1. */
  lemma {:induction false} FirstSeenStart(tokens: seq<string>)
    requires forall k :: 0 <= k < |tokens| ==> IsToken(tokens[k])
    requires |tokens| > 0
    ensures forall c :: c in Candidates(tokens) ==> c.token in FirstSeen(tokens) && FirstSeen(tokens)[c.token] >= 0
    ensures forall c :: c in Candidates(tokens) && FirstSeen(tokens)[c.token] == 0 ==> c.token == tokens[0]
    ensures FirstSeen(tokens)[tokens[0]] == 0
    ensures |tokens| > 1 && tokens[1] != tokens[0] ==> FirstSeen(tokens)[tokens[1]] == 1
  {
    var fs := FirstSeen(tokens);
    forall c | c in Candidates(tokens)
      ensures c.token in fs && fs[c.token] >= 0
      ensures fs[c.token] == 0 ==> c.token == tokens[0]
    {
      FirstSeenOfCandidate(tokens, c);
    }
    FirstSeenOfToken(tokens, tokens[0]);
    if |tokens| > 1 && tokens[1] != tokens[0] {
      FirstSeenOfToken(tokens, tokens[1]);
    }
  }

  /** Every candidate token has a `first_seen` entry, and different tokens have
      different entries. */
  lemma {:induction false} FirstSeenInjective(tokens: seq<string>)
    requires forall k :: 0 <= k < |tokens| ==> IsToken(tokens[k])
    ensures forall c :: c in Candidates(tokens) ==> c.token in FirstSeen(tokens)
    ensures forall a, b :: a in Candidates(tokens) && b in Candidates(tokens) && a.token != b.token
              ==> FirstSeen(tokens)[a.token] != FirstSeen(tokens)[b.token]
  {
    var fs := FirstSeen(tokens);
    forall c | c in Candidates(tokens) ensures c.token in fs {
      FirstSeenOfCandidate(tokens, c);
    }
    forall a, b | a in Candidates(tokens) && b in Candidates(tokens) && a.token != b.token
      ensures fs[a.token] != fs[b.token]
    {
      FirstSeenOfCandidate(tokens, a);
      FirstSeenOfCandidate(tokens, b);
    }
  }

  /** Every candidate token is a token or a bigram. */
  lemma {:induction false} CandidateTokens(tokens: seq<string>)
    ensures forall c :: c in Candidates(tokens) ==> c.token in tokens || c.token in Bigrams(tokens)
  {
    var bigrams := Bigrams(tokens);
    var uni := UnigramCandidates(tokens);
    var bi := BigramCandidatesOf(Unique(bigrams), bigrams);
    assert Candidates(tokens) == uni + bi;
    forall c | c in Candidates(tokens) ensures c.token in tokens || c.token in bigrams {
      if c in uni {
        var i :| 0 <= i < |uni| && uni[i] == c;
      }
    }
  }

  /** Two candidates with different tokens are ordered one way or the other. */
  lemma {:induction false} RankLessTotalPair(fs: map<string, int>, a: Candidate, b: Candidate)
    requires a.token in fs && b.token in fs && fs[a.token] != fs[b.token]
    ensures RankLess(fs)(a, b) || RankLess(fs)(b, a)
  {
  }

  /** The sort key order is irreflexive and transitive whatever the table. */
  lemma {:induction false} RankLessPartialOrder(fs: map<string, int>)
    ensures forall a :: !RankLess(fs)(a, a)
    ensures forall a, b, c :: RankLess(fs)(a, b) && RankLess(fs)(b, c) ==> RankLess(fs)(a, c)
  {
  }

  /** Candidates with different tokens are different candidates. */
  lemma {:induction false} CandidatesDistinctAsValues(tokens: seq<string>)
    requires forall k :: 0 <= k < |tokens| ==> IsToken(tokens[k])
    ensures Distinct(Candidates(tokens))
  {
    var cs := Candidates(tokens);
    CandidatesDistinct(tokens);
    forall i, j | 0 <= i < j < |cs| ensures cs[i] != cs[j] {
      assert cs[i].token != cs[j].token;
    }
  }

  /** Two different candidates are ordered one way or the other. */
  lemma {:induction false} RankLessTotalOn(tokens: seq<string>, a: Candidate, b: Candidate)
    requires forall k :: 0 <= k < |tokens| ==> IsToken(tokens[k])
    requires a in Candidates(tokens) && b in Candidates(tokens) && a != b
    ensures RankLess(FirstSeen(tokens))(a, b) || RankLess(FirstSeen(tokens))(b, a)
  {
    var cs := Candidates(tokens);
    CandidatesDistinct(tokens);
    var i :| 0 <= i < |cs| && cs[i] == a;
    var j :| 0 <= j < |cs| && cs[j] == b;
    assert a.token != b.token by {
      if i < j {
        assert cs[i].token != cs[j].token;
      } else {
        assert cs[j].token != cs[i].token;
      }
    }
    FirstSeenInjective(tokens);
    RankLessTotalPair(FirstSeen(tokens), a, b);
  }

  lemma {:induction false} RankLessStrictTotal(tokens: seq<string>)
    requires forall k :: 0 <= k < |tokens| ==> IsToken(tokens[k])
    ensures StrictTotalOn(RankLess(FirstSeen(tokens)), Candidates(tokens))
    ensures Distinct(Candidates(tokens))
  {
    var cs := Candidates(tokens);
    var fs := FirstSeen(tokens);
    RankLessPartialOrder(fs);
    CandidatesDistinctAsValues(tokens);
    forall a, b | a in cs && b in cs && a != b
      ensures RankLess(fs)(a, b) || RankLess(fs)(b, a)
    {
      RankLessTotalOn(tokens, a, b);
    }
  }

  /** `sorted(candidates, key=lambda cand: (-cand.score, first_seen.get(cand.token, 0)))` */
  function Ranked(tokens: seq<string>): (r: seq<Candidate>)
    requires forall k :: 0 <= k < |tokens| ==> IsToken(tokens[k])
    ensures multiset(r) == multiset(Candidates(tokens))
    ensures SortedBy(RankLess(FirstSeen(tokens)), r)
  {
    RankLessStrictTotal(tokens);
    Sort(Candidates(tokens), RankLess(FirstSeen(tokens)))
  }

  /** The first `n` elements, or all of them when there are fewer. */
  function Take<T>(s: seq<T>, n: nat): (r: seq<T>)
    ensures |r| == if n < |s| then n else |s|
  {
    if n < |s| then s[..n] else s
  }

  /** The candidates the dedup loop keeps before its cut: each one whose token was not
      seen earlier, in order. */
  function DedupByToken(s: seq<Candidate>, seen: set<string>): (r: seq<Candidate>)
    ensures |r| <= |s|
  {
    if |s| == 0 then []
    else if s[0].token in seen then DedupByToken(s[1..], seen)
    else [s[0]] + DedupByToken(s[1..], seen + {s[0].token})
  }

  /** On candidates with pairwise different tokens, deduplication keeps everything. */
  lemma {:induction false} DedupDistinct(s: seq<Candidate>, seen: set<string>)
    requires DistinctTokens(s)
    requires forall k :: 0 <= k < |s| ==> s[k].token !in seen
    ensures DedupByToken(s, seen) == s
  {
    if |s| > 0 {
      DedupDistinct(s[1..], seen + {s[0].token});
    }
  }

  /** How many candidates the dedup loop keeps at most: the check comes after the
      append, so a limit below one still lets one candidate through. */
  function Limit(maxKeywords: int): nat
  {
    if maxKeywords < 1 then 1 else maxKeywords
  }

  /** The ranking of a non-empty token list: the sorted candidates through the dedup
      loop with its cut. */
  function RankTokens(tokens: seq<string>, maxKeywords: int): seq<Candidate>
    requires forall k :: 0 <= k < |tokens| ==> IsToken(tokens[k])
  {
    Take(DedupByToken(Ranked(tokens), {}), Limit(maxKeywords))
  }

  /** What `_extract_keywords_basic(text, max_keywords)` returns. */
  function RankKeywords(text: string, maxKeywords: int): seq<Candidate>
  {
    var tokens := Normalise(text);
    if |tokens| == 0 then [] else RankTokens(tokens, maxKeywords)
  }

  /** A map with the keys and values of `first_seen` is `first_seen`. */
  lemma {:induction false} FirstSeenFromEntries(tokens: seq<string>, m: map<string, int>)
    requires forall t :: t in m <==> t in tokens || t in Bigrams(tokens)
    requires forall t :: t in tokens ==> m[t] == FirstIndex(tokens, t)
    requires forall b :: b in Bigrams(tokens) && b !in tokens ==> m[b] == |tokens| + FirstIndex(Bigrams(tokens), b)
    ensures m == FirstSeen(tokens)
  {
    var bigrams := Bigrams(tokens);
    var fs := FirstSeen(tokens);
    var bm := map b | b in bigrams :: |tokens| + FirstIndex(bigrams, b);
    var um := map t | t in tokens :: FirstIndex(tokens, t);
    assert fs == bm + um;
    forall t | t in m ensures t in fs && fs[t] == m[t] {
      if t in tokens {
        assert fs[t] == um[t];
      } else {
        assert fs[t] == bm[t];
      }
    }
    forall t | t in fs ensures t in m {
    }
  }

  /** The `first_seen.setdefault(token, idx)` loop over the unigrams. */
  method UnigramFirstSeen(tokens: seq<string>) returns (firstSeen: map<string, int>)
    ensures forall t :: t in firstSeen <==> t in tokens
    ensures forall t :: t in tokens ==> firstSeen[t] == FirstIndex(tokens, t)
  {
    firstSeen := map[];
    for idx := 0 to |tokens|
      invariant forall t :: t in firstSeen <==> t in tokens[..idx]
      invariant forall t :: t in firstSeen ==> firstSeen[t] == FirstIndex(tokens, t)
    {
      if tokens[idx] !in firstSeen {
        firstSeen := firstSeen[tokens[idx] := idx];
      }
      assert tokens[..idx + 1] == tokens[..idx] + [tokens[idx]];
    }
    assert tokens[..|tokens|] == tokens;
  }

  /** The `first_seen.setdefault(bigram, offset + idx)` loop over the bigrams. */
  method AddBigramFirstSeen(tokens: seq<string>, bigramTokens: seq<string>, unigrams: map<string, int>)
    returns (firstSeen: map<string, int>)
    requires forall t :: t in unigrams <==> t in tokens
    requires forall t :: t in tokens ==> unigrams[t] == FirstIndex(tokens, t)
    ensures forall t :: t in firstSeen <==> t in tokens || t in bigramTokens
    ensures forall t :: t in tokens ==> firstSeen[t] == FirstIndex(tokens, t)
    ensures forall b :: b in bigramTokens && b !in tokens ==> firstSeen[b] == |tokens| + FirstIndex(bigramTokens, b)
  {
    firstSeen := unigrams;
    var offset := |tokens|;
    for idx := 0 to |bigramTokens|
      invariant forall t :: t in firstSeen <==> t in tokens || t in bigramTokens[..idx]
      invariant forall t :: t in tokens ==> firstSeen[t] == FirstIndex(tokens, t)
      invariant forall b :: b in bigramTokens[..idx] && b !in tokens ==> firstSeen[b] == offset + FirstIndex(bigramTokens, b)
    {
      var b := bigramTokens[idx];
      if b !in firstSeen {
        firstSeen := firstSeen[b := offset + idx];
      }
      assert bigramTokens[..idx + 1] == bigramTokens[..idx] + [b];
    }
    assert bigramTokens[..|bigramTokens|] == bigramTokens;
  }

  /** The two `first_seen.setdefault` loops. */
  method FirstSeenTable(tokens: seq<string>, bigramTokens: seq<string>) returns (firstSeen: map<string, int>)
    requires bigramTokens == Bigrams(tokens)
    ensures firstSeen == FirstSeen(tokens)
  {
    firstSeen := UnigramFirstSeen(tokens);
    firstSeen := AddBigramFirstSeen(tokens, bigramTokens, firstSeen);
    FirstSeenFromEntries(tokens, firstSeen);
  }

  lemma {:induction false} TakeAll<T>(s: seq<T>, n: nat)
    requires |s| <= n
    ensures Take(s, n) == s
  {
  }

  lemma {:induction false} TakePrefix<T>(a: seq<T>, b: seq<T>)
    ensures Take(a + b, |a|) == a
  {
    if |b| > 0 {
      assert (a + b)[..|a|] == a;
    }
  }

  /** One step of the dedup loop. */
  lemma {:induction false} DedupStep(s: seq<Candidate>, i: nat, seen: set<string>)
    requires i < |s|
    ensures DedupByToken(s[i..], seen) ==
      if s[i].token in seen then DedupByToken(s[i + 1..], seen)
      else [s[i]] + DedupByToken(s[i + 1..], seen + {s[i].token})
  {
    assert s[i..][1..] == s[i + 1..];
  }

  /** The loop over the sorted candidates with its `seen` set and early `break`. */
  method TakeDistinct(sorted: seq<Candidate>, maxKeywords: int) returns (out: seq<Candidate>)
    ensures out == Take(DedupByToken(sorted, {}), Limit(maxKeywords))
  {
    var seen: set<string> := {};
    out := [];
    var i := 0;
    assert sorted[0..] == sorted;
    while i < |sorted|
      invariant 0 <= i <= |sorted|
      invariant out + DedupByToken(sorted[i..], seen) == DedupByToken(sorted, {})
      invariant |out| < Limit(maxKeywords)
    {
      var candidate := sorted[i];
      DedupStep(sorted, i, seen);
      if candidate.token !in seen {
        var rest := DedupByToken(sorted[i + 1..], seen + {candidate.token});
        assert out + ([candidate] + rest) == (out + [candidate]) + rest;
        seen := seen + {candidate.token};
        out := out + [candidate];
        if |out| >= maxKeywords {
          TakePrefix(out, rest);
          return;
        }
      }
      i := i + 1;
    }
    assert out == DedupByToken(sorted, {});
    TakeAll(out, Limit(maxKeywords));
  }

  /** `_extract_keywords_basic` */
  method ExtractKeywordsBasic(text: string, maxKeywords: int) returns (out: seq<Candidate>)
    ensures out == RankKeywords(text, maxKeywords)
  {
    var tokens := Normalise(text);
    if |tokens| == 0 {
      return [];
    }
    var bigramTokens := Bigrams(tokens);
    var firstSeen := FirstSeenTable(tokens, bigramTokens);
    var candidates := Candidates(tokens);
    RankLessStrictTotal(tokens);
    var sorted := Sort(candidates, RankLess(firstSeen));
    out := TakeDistinct(sorted, maxKeywords);
  }

  /** `extract_keywords`: the semantic ranking, when enabled, is an opaque optional
      result; it wins only when present and non-empty, otherwise the frequency ranking
      is returned. */
  method ExtractKeywords(text: string, maxKeywords: int := 20, useOpenai: bool := true, aiResult: Option<seq<Candidate>>)
    returns (r: seq<Candidate>)
    ensures useOpenai && aiResult.Some? && |aiResult.value| > 0 ==> r == aiResult.value
    ensures !(useOpenai && aiResult.Some? && |aiResult.value| > 0) ==> r == RankKeywords(text, maxKeywords)
  {
    if useOpenai {
      if aiResult.Some? && |aiResult.value| > 0 {
        return aiResult.value;
      }
    }
    r := ExtractKeywordsBasic(text, maxKeywords);
  }

  // ---------------------------------------------------------------------------
  // Properties of the ranking

  /** A unigram candidate: a token scored by its number of occurrences, with its sorted
      synonyms. */
  predicate IsUnigramOf(tokens: seq<string>, c: Candidate)
  {
    && c.token in tokens
    && c.score == multiset(tokens)[c.token] as real
    && c.synonyms == SortedSynonyms(c.token)
  }

  /** A bigram candidate: an adjacent pair scored by its number of occurrences plus one
      half, without synonyms. */
  predicate IsBigramOf(tokens: seq<string>, c: Candidate)
  {
    && c.token in Bigrams(tokens)
    && c.score == multiset(Bigrams(tokens))[c.token] as real + 0.5
    && c.synonyms == []
  }

  /** The pair built from two adjacent tokens splits back into those two tokens. */
  lemma {:induction false} BigramParts(tokens: seq<string>, i: int)
    requires forall k :: 0 <= k < |tokens| ==> IsToken(tokens[k])
    requires 0 <= i < |tokens| - 1
    ensures Split(Bigrams(tokens)[i]) == [tokens[i], tokens[i + 1]]
  {
    var ws := [tokens[i], tokens[i + 1]];
    assert forall k :: 0 <= k < |ws| ==> IsWord(ws[k]) by {
      assert IsToken(tokens[i]) && IsToken(tokens[i + 1]);
    }
    assert Join(ws, " ") == tokens[i] + " " + tokens[i + 1] by {
      assert ws[1..] == [tokens[i + 1]];
    }
    SplitJoin(ws);
  }

  /** Two equal bigrams are built from the same pair of tokens. */
  lemma {:induction false} BigramsEqual(tokens: seq<string>, i: int, j: int)
    requires forall k :: 0 <= k < |tokens| ==> IsToken(tokens[k])
    requires 0 <= i < |tokens| - 1 && 0 <= j < |tokens| - 1
    requires Bigrams(tokens)[i] == Bigrams(tokens)[j]
    ensures tokens[i] == tokens[j] && tokens[i + 1] == tokens[j + 1]
  {
    BigramParts(tokens, i);
    BigramParts(tokens, j);
  }

  /** The bigrams are built from the tokens left after stop-word removal, so the
      stop-word test on their parts never rejects one. */
  lemma {:induction false} BigramsHaveNoStopwordPart(tokens: seq<string>)
    requires forall k :: 0 <= k < |tokens| ==> IsToken(tokens[k])
    ensures forall b :: b in Bigrams(tokens) ==> !HasStopwordPart(b)
  {
    forall b | b in Bigrams(tokens) ensures !HasStopwordPart(b) {
      var i :| 0 <= i < |Bigrams(tokens)| && Bigrams(tokens)[i] == b;
      BigramParts(tokens, i);
      assert IsToken(tokens[i]) && IsToken(tokens[i + 1]);
    }
  }

  /** Without stop-word parts, every distinct bigram becomes a candidate. */
  lemma {:induction false} AllBigramCandidates(us: seq<string>, bigrams: seq<string>)
    requires forall u :: u in us ==> !HasStopwordPart(u)
    ensures forall u :: u in us ==> Candidate(u, multiset(bigrams)[u] as real + 0.5, []) in BigramCandidatesOf(us, bigrams)
  {
    if |us| > 0 {
      AllBigramCandidates(us[1..], bigrams);
      assert forall u :: u in us ==> u == us[0] || u in us[1..];
    }
  }

  /** A bigram that occurs once is a candidate scored 1.5. */
  lemma {:induction false} BigramIsCandidate(tokens: seq<string>, b: string)
    requires forall k :: 0 <= k < |tokens| ==> IsToken(tokens[k])
    requires Bigrams(tokens) == [b]
    ensures Candidate(b, 1.5, []) in Candidates(tokens)
  {
    var bigrams := Bigrams(tokens);
    assert b in bigrams;
    BigramsHaveNoStopwordPart(tokens);
    AllBigramCandidates(Unique(bigrams), bigrams);
    assert multiset(bigrams)[b] == 1;
    var bi := BigramCandidatesOf(Unique(bigrams), bigrams);
    assert Candidate(b, 1.5, []) in bi;
    assert Candidates(tokens) == UnigramCandidates(tokens) + bi;
  }

  /** Every candidate is a unigram or a bigram; every distinct token is a unigram
      candidate and every distinct bigram a bigram candidate. */
  lemma {:induction false} CandidateScores(tokens: seq<string>)
    requires forall k :: 0 <= k < |tokens| ==> IsToken(tokens[k])
    ensures forall c :: c in Candidates(tokens) ==> IsUnigramOf(tokens, c) || IsBigramOf(tokens, c)
    ensures forall t :: t in tokens ==> Candidate(t, multiset(tokens)[t] as real, SortedSynonyms(t)) in Candidates(tokens)
    ensures forall b :: b in Bigrams(tokens) ==> Candidate(b, multiset(Bigrams(tokens))[b] as real + 0.5, []) in Candidates(tokens)
  {
    var uni := UnigramCandidates(tokens);
    var bi := BigramCandidatesOf(Unique(Bigrams(tokens)), Bigrams(tokens));
    assert Candidates(tokens) == uni + bi;
    forall c | c in Candidates(tokens) ensures IsUnigramOf(tokens, c) || IsBigramOf(tokens, c) {
      if c in uni {
        var i :| 0 <= i < |uni| && uni[i] == c;
      }
    }
    forall t | t in tokens ensures Candidate(t, multiset(tokens)[t] as real, SortedSynonyms(t)) in Candidates(tokens) {
      var i :| 0 <= i < |Unique(tokens)| && Unique(tokens)[i] == t;
      assert uni[i] == Candidate(t, multiset(tokens)[t] as real, SortedSynonyms(t));
    }
    BigramsHaveNoStopwordPart(tokens);
    AllBigramCandidates(Unique(Bigrams(tokens)), Bigrams(tokens));
  }

  /** A unigram score is a whole number and a bigram score is not, so they never tie. */
  lemma {:induction false} NoTie(tokens: seq<string>, u: Candidate, b: Candidate)
    requires IsUnigramOf(tokens, u) && IsBigramOf(tokens, b)
    ensures u.score != b.score
    ensures u.score > b.score <==> multiset(tokens)[u.token] > multiset(Bigrams(tokens))[b.token]
  {
    HalfApart(multiset(tokens)[u.token], multiset(Bigrams(tokens))[b.token]);
  }

  /** A whole number never equals another one plus one half. */
  lemma {:induction false} HalfApart(x: int, y: int)
    ensures x as real != y as real + 0.5
    ensures x as real > y as real + 0.5 <==> x > y
  {
    if x > y {
      assert x as real >= y as real + 1.0;
    } else {
      assert x as real <= y as real;
    }
  }

  /** A rearrangement without repeats of candidates with pairwise different tokens has
      pairwise different tokens. */
  lemma {:induction false} PermutationDistinctTokens(a: seq<Candidate>, b: seq<Candidate>)
    requires multiset(a) == multiset(b)
    requires Distinct(a) && DistinctTokens(b)
    ensures DistinctTokens(a)
  {
    forall i, j | 0 <= i < j < |a| ensures a[i].token != a[j].token {
      assert a[i] in multiset(b) && a[j] in multiset(b);
      var p :| 0 <= p < |b| && b[p] == a[i];
      var q :| 0 <= q < |b| && b[q] == a[j];
      assert p != q;
    }
  }

  /** The sorted candidates have pairwise different tokens, so the dedup loop keeps
      all of them. */
  lemma {:induction false} RankedDistinct(tokens: seq<string>)
    requires forall k :: 0 <= k < |tokens| ==> IsToken(tokens[k])
    ensures forall c :: c in Ranked(tokens) <==> c in Candidates(tokens)
    ensures DistinctTokens(Ranked(tokens))
    ensures DedupByToken(Ranked(tokens), {}) == Ranked(tokens)
  {
    var r := Ranked(tokens);
    var lt := RankLess(FirstSeen(tokens));
    RankLessStrictTotal(tokens);
    forall c ensures c in r <==> c in Candidates(tokens) {
      assert c in r <==> c in multiset(r);
    }
    StrictTotalOnSub(lt, Candidates(tokens), r);
    SortedDistinct(lt, r);
    CandidatesDistinct(tokens);
    PermutationDistinctTokens(r, Candidates(tokens));
    DedupDistinct(r, {});
  }

  /** The result is the first `max(1, max_keywords)` ranked candidates. */
  lemma {:induction false} RankTokensIsPrefix(tokens: seq<string>, maxKeywords: int)
    requires forall k :: 0 <= k < |tokens| ==> IsToken(tokens[k])
    ensures RankTokens(tokens, maxKeywords) == Take(Ranked(tokens), Limit(maxKeywords))
  {
    RankedDistinct(tokens);
  }

  /** The ranking of a non-empty token list is non-empty, has pairwise different tokens,
      and holds at most `max_keywords` candidates when that is positive and one when it
      is not. */
  lemma {:induction false} RankTokensShape(tokens: seq<string>, maxKeywords: int)
    requires forall k :: 0 <= k < |tokens| ==> IsToken(tokens[k])
    requires |tokens| > 0
    ensures |RankTokens(tokens, maxKeywords)| > 0
    ensures DistinctTokens(RankTokens(tokens, maxKeywords))
    ensures maxKeywords >= 1 ==> |RankTokens(tokens, maxKeywords)| <= maxKeywords
    ensures maxKeywords < 1 ==> |RankTokens(tokens, maxKeywords)| == 1
  {
    RankTokensIsPrefix(tokens, maxKeywords);
    RankedDistinct(tokens);
    CandidateScores(tokens);
    var r := Ranked(tokens);
    var c0 := Candidate(tokens[0], multiset(tokens)[tokens[0]] as real, SortedSynonyms(tokens[0]));
    assert c0 in r;
    var out := RankTokens(tokens, maxKeywords);
    forall i, j | 0 <= i < j < |out| ensures out[i].token != out[j].token {
      assert out[i] == r[i] && out[j] == r[j];
    }
  }

  /** The ranking only returns candidates. */
  lemma {:induction false} RankTokensAreCandidates(tokens: seq<string>, maxKeywords: int)
    requires forall k :: 0 <= k < |tokens| ==> IsToken(tokens[k])
    ensures forall c :: c in RankTokens(tokens, maxKeywords) ==> c in Candidates(tokens)
  {
    RankTokensIsPrefix(tokens, maxKeywords);
    RankedDistinct(tokens);
    assert forall c :: c in RankTokens(tokens, maxKeywords) ==> c in Ranked(tokens);
  }

  /** The ranking holds `max(1, max_keywords)` candidates, or all of them when there are
      fewer. */
  lemma {:induction false} RankTokensLength(tokens: seq<string>, maxKeywords: int)
    requires forall k :: 0 <= k < |tokens| ==> IsToken(tokens[k])
    ensures |RankTokens(tokens, maxKeywords)| ==
      if Limit(maxKeywords) < |Candidates(tokens)| then Limit(maxKeywords) else |Candidates(tokens)|
  {
    RankTokensIsPrefix(tokens, maxKeywords);
    assert |Ranked(tokens)| == |multiset(Ranked(tokens))| == |multiset(Candidates(tokens))|;
  }

  /** The result is empty exactly when the text has no tokens; its tokens are pairwise
      different; it holds at most `max_keywords` candidates when that is positive, and
      one when it is not. */
  lemma {:induction false} RankKeywordsShape(text: string, maxKeywords: int)
    ensures |RankKeywords(text, maxKeywords)| == 0 <==> |Normalise(text)| == 0
    ensures DistinctTokens(RankKeywords(text, maxKeywords))
    ensures maxKeywords >= 1 ==> |RankKeywords(text, maxKeywords)| <= maxKeywords
    ensures maxKeywords < 1 && |Normalise(text)| > 0 ==> |RankKeywords(text, maxKeywords)| == 1
  {
    if |Normalise(text)| > 0 {
      RankTokensShape(Normalise(text), maxKeywords);
    }
  }

  /** Every returned candidate is a unigram with its count and synonyms or a bigram with
      its count plus one half. */
  lemma {:induction false} RankTokensKinds(tokens: seq<string>, maxKeywords: int)
    requires forall k :: 0 <= k < |tokens| ==> IsToken(tokens[k])
    ensures forall c :: c in RankTokens(tokens, maxKeywords) ==> IsUnigramOf(tokens, c) || IsBigramOf(tokens, c)
  {
    var out := RankTokens(tokens, maxKeywords);
    RankTokensIsPrefix(tokens, maxKeywords);
    RankedDistinct(tokens);
    CandidateScores(tokens);
    assert forall c :: c in out ==> c in Ranked(tokens);
  }

  /** The returned candidates are ordered by falling score, and equal scores only occur
      within one kind, where the earlier first occurrence comes first. */
  lemma {:induction false} RankTokensOrder(tokens: seq<string>, maxKeywords: int)
    requires forall k :: 0 <= k < |tokens| ==> IsToken(tokens[k])
    ensures var out := RankTokens(tokens, maxKeywords);
      forall i, j :: 0 <= i < j < |out| ==> out[i].score >= out[j].score
    ensures var out := RankTokens(tokens, maxKeywords);
      forall i, j :: 0 <= i < j < |out| && out[i].score == out[j].score ==> EarlierOfSameKind(tokens, out[i], out[j])
  {
    var out := RankTokens(tokens, maxKeywords);
    var r := Ranked(tokens);
    var fs := FirstSeen(tokens);
    RankTokensIsPrefix(tokens, maxKeywords);
    RankTokensKinds(tokens, maxKeywords);
    assert out == r[..|out|];
    forall i, j | 0 <= i < j < |out|
      ensures out[i].score >= out[j].score
      ensures out[i].score == out[j].score ==> EarlierOfSameKind(tokens, out[i], out[j])
    {
      assert out[i] == r[i] && out[j] == r[j];
      assert out[i] in out && out[j] in out;
      OrderedPair(tokens, out[i], out[j]);
    }
  }

  /** Of two candidates in ranking order, the first scores at least as high, and on a
      tie it is of the same kind and occurs earlier. */
  lemma {:induction false} OrderedPair(tokens: seq<string>, a: Candidate, b: Candidate)
    requires forall k :: 0 <= k < |tokens| ==> IsToken(tokens[k])
    requires IsUnigramOf(tokens, a) || IsBigramOf(tokens, a)
    requires IsUnigramOf(tokens, b) || IsBigramOf(tokens, b)
    requires RankLess(FirstSeen(tokens))(a, b)
    ensures a.score >= b.score
    ensures a.score == b.score ==> EarlierOfSameKind(tokens, a, b)
  {
    if a.score == b.score {
      TiedPair(tokens, a, b);
    }
  }

  /** `a` and `b` are both unigrams, `a` occurring first, or both bigrams, `a` occurring
      first. */
  predicate EarlierOfSameKind(tokens: seq<string>, a: Candidate, b: Candidate)
  {
    || (IsUnigramOf(tokens, a) && IsUnigramOf(tokens, b) && FirstIndex(tokens, a.token) < FirstIndex(tokens, b.token))
    || (IsBigramOf(tokens, a) && IsBigramOf(tokens, b)
        && FirstIndex(Bigrams(tokens), a.token) < FirstIndex(Bigrams(tokens), b.token))
  }

  /** Two candidates with equal scores, ordered by `first_seen`, are of one kind and
      ordered by first occurrence. */
  lemma {:induction false} TiedPair(tokens: seq<string>, a: Candidate, b: Candidate)
    requires forall k :: 0 <= k < |tokens| ==> IsToken(tokens[k])
    requires IsUnigramOf(tokens, a) || IsBigramOf(tokens, a)
    requires IsUnigramOf(tokens, b) || IsBigramOf(tokens, b)
    requires a.score == b.score && RankLess(FirstSeen(tokens))(a, b)
    ensures EarlierOfSameKind(tokens, a, b)
  {
    if IsUnigramOf(tokens, a) && IsBigramOf(tokens, b) {
      NoTie(tokens, a, b);
    } else if IsBigramOf(tokens, a) && IsUnigramOf(tokens, b) {
      NoTie(tokens, b, a);
    } else if IsUnigramOf(tokens, a) {
      FirstSeenOfToken(tokens, a.token);
      FirstSeenOfToken(tokens, b.token);
    } else {
      FirstSeenOfBigram(tokens, a.token);
      FirstSeenOfBigram(tokens, b.token);
    }
  }

  /** Top-k: every candidate left out ranks after every candidate returned. */
  lemma {:induction false} RankTokensTop(tokens: seq<string>, maxKeywords: int)
    requires forall k :: 0 <= k < |tokens| ==> IsToken(tokens[k])
    ensures forall c, x :: c in Candidates(tokens) && c !in RankTokens(tokens, maxKeywords) && x in RankTokens(tokens, maxKeywords) ==>
      RankLess(FirstSeen(tokens))(x, c)
  {
    RankTokensIsPrefix(tokens, maxKeywords);
    RankedDistinct(tokens);
    PrefixRanksFirst(RankLess(FirstSeen(tokens)), Ranked(tokens), RankTokens(tokens, maxKeywords));
  }

  /** The first candidate returned ranks before every other candidate. */
  lemma {:induction false} RankTokensFirst(tokens: seq<string>, maxKeywords: int)
    requires forall k :: 0 <= k < |tokens| ==> IsToken(tokens[k])
    requires |tokens| > 0
    ensures |RankTokens(tokens, maxKeywords)| > 0
    ensures RankTokens(tokens, maxKeywords)[0] in Candidates(tokens)
    ensures forall c :: c in Candidates(tokens) && c != RankTokens(tokens, maxKeywords)[0] ==>
      RankLess(FirstSeen(tokens))(RankTokens(tokens, maxKeywords)[0], c)
  {
    var out := RankTokens(tokens, maxKeywords);
    var r := Ranked(tokens);
    RankTokensShape(tokens, maxKeywords);
    RankTokensIsPrefix(tokens, maxKeywords);
    RankedDistinct(tokens);
    assert out[0] == r[0] && r[0] in r;
    HeadRanksFirst(RankLess(FirstSeen(tokens)), r);
  }

  /** When no candidate outscores the first token, the first token ranks first. */
  lemma {:induction false} FirstTokenWins(tokens: seq<string>, maxKeywords: int)
    requires forall k :: 0 <= k < |tokens| ==> IsToken(tokens[k])
    requires |tokens| > 0
    requires forall c :: c in Candidates(tokens) ==> c.score <= multiset(tokens)[tokens[0]] as real
    ensures |RankTokens(tokens, maxKeywords)| > 0
    ensures RankTokens(tokens, maxKeywords)[0].token == tokens[0]
  {
    var fs := FirstSeen(tokens);
    var out := RankTokens(tokens, maxKeywords);
    var p := Candidate(tokens[0], multiset(tokens)[tokens[0]] as real, SortedSynonyms(tokens[0]));
    assert p in Candidates(tokens) by {
      CandidateScores(tokens);
      assert tokens[0] in tokens;
    }
    RankTokensFirst(tokens, maxKeywords);
    if out[0] != p {
      assert RankLess(fs)(out[0], p);
      FirstSeenStart(tokens);
      assert false;
    }
  }

  /** A sequence holding two different elements has at least two elements. */
  lemma {:induction false} TwoElements<T>(s: seq<T>, x: T, y: T)
    requires x in s && y in s && x != y
    ensures |s| >= 2
  {
    var i :| 0 <= i < |s| && s[i] == x;
    var j :| 0 <= j < |s| && s[j] == y;
    assert i != j;
  }

  /** When no candidate outscores the second token, only a candidate for the first token
      ranks before it. */
  lemma {:induction false} BeforeSecondIsFirst(tokens: seq<string>, x: Candidate)
    requires forall k :: 0 <= k < |tokens| ==> IsToken(tokens[k])
    requires |tokens| > 1 && tokens[1] != tokens[0]
    requires forall c :: c in Candidates(tokens) ==> c.score <= multiset(tokens)[tokens[1]] as real
    requires x in Candidates(tokens)
    requires RankLess(FirstSeen(tokens))(x, Candidate(tokens[1], multiset(tokens)[tokens[1]] as real, SortedSynonyms(tokens[1])))
    ensures x.token == tokens[0]
  {
    var fs := FirstSeen(tokens);
    FirstSeenStart(tokens);
    assert x.score == multiset(tokens)[tokens[1]] as real;
    assert x.token in fs && fs[x.token] >= 0;
    assert fs[tokens[1]] == 1;
    assert fs[x.token] == 0;
  }

  /** When no candidate outscores the second token and it differs from the first, a
      limit of at least two keeps it. */
  lemma {:induction false} SecondTokenKept(tokens: seq<string>, maxKeywords: int)
    requires forall k :: 0 <= k < |tokens| ==> IsToken(tokens[k])
    requires |tokens| > 1 && tokens[1] != tokens[0] && maxKeywords >= 2
    requires forall c :: c in Candidates(tokens) ==> c.score <= multiset(tokens)[tokens[1]] as real
    ensures exists c :: c in RankTokens(tokens, maxKeywords) && c.token == tokens[1]
  {
    var out := RankTokens(tokens, maxKeywords);
    var a := Candidate(tokens[1], multiset(tokens)[tokens[1]] as real, SortedSynonyms(tokens[1]));
    var p := Candidate(tokens[0], multiset(tokens)[tokens[0]] as real, SortedSynonyms(tokens[0]));
    assert a in Candidates(tokens) && p in Candidates(tokens) by {
      CandidateScores(tokens);
      assert tokens[0] in tokens && tokens[1] in tokens;
    }
    TwoElements(Candidates(tokens), a, p);
    RankTokensLength(tokens, maxKeywords);
    RankTokensShape(tokens, maxKeywords);
    assert |out| >= 2 && out[0].token != out[1].token;
    var y := if out[0].token != tokens[0] then out[0] else out[1];
    assert y in out && y.token != tokens[0];
    if a !in out {
      RankTokensAreCandidates(tokens, maxKeywords);
      RankTokensTop(tokens, maxKeywords);
      BeforeSecondIsFirst(tokens, y);
      assert false;
    }
  }

  // ---------------------------------------------------------------------------
  // Tokenising concrete text

  lemma {:induction false} TokenRunOfRun(w: string, rest: string)
    requires forall i :: 0 <= i < |w| ==> IsTokenChar(w[i])
    requires |rest| == 0 || !IsTokenChar(rest[0])
    ensures TokenRun(w + rest) == |w|
    decreases |w|
  {
    var s := w + rest;
    if |w| == 0 {
      assert s == rest;
    } else {
      assert s[0] == w[0] && IsTokenChar(s[0]);
      assert s[1..] == w[1..] + rest;
      TokenRunOfRun(w[1..], rest);
      assert TokenRun(s) == 1 + TokenRun(s[1..]);
    }
  }

  /** A whole token followed by a character outside the token alphabet is matched in
      full, and the scan carries on after it. */
  lemma {:induction false} MatchesWord(w: string, rest: string)
    requires IsRawToken(w)
    requires |rest| == 0 || !IsTokenChar(rest[0])
    ensures Matches(w + rest) == [w] + Matches(rest)
  {
    var s := w + rest;
    assert s[1..] == w[1..] + rest;
    TokenRunOfRun(w[1..], rest);
    assert s[..|w|] == w;
    assert s[|w|..] == rest;
  }

  /** Space-separated words are matched one by one. */
  lemma {:induction false} MatchesWords(w: string, rest: string)
    requires IsRawToken(w)
    ensures Matches(w + " " + rest) == [w] + Matches(rest)
  {
    assert w + " " + rest == w + (" " + rest);
    MatchesWord(w, " " + rest);
    assert (" " + rest)[1..] == rest;
  }

  /** Words of the token alphabet joined by single spaces are matched one by one. */
  lemma {:induction false} MatchesJoin(ws: seq<string>)
    requires forall k :: 0 <= k < |ws| ==> IsRawToken(ws[k])
    ensures Matches(Join(ws, " ")) == ws
  {
    if |ws| == 1 {
      MatchesWord(ws[0], "");
      assert ws[0] + "" == ws[0];
    } else if |ws| > 1 {
      MatchesJoin(ws[1..]);
      MatchesWords(ws[0], Join(ws[1..], " "));
      assert ws == [ws[0]] + ws[1..];
    }
  }

  /** When no match is a stop word, filtering only lower-cases. */
  lemma {:induction false} LowerAndFilterKeepsAll(ms: seq<string>)
    requires forall k :: 0 <= k < |ms| ==> IsRawToken(ms[k]) && LowerStr(ms[k]) !in Stopwords
    ensures |LowerAndFilter(ms)| == |ms|
    ensures forall i :: 0 <= i < |ms| ==> LowerAndFilter(ms)[i] == LowerStr(ms[i])
  {
    if |ms| > 0 {
      LowerAndFilterKeepsAll(ms[1..]);
      var tail := LowerAndFilter(ms[1..]);
      assert LowerAndFilter(ms) == [LowerStr(ms[0])] + tail;
      forall i | 1 <= i < |ms| ensures LowerAndFilter(ms)[i] == LowerStr(ms[i]) {
        assert ms[1..][i - 1] == ms[i];
      }
    }
  }

}
