/** Worked examples of the frequency ranker on concrete job descriptions. */
module KeywordExamples {
  import opened Text
  import opened Sorting
  import opened KeywordExtract

  lemma {:induction false} StopwordFacts()
    ensures "python" !in Stopwords && "and" in Stopwords && "data" !in Stopwords
  {
  }

  /** The words of "data and python". */
  const StopwordExample: seq<string> := ["data", "and", "python"]

  lemma {:induction false} MatchesAcrossStopword()
    ensures Matches(Join(StopwordExample, " ")) == StopwordExample
  {
    var ws := StopwordExample;
    assert IsRawToken(ws[0]) && IsRawToken(ws[1]) && IsRawToken(ws[2]);
    MatchesJoin(ws);
  }

  lemma {:induction false} FilterAcrossStopword()
    ensures LowerAndFilter(StopwordExample) == ["data", "python"]
  {
    var ms := StopwordExample;
    LowerStrOfLower("data");
    LowerStrOfLower("and");
    LowerStrOfLower("python");
    StopwordFacts();
    assert ms[1..] == ["and", "python"];
    assert ms[1..][1..] == ["python"];
    assert LowerAndFilter(["python"]) == ["python"];
    assert LowerAndFilter(["and", "python"]) == ["python"];
  }

  lemma {:induction false} NormaliseAcrossStopword()
    ensures Normalise(Join(StopwordExample, " ")) == ["data", "python"]
  {
    MatchesAcrossStopword();
    FilterAcrossStopword();
  }

  lemma {:induction false} DataPythonBigram()
    ensures Bigrams(["data", "python"]) == ["data python"]
  {
    var tokens: seq<string> := ["data", "python"];
    assert Bigrams(tokens)[0] == "data python";
  }

  lemma {:induction false} DataPythonCandidates()
    ensures Candidate("data python", 1.5, []) in Candidates(["data", "python"])
  {
    var tokens: seq<string> := ["data", "python"];
    assert IsToken("data") && IsToken("python") by { StopwordFacts(); }
    DataPythonBigram();
    BigramIsCandidate(tokens, "data python");
  }

  /** "data and python": the stop word goes before the pairs are built, so the two words
      around it become the bigram "data python", a candidate scored 1.5. */
  lemma {:induction false} BigramAcrossStopword()
    ensures Bigrams(Normalise(Join(StopwordExample, " "))) == ["data python"]
    ensures Candidate("data python", 1.5, []) in Candidates(Normalise(Join(StopwordExample, " ")))
  {
    NormaliseAcrossStopword();
    DataPythonBigram();
    DataPythonCandidates();
  }

  // ---------------------------------------------------------------------------
  // "Python analytics automation python dashboard analytics", at most five keywords

  const Scenario: seq<string> := ["python", "analytics", "automation", "python", "dashboard", "analytics"]

  lemma {:induction false} ScenarioWordsAreTokens()
    ensures forall k :: 0 <= k < |Scenario| ==> IsToken(Scenario[k])
  {
    assert "python" !in Stopwords && "analytics" !in Stopwords;
    assert "automation" !in Stopwords && "dashboard" !in Stopwords;
  }

  const ScenarioWords: seq<string> := ["Python", "analytics", "automation", "python", "dashboard", "analytics"]

  lemma {:induction false} LowerScenario()
    ensures forall k :: 0 <= k < |ScenarioWords| ==> LowerStr(ScenarioWords[k]) == Scenario[k]
  {
    assert LowerStr("Python") == "python";
    LowerStrOfLower("python");
    LowerStrOfLower("analytics");
    LowerStrOfLower("automation");
    LowerStrOfLower("dashboard");
  }

  lemma {:induction false} FilterScenario()
    ensures LowerAndFilter(ScenarioWords) == Scenario
  {
    var ms := ScenarioWords;
    LowerScenario();
    ScenarioWordsAreTokens();
    assert forall k :: 0 <= k < |ms| ==> IsRawToken(ms[k]) && LowerStr(ms[k]) !in Stopwords;
    LowerAndFilterKeepsAll(ms);
  }

  /** The job description of the ranking scenario, "Python analytics automation python
      dashboard analytics", normalises to its six words in lower case. */
  lemma {:induction false} NormaliseScenario()
    ensures Normalise(Join(ScenarioWords, " ")) == Scenario
  {
    assert forall k :: 0 <= k < |ScenarioWords| ==> IsRawToken(ScenarioWords[k]);
    MatchesJoin(ScenarioWords);
    FilterScenario();
  }

  /** The first letters of the scenario's words. */
  const ScenarioHeads: seq<char> := ['p', 'a', 'a', 'p', 'd', 'a']

  lemma {:induction false} ScenarioHeadsOf()
    ensures |ScenarioHeads| == |Scenario|
    ensures forall k :: 0 <= k < |Scenario| ==> Scenario[k][0] == ScenarioHeads[k]
  {
  }

  lemma {:induction false} HeadPairsDiffer(i: int, j: int)
    requires 0 <= i < j < |ScenarioHeads| - 1
    ensures ScenarioHeads[i] != ScenarioHeads[j] || ScenarioHeads[i + 1] != ScenarioHeads[j + 1]
  {
    var h := ScenarioHeads;
    if i == 0 {
      assert h[i] == 'p' && h[i + 1] == 'a';
    } else if i == 1 {
      assert h[i] == 'a' && h[i + 1] == 'a';
    } else if i == 2 {
      assert h[i] == 'a' && h[i + 1] == 'p';
    } else {
      assert h[i] == 'p' && h[i + 1] == 'd';
    }
  }

  /** The five bigrams of the scenario are pairwise different: already the first letters
      of the two words of each pair tell them apart. */
  lemma {:induction false} ScenarioBigramsDistinct()
    ensures Distinct(Bigrams(Scenario))
  {
    ScenarioWordsAreTokens();
    ScenarioHeadsOf();
    var bs := Bigrams(Scenario);
    forall i, j | 0 <= i < j < |bs| ensures bs[i] != bs[j] {
      BigramParts(Scenario, i);
      BigramParts(Scenario, j);
      HeadPairsDiffer(i, j);
      assert Scenario[i] != Scenario[j] || Scenario[i + 1] != Scenario[j + 1];
      assert [Scenario[i], Scenario[i + 1]] != [Scenario[j], Scenario[j + 1]];
    }
  }

  /** "python" and "analytics" occur twice each and no word more often. */
  lemma {:induction false} ScenarioTokenCounts()
    ensures multiset(Scenario)["python"] == 2 && multiset(Scenario)["analytics"] == 2
    ensures forall t :: multiset(Scenario)[t] <= 2
  {
    assert multiset(Scenario) == multiset{"python", "analytics", "automation", "python", "dashboard", "analytics"};
  }

  /** Every bigram of the scenario occurs once. */
  lemma {:induction false} ScenarioBigramCounts()
    ensures forall b :: multiset(Bigrams(Scenario))[b] <= 1
  {
    ScenarioBigramsDistinct();
    forall b ensures multiset(Bigrams(Scenario))[b] <= 1 {
      DistinctCount(Bigrams(Scenario), b);
    }
  }

  /** No candidate of the scenario scores above 2. */
  lemma {:induction false} ScenarioScores()
    ensures forall c :: c in Candidates(Scenario) ==> c.score <= 2.0
  {
    ScenarioWordsAreTokens();
    ScenarioTokenCounts();
    ScenarioBigramCounts();
    CandidateScores(Scenario);
  }

  /** Ranked with a limit of five, "python" comes first. */
  lemma {:induction false} RankScenarioFirst()
    ensures forall k :: 0 <= k < |Scenario| ==> IsToken(Scenario[k])
    ensures |RankTokens(Scenario, 5)| > 0 && RankTokens(Scenario, 5)[0].token == "python"
  {
    ScenarioWordsAreTokens();
    ScenarioScores();
    assert Scenario[0] == "python";
    FirstTokenWins(Scenario, 5);
  }

  /** Ranked with a limit of five, "analytics" is kept. */
  lemma {:induction false} RankScenarioKept()
    ensures forall k :: 0 <= k < |Scenario| ==> IsToken(Scenario[k])
    ensures exists c :: c in RankTokens(Scenario, 5) && c.token == "analytics"
  {
    ScenarioWordsAreTokens();
    ScenarioScores();
    ScenarioTokenCounts();
    assert Scenario[0] == "python" && Scenario[1] == "analytics";
    SecondTokenKept(Scenario, 5);
  }

  /** The ranking scenario: for "Python analytics automation python dashboard analytics"
      with at most five keywords, "python" ranks first and "analytics" is among the
      results. */
  lemma {:induction false} RankKeywordsScenario()
    ensures |RankKeywords(Join(ScenarioWords, " "), 5)| > 0
    ensures RankKeywords(Join(ScenarioWords, " "), 5)[0].token == "python"
    ensures exists c :: c in RankKeywords(Join(ScenarioWords, " "), 5) && c.token == "analytics"
  {
    NormaliseScenario();
    RankScenarioFirst();
    RankScenarioKept();
  }
}
