/** The bullet rewriter of the resume optimiser: for every bullet of a parsed LaTeX
    document it tries, keyword by keyword, to bring the keyword in by substituting one
    of its synonyms or (outside strict mode) by appending it, while a usage ledger shared
    by all bullets caps each keyword at two insertions. In strict mode a bullet may not
    change its length by more than ten characters. */
module Rewriter {
  import opened Text
  import opened Options
  import opened Sorting
  import opened Counters
  import opened KeywordExtract
  import opened AstParser

  // ---------------------------------------------------------------------------
  // _replace_synonym

  /** No backslash lies within two characters of the span `[i, i + n)` of `text`. */
  predicate ClearOfMacros(text: string, i: int, n: int)
  {
    forall m :: i - 2 <= m < i + n + 2 && 0 <= m < |text| ==> text[m] != '\\'
  }

  /** `pat` first occurs in `s` at `i`. */
  predicate FirstAt(s: string, pat: string, i: int)
  {
    OccursAt(s, pat, i) && forall j :: 0 <= j < i ==> !OccursAt(s, pat, j)
  }

  /** `_replace_synonym`: the first occurrence of `synonym` in the lower-cased text is
      replaced by `keyword`, unless a backslash is near it. */
  function ReplaceSynonym(text: string, synonym: string, keyword: string): (r: (string, bool))
    ensures !r.1 ==> r.0 == text
    ensures r.1 ==> |r.0| == |text| - |synonym| + |keyword|
  {
    var idx := Find(LowerStr(text), synonym);
    if idx == -1 then (text, false)
    else if Contains(Window(text, idx, |synonym|), "\\") then (text, false)
    else (text[..idx] + keyword + text[idx + |synonym|..], true)
  }

  /** `text[max(0, i - 2) : i + n + 2]`, the slice clamped to the text as in Python. */
  function Window(text: string, i: nat, n: nat): (w: string)
    requires i + n <= |text|
    ensures Contains(w, "\\") <==> !ClearOfMacros(text, i, n)
  {
    var start := if i >= 2 then i - 2 else 0;
    var stop := if i + n + 2 <= |text| then i + n + 2 else |text|;
    var w := text[start..stop];
    ContainsBackslash(w);
    assert ClearOfMacros(text, i, n) ==> !exists m :: 0 <= m < |w| && w[m] == '\\' by {
      if ClearOfMacros(text, i, n) {
        forall m | 0 <= m < |w| ensures w[m] != '\\' {
          assert w[m] == text[start + m];
        }
      }
    }
    assert !ClearOfMacros(text, i, n) ==> exists m :: 0 <= m < |w| && w[m] == '\\' by {
      if !ClearOfMacros(text, i, n) {
        var m :| i - 2 <= m < i + n + 2 && 0 <= m < |text| && text[m] == '\\';
        assert w[m - start] == text[m];
      }
    }
    w
  }

  lemma {:induction false} FirstAtUnique(s: string, pat: string, i: int, j: int)
    requires FirstAt(s, pat, i) && FirstAt(s, pat, j)
    ensures i == j
  {
  }

  lemma {:induction false} ContainsBackslash(w: string)
    ensures Contains(w, "\\") <==> exists m :: 0 <= m < |w| && w[m] == '\\'
  {
    if exists m :: 0 <= m < |w| && w[m] == '\\' {
      var m :| 0 <= m < |w| && w[m] == '\\';
      assert w[m..m + 1] == "\\";
      ContainsWitness(w, "\\", m);
    }
    if Contains(w, "\\") {
      var i := Find(w, "\\");
      assert w[i..i + 1] == "\\";
      assert w[i] == '\\';
    }
  }

  /** The substitution succeeds exactly when the synonym occurs in the lower-cased text
      and its first occurrence is clear of backslashes (a later occurrence is never
      tried); the result is the text with that occurrence replaced by the keyword, which
      then occurs there. */
  lemma {:induction false} ReplaceSynonymMeaning(text: string, synonym: string, keyword: string)
    ensures ReplaceSynonym(text, synonym, keyword).1 <==>
      exists i :: FirstAt(LowerStr(text), synonym, i) && ClearOfMacros(text, i, |synonym|)
    ensures forall i :: FirstAt(LowerStr(text), synonym, i) && ClearOfMacros(text, i, |synonym|) ==>
      && ReplaceSynonym(text, synonym, keyword).0 == text[..i] + keyword + text[i + |synonym|..]
      && OccursAt(ReplaceSynonym(text, synonym, keyword).0, keyword, i)
    ensures !Contains(LowerStr(text), synonym) ==> ReplaceSynonym(text, synonym, keyword) == (text, false)
  {
    var lowered := LowerStr(text);
    var idx := Find(lowered, synonym);
    if idx != -1 {
      assert FirstAt(lowered, synonym, idx);
      forall i | FirstAt(lowered, synonym, i) ensures i == idx {
        FirstAtUnique(lowered, synonym, i, idx);
      }
      if ClearOfMacros(text, idx, |synonym|) {
        var r := text[..idx] + keyword + text[idx + |synonym|..];
        assert r[idx..idx + |keyword|] == keyword;
      }
    } else {
      forall i ensures !FirstAt(lowered, synonym, i) {
      }
    }
  }

  // ---------------------------------------------------------------------------
  // One keyword

  /** `SYNONYMS.get(token, set()) | set(candidate.synonyms)` */
  function SynonymsToTry(c: Candidate): set<string>
  {
    SynonymSet(c.token) + (set s | s in c.synonyms)
  }

  /** `order` lists the set `s`, each element once: Python's iteration over a set, whose
      order is not fixed. */
  predicate Enumerates(order: seq<string>, s: set<string>)
  {
    Distinct(order) && (forall x :: x in order ==> x in s) && (forall x :: x in s ==> x in order)
  }

  /** `abs(len(a) - len(b))` */
  function LengthChange(a: string, b: string): nat
  {
    if |a| >= |b| then |a| - |b| else |b| - |a|
  }

  /** The strict length budget of a bullet, in characters. */
  const Budget: nat := 10

  /** A substitution of `synonym` is taken: it succeeds and, in strict mode, the result
      is within the budget of the original bullet. */
  predicate Accepted(updated: string, original: string, synonym: string, token: string, strict: bool)
  {
    var r := ReplaceSynonym(updated, synonym, token);
    r.1 && !(strict && LengthChange(r.0, original) > Budget)
  }

  /** The text after the first synonym, in the order tried, whose substitution is taken. */
  function FirstReplacement(updated: string, original: string, order: seq<string>, token: string, strict: bool): (r: Option<string>)
    ensures r.Some? ==> Contains(r.value, token)
    ensures r.Some? && strict ==> LengthChange(r.value, original) <= Budget
  {
    if |order| > 0 && Accepted(updated, original, order[0], token, strict) then
      SubstitutionPlacesKeyword(updated, order[0], token);
      Some(ReplaceSynonym(updated, order[0], token).0)
    else
    if |order| == 0 then None
    else FirstReplacement(updated, original, order[1..], token, strict)
  }

  /** A successful substitution leaves the keyword in the text. */
  lemma {:induction false} SubstitutionPlacesKeyword(text: string, synonym: string, keyword: string)
    requires ReplaceSynonym(text, synonym, keyword).1
    ensures Contains(ReplaceSynonym(text, synonym, keyword).0, keyword)
  {
    ReplaceSynonymMeaning(text, synonym, keyword);
    var k :| FirstAt(LowerStr(text), synonym, k) && ClearOfMacros(text, k, |synonym|);
    ContainsWitness(ReplaceSynonym(text, synonym, keyword).0, keyword, k);
  }

  /** An appended keyword is in the text. */
  lemma {:induction false} AdditionPlacesKeyword(text: string, token: string)
    ensures Contains(text + Addition(token), token)
  {
    var s := text + Addition(token);
    assert s[|text| + 2..|text| + 2 + |token|] == token;
    ContainsWitness(s, token, |text| + 2);
  }

  /** The search gives the substitution of the first synonym taken. */
  lemma {:induction false} FirstReplacementAt(updated: string, original: string, order: seq<string>, token: string, strict: bool, i: nat)
    requires i < |order| && Accepted(updated, original, order[i], token, strict)
    requires forall j :: 0 <= j < i ==> !Accepted(updated, original, order[j], token, strict)
    ensures FirstReplacement(updated, original, order, token, strict) == Some(ReplaceSynonym(updated, order[i], token).0)
  {
    if i > 0 {
      assert !Accepted(updated, original, order[0], token, strict);
      var rest := order[1..];
      assert rest[i - 1] == order[i];
      forall j | 0 <= j < i - 1 ensures !Accepted(updated, original, rest[j], token, strict) {
        assert rest[j] == order[j + 1];
      }
      FirstReplacementAt(updated, original, rest, token, strict, i - 1);
    }
  }

  /** The search finds nothing when no synonym is taken. */
  lemma {:induction false} FirstReplacementNone(updated: string, original: string, order: seq<string>, token: string, strict: bool)
    requires forall j :: 0 <= j < |order| ==> !Accepted(updated, original, order[j], token, strict)
    ensures FirstReplacement(updated, original, order, token, strict) == None
  {
    if |order| > 0 {
      assert !Accepted(updated, original, order[0], token, strict);
      var rest := order[1..];
      forall j | 0 <= j < |rest| ensures !Accepted(updated, original, rest[j], token, strict) {
        assert rest[j] == order[j + 1];
      }
      FirstReplacementNone(updated, original, rest, token, strict);
    }
  }

  /** The usage ledger, shared by all bullets, next to the number of insertions each
      keyword has received so far (kept for the proofs only). */
  datatype Ledger = Ledger(usage: map<string, nat>, inserted: map<string, nat>)

  /** The state of one bullet's pass: the text so far, the ledger and the bullet's own
      counter `per_bullet`. */
  datatype Pass = Pass(updated: string, ledger: Ledger, perBullet: map<string, nat>)

  /** Records one insertion of `token`. */
  function Insert(p: Pass, newText: string, token: string): Pass
  {
    Pass(newText, Ledger(Add(p.ledger.usage, token, 1), Add(p.ledger.inserted, token, 1)), Add(p.perBullet, token, 1))
  }

  /** The text appended for a keyword that no synonym brought in: ` (token)`. */
  function Addition(token: string): string
  {
    " (" + token + ")"
  }

  /** One candidate of the inner loop of `optimize_resume`, given what the synonym search
      over the candidate's synonyms finds in the text so far. */
  function Step(p: Pass, token: string, found: Option<string>, strict: bool): Pass
  {
    if Get(p.ledger.usage, token) >= 2 then p
    else if Get(p.perBullet, token) >= 1 then p.(ledger := p.ledger.(usage := Add(p.ledger.usage, token, Get(p.perBullet, token))))
    else
      match found
      case Some(newText) => Insert(p, newText, token)
      case None =>
        if !strict && Get(p.ledger.usage, token) < 2 then Insert(p, p.updated + Addition(token), token)
        else p
  }

  /** One candidate of the inner loop of `optimize_resume`. */
  function CandidateStep(p: Pass, c: Candidate, order: seq<string>, original: string, strict: bool): Pass
  {
    Step(p, c.token, FirstReplacement(p.updated, original, order, c.token, strict), strict)
  }

  /** Every insertion went into a ledger entry that still counts it, and no keyword has
      more than two. */
  ghost predicate LedgerOk(l: Ledger)
  {
    forall t :: Get(l.inserted, t) <= Get(l.usage, t) && Get(l.inserted, t) <= 2
  }

  /** The ledger never decreases, and a keyword already at two is never inserted again. */
  ghost predicate Grows(a: Ledger, b: Ledger)
  {
    && (forall t :: Get(a.usage, t) <= Get(b.usage, t))
    && (forall t :: Get(a.usage, t) >= 2 ==> Get(b.inserted, t) == Get(a.inserted, t))
    && (forall t :: Get(a.inserted, t) <= Get(b.inserted, t))
  }

  lemma {:induction false} GrowsTrans(a: Ledger, b: Ledger, c: Ledger)
    requires Grows(a, b) && Grows(b, c)
    ensures Grows(a, c)
  {
    forall t | Get(a.usage, t) >= 2 ensures Get(c.inserted, t) == Get(a.inserted, t) {
      assert Get(b.usage, t) >= 2;
    }
  }

  /** A candidate step keeps the ledger sound and growing, and an insertion both adds
      exactly one to the keyword's ledger entry and leaves the keyword in the text. */
  lemma {:induction false} StepLedger(p: Pass, token: string, found: Option<string>, strict: bool)
    requires LedgerOk(p.ledger)
    requires found.Some? ==> Contains(found.value, token)
    ensures var q := Step(p, token, found, strict);
      && LedgerOk(q.ledger) && Grows(p.ledger, q.ledger)
      && (forall t :: t != token ==> Get(q.ledger.inserted, t) == Get(p.ledger.inserted, t))
      && (Get(q.ledger.inserted, token) != Get(p.ledger.inserted, token) ==>
            && Get(p.ledger.usage, token) < 2
            && Get(q.ledger.inserted, token) == Get(p.ledger.inserted, token) + 1
            && Get(q.ledger.usage, token) == Get(p.ledger.usage, token) + 1
            && Contains(q.updated, token))
  {
    if Get(p.ledger.usage, token) < 2 && Get(p.perBullet, token) < 1 && found.None? && !strict {
      AdditionPlacesKeyword(p.updated, token);
    }
  }

  /** What one candidate does to the text: a keyword whose usage has reached two is
      skipped; a keyword the bullet already holds only adds its occurrences to the usage;
      otherwise a synonym substitution found is taken, and without one the non-strict mode
      appends ` (token)`. Strict mode never appends. */
  lemma {:induction false} StepText(p: Pass, token: string, found: Option<string>, strict: bool)
    ensures Get(p.ledger.usage, token) >= 2 ==> Step(p, token, found, strict) == p
    ensures Get(p.ledger.usage, token) < 2 && Get(p.perBullet, token) >= 1 ==>
      && Step(p, token, found, strict).updated == p.updated
      && Get(Step(p, token, found, strict).ledger.usage, token) == Get(p.ledger.usage, token) + Get(p.perBullet, token)
    ensures Get(p.ledger.usage, token) < 2 && Get(p.perBullet, token) < 1 && found.Some? ==>
      Step(p, token, found, strict).updated == found.value
    ensures Get(p.ledger.usage, token) < 2 && Get(p.perBullet, token) < 1 && found.None? ==>
      Step(p, token, found, strict).updated == if strict then p.updated else p.updated + Addition(token)
    ensures strict ==>
      (|| Step(p, token, found, strict).updated == p.updated
       || (found.Some? && Step(p, token, found, strict).updated == found.value))
  {
  }

  lemma {:induction false} CandidateStepLedger(p: Pass, c: Candidate, order: seq<string>, original: string, strict: bool)
    requires LedgerOk(p.ledger)
    ensures LedgerOk(CandidateStep(p, c, order, original, strict).ledger)
    ensures Grows(p.ledger, CandidateStep(p, c, order, original, strict).ledger)
  {
    StepLedger(p, c.token, FirstReplacement(p.updated, original, order, c.token, strict), strict);
  }

  /** The candidate loop over the keywords, in order. */
  function CandidateSteps(p: Pass, keywords: seq<Candidate>, orders: seq<seq<string>>, original: string, strict: bool): Pass
    requires |orders| == |keywords|
  {
    if |keywords| == 0 then p
    else
      var n := |keywords| - 1;
      CandidateStep(CandidateSteps(p, keywords[..n], orders[..n], original, strict), keywords[n], orders[n], original, strict)
  }

  lemma {:induction false} CandidateStepsLedger(p: Pass, keywords: seq<Candidate>, orders: seq<seq<string>>, original: string, strict: bool)
    requires |orders| == |keywords|
    ensures LedgerOk(p.ledger) ==>
      && LedgerOk(CandidateSteps(p, keywords, orders, original, strict).ledger)
      && Grows(p.ledger, CandidateSteps(p, keywords, orders, original, strict).ledger)
  {
    if LedgerOk(p.ledger) && |keywords| > 0 {
      var n := |keywords| - 1;
      var mid := CandidateSteps(p, keywords[..n], orders[..n], original, strict);
      CandidateStepsLedger(p, keywords[..n], orders[..n], original, strict);
      CandidateStepLedger(mid, keywords[n], orders[n], original, strict);
      GrowsTrans(p.ledger, mid.ledger, CandidateStep(mid, keywords[n], orders[n], original, strict).ledger);
    }
  }

  // ---------------------------------------------------------------------------
  // One bullet

  /** The tokens of the keywords. */
  function TokensOf(keywords: seq<Candidate>): set<string>
  {
    set c | c in keywords :: c.token
  }

  /** `{candidate.token: text.lower().count(candidate.token) for candidate in keywords}` */
  function CountsIn(text: string, keywords: seq<Candidate>): (m: map<string, nat>)
    ensures m.Keys == TokensOf(keywords)
    ensures forall c :: c in keywords ==> m[c.token] == CountOcc(LowerStr(text), c.token)
  {
    map t | t in TokensOf(keywords) :: CountOcc(LowerStr(text), t)
  }

  datatype BulletResult = BulletResult(final: string, ledger: Ledger)

  /** One bullet: the candidate loop from the bullet's own counts, then the strict
      rollback of a bullet that moved too far (the ledger is not rolled back). */
  function RewriteBullet(original: string, keywords: seq<Candidate>, orders: seq<seq<string>>, strict: bool, ledger: Ledger): (r: BulletResult)
    requires |orders| == |keywords|
    ensures strict ==> LengthChange(r.final, original) <= Budget
    ensures LedgerOk(ledger) ==> LedgerOk(r.ledger) && Grows(ledger, r.ledger)
  {
    var start := Pass(original, ledger, CountsIn(original, keywords));
    var p := CandidateSteps(start, keywords, orders, original, strict);
    var final := if strict && LengthChange(p.updated, original) > Budget then original else p.updated;
    CandidateStepsLedger(start, keywords, orders, original, strict);
    BulletResult(final, p.ledger)
  }

  /** The contents of the bullets, in order. */
  function Contents(bullets: seq<Bullet>): (cs: seq<string>)
    ensures |cs| == |bullets|
    ensures forall j :: 0 <= j < |bullets| ==> cs[j] == bullets[j].content
  {
    seq(|bullets|, j requires 0 <= j < |bullets| => bullets[j].content)
  }

  datatype PassResult = PassResult(finals: seq<string>, ledger: Ledger)

  /** The outer loop over the bullets, in order: `rewrite` takes each bullet's content
      and the ledger left by the bullets before it. */
  function Fold(contents: seq<string>, rewrite: (string, Ledger) -> BulletResult): (r: PassResult)
    ensures |r.finals| == |contents|
  {
    if |contents| == 0 then PassResult([], Ledger(map[], map[]))
    else
      var n := |contents| - 1;
      var prev := Fold(contents[..n], rewrite);
      var b := rewrite(contents[n], prev.ledger);
      PassResult(prev.finals + [b.final], b.ledger)
  }

  /** A per-bullet rewrite that keeps a sound ledger sound and growing. */
  ghost predicate KeepsLedger(rewrite: (string, Ledger) -> BulletResult)
  {
    forall c, l :: LedgerOk(l) ==> LedgerOk(rewrite(c, l).ledger) && Grows(l, rewrite(c, l).ledger)
  }

  /** A per-bullet rewrite whose result is always within the budget of its input. */
  ghost predicate KeepsBudget(rewrite: (string, Ledger) -> BulletResult)
  {
    forall c, l :: LengthChange(rewrite(c, l).final, c) <= Budget
  }

  lemma {:induction false} FoldLedger(contents: seq<string>, rewrite: (string, Ledger) -> BulletResult)
    requires KeepsLedger(rewrite)
    ensures LedgerOk(Fold(contents, rewrite).ledger)
  {
    if |contents| > 0 {
      FoldLedger(contents[..|contents| - 1], rewrite);
    }
  }

  lemma {:induction false} FoldGrows(contents: seq<string>, rewrite: (string, Ledger) -> BulletResult, k: nat)
    requires KeepsLedger(rewrite) && k <= |contents|
    ensures Grows(Fold(contents[..k], rewrite).ledger, Fold(contents, rewrite).ledger)
  {
    if k == |contents| {
      assert contents[..k] == contents;
    } else {
      var n := |contents| - 1;
      assert contents[..n][..k] == contents[..k];
      FoldGrows(contents[..n], rewrite, k);
      FoldLedger(contents[..n], rewrite);
      var prev := Fold(contents[..n], rewrite);
      GrowsTrans(Fold(contents[..k], rewrite).ledger, prev.ledger, rewrite(contents[n], prev.ledger).ledger);
    }
  }

  lemma {:induction false} FoldBudget(contents: seq<string>, rewrite: (string, Ledger) -> BulletResult)
    requires KeepsBudget(rewrite)
    ensures forall j :: 0 <= j < |contents| ==> LengthChange(Fold(contents, rewrite).finals[j], contents[j]) <= Budget
  {
    if |contents| > 0 {
      var n := |contents| - 1;
      FoldBudget(contents[..n], rewrite);
      assert forall j :: 0 <= j < n ==> contents[..n][j] == contents[j];
    }
  }

  /** The rewrite `optimize_resume` applies to each bullet. */
  function BulletRewrite(keywords: seq<Candidate>, orders: seq<seq<string>>, strict: bool): (string, Ledger) -> BulletResult
    requires |orders| == |keywords|
  {
    (original: string, ledger: Ledger) => RewriteBullet(original, keywords, orders, strict, ledger)
  }

  lemma {:induction false} BulletRewriteKeeps(keywords: seq<Candidate>, orders: seq<seq<string>>, strict: bool)
    requires |orders| == |keywords|
    ensures KeepsLedger(BulletRewrite(keywords, orders, strict))
    ensures strict ==> KeepsBudget(BulletRewrite(keywords, orders, strict))
  {
  }

  /** The outer loop of `optimize_resume` over the document's bullet contents. */
  function RewriteAll(contents: seq<string>, keywords: seq<Candidate>, orders: seq<seq<string>>, strict: bool): (r: PassResult)
    requires |orders| == |keywords|
    ensures |r.finals| == |contents|
  {
    Fold(contents, BulletRewrite(keywords, orders, strict))
  }

  lemma {:induction false} RewriteAllStep(contents: seq<string>, keywords: seq<Candidate>, orders: seq<seq<string>>, strict: bool, n: nat)
    requires |orders| == |keywords| && n < |contents|
    ensures var prev := RewriteAll(contents[..n], keywords, orders, strict);
      var b := RewriteBullet(contents[n], keywords, orders, strict, prev.ledger);
      RewriteAll(contents[..n + 1], keywords, orders, strict) == PassResult(prev.finals + [b.final], b.ledger)
  {
    assert contents[..n + 1][..n] == contents[..n];
  }

  /** No keyword receives more than two insertions over the whole document, and every
      insertion is counted in the usage ledger. */
  lemma {:induction false} AtMostTwoInsertions(contents: seq<string>, keywords: seq<Candidate>, orders: seq<seq<string>>, strict: bool, t: string)
    requires |orders| == |keywords|
    ensures var l := RewriteAll(contents, keywords, orders, strict).ledger;
      Get(l.inserted, t) <= 2 && Get(l.inserted, t) <= Get(l.usage, t)
  {
    BulletRewriteKeeps(keywords, orders, strict);
    FoldLedger(contents, BulletRewrite(keywords, orders, strict));
  }

  /** The ledger never decreases from one bullet to a later one, and once a keyword's
      entry has reached two no later bullet inserts it. */
  lemma {:induction false} CappedAfter(contents: seq<string>, keywords: seq<Candidate>, orders: seq<seq<string>>, strict: bool, k: nat)
    requires |orders| == |keywords| && k <= |contents|
    ensures Grows(RewriteAll(contents[..k], keywords, orders, strict).ledger, RewriteAll(contents, keywords, orders, strict).ledger)
  {
    BulletRewriteKeeps(keywords, orders, strict);
    FoldGrows(contents, BulletRewrite(keywords, orders, strict), k);
  }

  /** In strict mode every bullet ends within the budget of its original content. */
  lemma {:induction false} StrictWithinBudget(contents: seq<string>, keywords: seq<Candidate>, orders: seq<seq<string>>, k: nat)
    requires |orders| == |keywords| && k < |contents|
    ensures LengthChange(RewriteAll(contents, keywords, orders, true).finals[k], contents[k]) <= Budget
  {
    BulletRewriteKeeps(keywords, orders, true);
    FoldBudget(contents, BulletRewrite(keywords, orders, true));
  }

  // ---------------------------------------------------------------------------
  // Writing back

  /** The lines after `replace_bullet` has been called for every bullet whose content
      changed, in bullet order. */
  function WriteBack(lines: seq<string>, bullets: seq<Bullet>, finals: seq<string>): (r: seq<string>)
    requires |finals| == |bullets|
    requires forall j :: 0 <= j < |bullets| ==> bullets[j].lineIndex < |lines|
    ensures |r| == |lines|
  {
    if |bullets| == 0 then lines
    else
      var n := |bullets| - 1;
      var prev := WriteBack(lines, bullets[..n], finals[..n]);
      if finals[n] != bullets[n].content then prev[bullets[n].lineIndex := ItemLineText(bullets[n].leading, finals[n])]
      else prev
  }

  /** With bullets on distinct lines, a changed bullet's line holds its new item line,
      and every other line is as it was. */
  lemma {:induction false} WriteBackLines(lines: seq<string>, bullets: seq<Bullet>, finals: seq<string>)
    requires |finals| == |bullets|
    requires forall j :: 0 <= j < |bullets| ==> bullets[j].lineIndex < |lines|
    requires forall j, k :: 0 <= j < k < |bullets| ==> bullets[j].lineIndex < bullets[k].lineIndex
    ensures forall j :: 0 <= j < |bullets| && finals[j] != bullets[j].content ==>
      WriteBack(lines, bullets, finals)[bullets[j].lineIndex] == ItemLineText(bullets[j].leading, finals[j])
    ensures forall i :: 0 <= i < |lines| && (forall j :: 0 <= j < |bullets| && finals[j] != bullets[j].content ==> bullets[j].lineIndex != i) ==>
      WriteBack(lines, bullets, finals)[i] == lines[i]
  {
    if |bullets| > 0 {
      var n := |bullets| - 1;
      WriteBackLines(lines, bullets[..n], finals[..n]);
    }
  }

  // ---------------------------------------------------------------------------
  // optimize_resume

  datatype KeywordCounts = KeywordCounts(before: nat, after: nat)

  /** `RewriteResult` without the unified diff. */
  datatype RewriteResult = RewriteResult(optimizedTex: string, keywordMap: map<string, KeywordCounts>)

  /** The lines of the optimised document. */
  function OptimizedLines(tex: string, keywords: seq<Candidate>, orders: seq<seq<string>>, strict: bool): (r: seq<string>)
    requires |orders| == |keywords|
    ensures |r| == |SplitLines(tex)|
  {
    var lines := SplitLines(tex);
    var bullets := ParsedBullets(lines);
    BulletsFromLines(Kinds(lines));
    WriteBack(lines, bullets, RewriteAll(Contents(bullets), keywords, orders, strict).finals)
  }

  /** `keyword_map`: the lower-case counts of every keyword token in the original and in
      the optimised text. */
  function KeywordMap(before: string, after: string, keywords: seq<Candidate>): (m: map<string, KeywordCounts>)
    ensures m.Keys == TokensOf(keywords)
    ensures forall c :: c in keywords ==>
      m[c.token] == KeywordCounts(CountOcc(LowerStr(before), c.token), CountOcc(LowerStr(after), c.token))
  {
    map t | t in TokensOf(keywords) :: KeywordCounts(CountOcc(LowerStr(before), t), CountOcc(LowerStr(after), t))
  }

  lemma {:induction false} KeywordMapOfCounts(before: string, after: string, keywords: seq<Candidate>)
    ensures (map t | t in TokensOf(keywords) :: KeywordCounts(CountsIn(before, keywords)[t], CountsIn(after, keywords)[t]))
      == KeywordMap(before, after, keywords)
  {
    var m := map t | t in TokensOf(keywords) :: KeywordCounts(CountsIn(before, keywords)[t], CountsIn(after, keywords)[t]);
    var k := KeywordMap(before, after, keywords);
    assert m.Keys == k.Keys;
    forall t | t in m ensures m[t] == k[t] {
    }
  }

  /** A bullet whose rewritten content equals the original is not written back; when no
      bullet changes, the optimised text is the original lines joined again. */
  lemma {:induction false} UnchangedBulletsKeepLines(tex: string, keywords: seq<Candidate>, orders: seq<seq<string>>, strict: bool)
    requires |orders| == |keywords|
    ensures var lines := SplitLines(tex);
      var bullets := ParsedBullets(lines);
      var finals := RewriteAll(Contents(bullets), keywords, orders, strict).finals;
      forall i :: (0 <= i < |lines| &&
        (forall j :: 0 <= j < |bullets| && finals[j] != bullets[j].content ==> bullets[j].lineIndex != i)) ==>
        OptimizedLines(tex, keywords, orders, strict)[i] == lines[i]
  {
    var lines := SplitLines(tex);
    BulletsFromLines(Kinds(lines));
    BulletsInOrder(Kinds(lines));
    var bullets := ParsedBullets(lines);
    WriteBackLines(lines, bullets, RewriteAll(Contents(bullets), keywords, orders, strict).finals);
  }

  /** A changed bullet's line becomes its leading whitespace, `\item ` and the new content. */
  lemma {:induction false} ChangedBulletLines(tex: string, keywords: seq<Candidate>, orders: seq<seq<string>>, strict: bool)
    requires |orders| == |keywords|
    ensures var lines := SplitLines(tex);
      var bullets := ParsedBullets(lines);
      var finals := RewriteAll(Contents(bullets), keywords, orders, strict).finals;
      forall j :: 0 <= j < |bullets| && finals[j] != bullets[j].content ==>
        && bullets[j].lineIndex < |lines|
        && OptimizedLines(tex, keywords, orders, strict)[bullets[j].lineIndex] == ItemLineText(bullets[j].leading, finals[j])
  {
    var lines := SplitLines(tex);
    BulletsFromLines(Kinds(lines));
    BulletsInOrder(Kinds(lines));
    var bullets := ParsedBullets(lines);
    WriteBackLines(lines, bullets, RewriteAll(Contents(bullets), keywords, orders, strict).finals);
  }

  /** The synonym search of the inner loop: the first synonym whose substitution is taken. */
  method TrySynonyms(updated: string, original: string, order: seq<string>, token: string, strict: bool) returns (r: Option<string>)
    ensures r == FirstReplacement(updated, original, order, token, strict)
  {
    r := None;
    for i := 0 to |order|
      invariant FirstReplacement(updated, original, order, token, strict) == FirstReplacement(updated, original, order[i..], token, strict)
    {
      assert order[i..][1..] == order[i + 1..];
      var (newText, success) := ReplaceSynonym(updated, order[i], token);
      if success {
        if strict && LengthChange(newText, original) > Budget {
          continue;
        }
        r := Some(newText);
        return;
      }
    }
  }

  /** The inner loop of `optimize_resume` for one bullet, with its strict rollback. */
  method RewriteBulletContent(original: string, keywords: seq<Candidate>, orders: seq<seq<string>>, strict: bool,
                              usage: map<string, nat>, ghost inserted: map<string, nat>)
    returns (final: string, newUsage: map<string, nat>, ghost newInserted: map<string, nat>)
    requires |orders| == |keywords|
    ensures BulletResult(final, Ledger(newUsage, newInserted)) == RewriteBullet(original, keywords, orders, strict, Ledger(usage, inserted))
  {
    var updated := original;
    newUsage := usage;
    newInserted := inserted;
    var perBullet := CountsIn(updated, keywords);
    ghost var start := Pass(original, Ledger(usage, inserted), perBullet);
    for i := 0 to |keywords|
      invariant Pass(updated, Ledger(newUsage, newInserted), perBullet) == CandidateSteps(start, keywords[..i], orders[..i], original, strict)
    {
      assert keywords[..i + 1][..i] == keywords[..i];
      assert orders[..i + 1][..i] == orders[..i];
      var token := keywords[i].token;
      if Get(newUsage, token) >= 2 {
        continue;
      }
      if Get(perBullet, token) >= 1 {
        newUsage := Add(newUsage, token, Get(perBullet, token));
        continue;
      }
      var replacement := TrySynonyms(updated, original, orders[i], token, strict);
      if replacement.Some? {
        updated := replacement.value;
        newUsage := Add(newUsage, token, 1);
        perBullet := Add(perBullet, token, 1);
        newInserted := Add(newInserted, token, 1);
        continue;
      }
      if !strict && Get(newUsage, token) < 2 {
        updated := updated + Addition(token);
        newUsage := Add(newUsage, token, 1);
        perBullet := Add(perBullet, token, 1);
        newInserted := Add(newInserted, token, 1);
      }
    }
    assert keywords[..|keywords|] == keywords && orders[..|orders|] == orders;
    if strict && LengthChange(updated, original) > Budget {
      updated := original;
    }
    final := updated;
  }

  /** One more bullet written back. */
  lemma {:induction false} WriteBackStep(lines: seq<string>, bullets: seq<Bullet>, finals: seq<string>, final: string)
    requires |finals| < |bullets|
    requires forall j :: 0 <= j < |bullets| ==> bullets[j].lineIndex < |lines|
    ensures var n := |finals|;
      var prev := WriteBack(lines, bullets[..n], finals);
      WriteBack(lines, bullets[..n + 1], finals + [final]) ==
        if final != bullets[n].content then prev[bullets[n].lineIndex := ItemLineText(bullets[n].leading, final)] else prev
  {
    var n := |finals|;
    var bs := bullets[..n + 1];
    var fs := finals + [final];
    assert bs[..n] == bullets[..n] && fs[..n] == finals;
    assert bs[n] == bullets[n] && fs[n] == final;
  }

  /** One iteration of the outer loop of `optimize_resume`: bullet `idx` is rewritten with
      the shared ledger and written back with `replace_bullet` when its content changed. */
  method RewriteBulletAt(document: Document, idx: nat, keywords: seq<Candidate>, orders: seq<seq<string>>, strict: bool,
                         usage: map<string, nat>, ghost inserted: map<string, nat>)
    returns (newUsage: map<string, nat>, ghost newInserted: map<string, nat>, ghost final: string)
    requires |orders| == |keywords|
    requires idx < |document.bullets| && document.bullets[idx].lineIndex < |document.lines|
    modifies document
    ensures BulletResult(final, Ledger(newUsage, newInserted)) ==
      RewriteBullet(old(document.bullets[idx].content), keywords, orders, strict, Ledger(usage, inserted))
    ensures var b := old(document.bullets[idx]);
      document.lines == if final != b.content then old(document.lines)[b.lineIndex := ItemLineText(b.leading, final)] else old(document.lines)
    ensures |document.bullets| == old(|document.bullets|)
    ensures forall j :: 0 <= j < |document.bullets| && j != idx ==> document.bullets[j] == old(document.bullets[j])
  {
    var original := document.bullets[idx].content;
    var updated;
    updated, newUsage, newInserted := RewriteBulletContent(original, keywords, orders, strict, usage, inserted);
    if updated != original {
      document.ReplaceBullet(idx, updated);
    }
    final := updated;
  }

  /** The outer loop of `optimize_resume`: every bullet is rewritten in order with the
      shared ledger, and a bullet whose content changed is written back with
      `replace_bullet`. */
  method RewriteDocument(document: Document, keywords: seq<Candidate>, orders: seq<seq<string>>, strict: bool)
    requires |orders| == |keywords|
    requires forall j :: 0 <= j < |document.bullets| ==> document.bullets[j].lineIndex < |document.lines|
    modifies document
    ensures document.lines ==
      WriteBack(old(document.lines), old(document.bullets), RewriteAll(Contents(old(document.bullets)), keywords, orders, strict).finals)
  {
    var usage: map<string, nat> := map[];
    ghost var inserted: map<string, nat> := map[];
    ghost var finals: seq<string> := [];
    ghost var lines := document.lines;
    ghost var bullets := document.bullets;
    ghost var contents := Contents(bullets);
    for idx := 0 to |document.bullets|
      invariant |document.bullets| == |bullets| && |document.lines| == |lines|
      invariant forall j :: idx <= j < |bullets| ==> document.bullets[j] == bullets[j]
      invariant RewriteAll(contents[..idx], keywords, orders, strict) == PassResult(finals, Ledger(usage, inserted))
      invariant document.lines == WriteBack(lines, bullets[..idx], finals)
    {
      RewriteAllStep(contents, keywords, orders, strict, idx);
      WriteBackStep(lines, bullets, finals, RewriteAll(contents[..idx + 1], keywords, orders, strict).finals[idx]);
      ghost var final;
      usage, inserted, final := RewriteBulletAt(document, idx, keywords, orders, strict, usage, inserted);
      finals := finals + [final];
    }
    assert contents[..|bullets|] == contents && bullets[..|bullets|] == bullets;
  }

  /** `optimize_resume`, without the unified diff. The order in which each keyword's
      synonym set is tried is given by `orders`. */
  method OptimizeResume(texContent: string, keywords: seq<Candidate>, strict: bool := false, orders: seq<seq<string>>)
    returns (result: RewriteResult)
    requires |orders| == |keywords|
    requires forall i :: 0 <= i < |keywords| ==> Enumerates(orders[i], SynonymsToTry(keywords[i]))
    ensures result.optimizedTex == Join(OptimizedLines(texContent, keywords, orders, strict), "\n")
    ensures result.keywordMap == KeywordMap(texContent, result.optimizedTex, keywords)
  {
    var document := ParseDocument(texContent);
    var beforeCounts := CountsIn(texContent, keywords);
    BulletsFromLines(Kinds(document.lines));
    BulletsInOrder(Kinds(document.lines));
    RewriteDocument(document, keywords, orders, strict);
    var optimizedTex := document.Render();
    var afterCounts := CountsIn(optimizedTex, keywords);
    var keywordMap := map t | t in TokensOf(keywords) :: KeywordCounts(beforeCounts[t], afterCounts[t]);
    KeywordMapOfCounts(texContent, optimizedTex, keywords);
    result := RewriteResult(optimizedTex, keywordMap);
  }
}
