/** Scoring candidate translations against the gold forms, `eval_verb_accuracy` in
    eval_verb_accuracy.py. */
module Scoring {
  import opened Errors
  import opened Text
  import opened Tokens
  import opened Corrections

  /** The test on line 98: the token is a VERB whose lemma is the gold form, or, for German
      only, the gold form ends with the token's lemma whatever the token's tag. */
  predicate Matches(token: Token, gold: string, lang: string)
    ensures lang == "de" ==> (Matches(token, gold, lang) <==> EndsWith(gold, token.lemmaForm))
    ensures lang != "de" ==> (Matches(token, gold, lang) <==> token.pos == VerbTag && token.lemmaForm == gold)
  {
    (token.lemmaForm == gold && token.pos == VerbTag) || (lang == "de" && EndsWith(gold, token.lemmaForm))
  }

  /** Under the German rule a token with an empty lemma matches every gold form, and the tag
      plays no part. */
  lemma EmptyLemmaMatchesInGerman(pos: string, gold: string)
    ensures Matches(Token("", pos), gold, "de")
  {
  }

  /** Scanning the document from the front finds a matching token. */
  predicate DocMatches(doc: seq<Token>, gold: string, lang: string)
  {
    doc != [] && (Matches(doc[0], gold, lang) || DocMatches(doc[1..], gold, lang))
  }

  /** A document matches exactly when one of its tokens does. */
  lemma {:induction false} DocMatchesSomeToken(doc: seq<Token>, gold: string, lang: string)
    ensures DocMatches(doc, gold, lang) <==> exists k :: 0 <= k < |doc| && Matches(doc[k], gold, lang)
  {
    if doc != [] {
      DocMatchesSomeToken(doc[1..], gold, lang);
      if exists k :: 0 <= k < |doc[1..]| && Matches(doc[1..][k], gold, lang) {
        var k :| 0 <= k < |doc[1..]| && Matches(doc[1..][k], gold, lang);
        assert Matches(doc[k + 1], gold, lang);
      }
      if exists k :: 0 <= k < |doc| && Matches(doc[k], gold, lang) {
        var k :| 0 <= k < |doc| && Matches(doc[k], gold, lang);
        if k > 0 {
          assert Matches(doc[1..][k - 1], gold, lang);
        }
      }
    }
  }

  /** A candidate line counts as correct: with its newlines removed, lemmatized and tidied
      with `corrections`, one of its tokens matches the gold form. */
  predicate LineCorrect(line: string, gold: string, lang: string, spacyModel: Lemmatizer, corrections: map<string, string>) {
    DocMatches(Tidied(spacyModel(RemoveChar(line, '\n')), corrections), gold, lang)
  }

  /** A line is correct exactly when some token of its lemmatization, newlines removed and
      tidied, matches the gold form. */
  lemma LineCorrectSomeToken(line: string, gold: string, lang: string, spacyModel: Lemmatizer,
                             corrections: map<string, string>)
    ensures LineCorrect(line, gold, lang, spacyModel, corrections) <==>
      exists k :: 0 <= k < |Tidied(spacyModel(RemoveChar(line, '\n')), corrections)| &&
        Matches(Tidied(spacyModel(RemoveChar(line, '\n')), corrections)[k], gold, lang)
  {
    var doc := Tidied(spacyModel(RemoveChar(line, '\n')), corrections);
    assert LineCorrect(line, gold, lang, spacyModel, corrections) == DocMatches(doc, gold, lang);
    DocMatchesSomeToken(doc, gold, lang);
  }

  /** How many of the first `n` candidate lines count as correct. */
  function CountCorrect(data: seq<string>, gold: seq<string>, lang: string, spacyModel: Lemmatizer,
                        corrections: map<string, string>, n: nat): (count: nat)
    requires n <= |data| && n <= |gold|
    ensures count <= n
  {
    if n == 0 then 0
    else CountCorrect(data, gold, lang, spacyModel, corrections, n - 1)
         + (if LineCorrect(data[n - 1], gold[n - 1], lang, spacyModel, corrections) then 1 else 0)
  }

  /** `zip` stops at the shortest of the three sequences. */
  function Aligned(data: seq<string>, gold: seq<string>, images: seq<string>): (n: nat)
    ensures n <= |data| && n <= |gold| && n <= |images|
    ensures n == |data| || n == |gold| || n == |images|
  {
    if |data| <= |gold| && |data| <= |images| then |data|
    else if |gold| <= |images| then |gold|
    else |images|
  }

  /** `100*(correct/total)`, exactly: a division error when there are no candidate lines. */
  function Percentage(correct: nat, total: nat): (r: Result<real>)
    ensures r.Err? <==> total == 0
    ensures r.Err? ==> r.error == ZeroDivisionError
    ensures r.Ok? ==> r.value * total as real == 100.0 * correct as real
    ensures r.Ok? && correct <= total ==> 0.0 <= r.value <= 100.0
  {
    if total == 0 then Err(ZeroDivisionError)
    else Ok(100.0 * (correct as real / total as real))
  }

  /** Applying the spaCy model to a text yields a new document holding the model's tokens. */
  method NewDoc(spacyModel: Lemmatizer, text: string) returns (doc: array<Token>)
    ensures fresh(doc)
    ensures doc[..] == spacyModel(text)
  {
    var tokens := spacyModel(text);
    doc := new Token[|tokens|](k requires 0 <= k < |tokens| => tokens[k]);
  }

  /** `eval_verb_accuracy` on the candidate lines `infile`, the gold forms, the target
      language and the lines of the images file. Each aligned line adds at most one to
      `correct`; `total` counts every candidate line, aligned or not. */
  method EvalVerbAccuracy(infile: seq<string>, goldLemmaForms: seq<string>, lang: string,
                          images: seq<string>, spacyModel: Lemmatizer)
    returns (correct: nat, total: nat, accuracy: Result<real>)
    ensures total == |infile|
    ensures correct == CountCorrect(infile, goldLemmaForms, lang, spacyModel, CorrectionTable,
                                    Aligned(infile, goldLemmaForms, images))
    ensures correct <= Aligned(infile, goldLemmaForms, images) <= total
    ensures accuracy == Percentage(correct, total)
  {
    var data := infile;
    correct := 0;
    total := |data|;
    var found := false;
    var imageNames := images;
    var corrections := CreateCorrectionDict();
    var n := Aligned(data, goldLemmaForms, imageNames);
    for i := 0 to n
      invariant correct == CountCorrect(data, goldLemmaForms, lang, spacyModel, corrections, i)
      invariant !found
    {
      var gold := goldLemmaForms[i];
      var line := RemoveChar(data[i], '\n');
      var doc := NewDoc(spacyModel, line);
      TidyLemmatization(doc, corrections);
      ghost var lineCorrect := LineCorrect(data[i], gold, lang, spacyModel, corrections);
      assert lineCorrect == DocMatches(doc[..], gold, lang);
      ghost var before := correct;
      var j := 0;
      while j < doc.Length
        invariant 0 <= j <= doc.Length
        invariant DocMatches(doc[..], gold, lang) <==> DocMatches(doc[j..], gold, lang)
        invariant correct == before
        invariant !found
      {
        assert doc[j..][1..] == doc[j + 1..];
        if Matches(doc[j], gold, lang) {
          correct := correct + 1;
          found := true;
          break;
        }
        j := j + 1;
      }
      assert found == lineCorrect;
      CountCorrectStep(data, goldLemmaForms, lang, spacyModel, corrections, i);
      // the diagnostic print for a line without a match is left out
      found := false;
    }
    accuracy := Percentage(correct, total);
  }

  /** One more line adds one to the count when it is correct and nothing otherwise. */
  lemma CountCorrectStep(data: seq<string>, gold: seq<string>, lang: string, spacyModel: Lemmatizer,
                         corrections: map<string, string>, i: nat)
    requires i < |data| && i < |gold|
    ensures CountCorrect(data, gold, lang, spacyModel, corrections, i + 1)
         == CountCorrect(data, gold, lang, spacyModel, corrections, i)
            + (if LineCorrect(data[i], gold[i], lang, spacyModel, corrections) then 1 else 0)
  {
  }

  /** The count reaches `n` exactly when every one of the first `n` lines is correct. */
  lemma {:induction false} AllCorrectIff(data: seq<string>, gold: seq<string>, lang: string, spacyModel: Lemmatizer,
                                         corrections: map<string, string>, n: nat)
    requires n <= |data| && n <= |gold|
    ensures CountCorrect(data, gold, lang, spacyModel, corrections, n) == n
        <==> forall i :: 0 <= i < n ==> LineCorrect(data[i], gold[i], lang, spacyModel, corrections)
  {
    if n > 0 {
      AllCorrectIff(data, gold, lang, spacyModel, corrections, n - 1);
    }
  }

  /** The count is zero exactly when none of the first `n` lines is correct. */
  lemma {:induction false} NoneCorrectIff(data: seq<string>, gold: seq<string>, lang: string, spacyModel: Lemmatizer,
                                          corrections: map<string, string>, n: nat)
    requires n <= |data| && n <= |gold|
    ensures CountCorrect(data, gold, lang, spacyModel, corrections, n) == 0
        <==> forall i :: 0 <= i < n ==> !LineCorrect(data[i], gold[i], lang, spacyModel, corrections)
  {
    if n > 0 {
      NoneCorrectIff(data, gold, lang, spacyModel, corrections, n - 1);
    }
  }

  /** With three sequences of one nonzero length and every line correct, the accuracy is 100. */
  lemma PerfectScore(data: seq<string>, gold: seq<string>, images: seq<string>, lang: string, spacyModel: Lemmatizer)
    requires |data| == |gold| == |images| > 0
    requires forall i :: 0 <= i < |data| ==> LineCorrect(data[i], gold[i], lang, spacyModel, CorrectionTable)
    ensures Percentage(CountCorrect(data, gold, lang, spacyModel, CorrectionTable, Aligned(data, gold, images)), |data|)
         == Ok(100.0)
  {
    AllCorrectIff(data, gold, lang, spacyModel, CorrectionTable, |data|);
    assert |data| as real / |data| as real == 1.0;
  }

  /** With at least one candidate line and no aligned line correct, the accuracy is 0. */
  lemma ZeroScore(data: seq<string>, gold: seq<string>, images: seq<string>, lang: string, spacyModel: Lemmatizer)
    requires |data| > 0
    requires forall i :: 0 <= i < Aligned(data, gold, images) ==>
      !LineCorrect(data[i], gold[i], lang, spacyModel, CorrectionTable)
    ensures Percentage(CountCorrect(data, gold, lang, spacyModel, CorrectionTable, Aligned(data, gold, images)), |data|)
         == Ok(0.0)
  {
    NoneCorrectIff(data, gold, lang, spacyModel, CorrectionTable, Aligned(data, gold, images));
  }

  /** Candidate lines beyond the gold forms or the image names are never scored but still
      count in the total, so the accuracy stays below 100. */
  lemma UnalignedLinesCountAsWrong(data: seq<string>, gold: seq<string>, images: seq<string>, lang: string,
                                   spacyModel: Lemmatizer)
    requires |gold| < |data| || |images| < |data|
    ensures Percentage(CountCorrect(data, gold, lang, spacyModel, CorrectionTable, Aligned(data, gold, images)), |data|).Ok?
    ensures Percentage(CountCorrect(data, gold, lang, spacyModel, CorrectionTable, Aligned(data, gold, images)), |data|).value
          < 100.0
  {
  }

  /** The correction on "fällt" decides a line: a VERB token lemmatized to "fällt" matches
      the gold form "fallen" once tidied, in either language, and does not match untidied. */
  lemma CorrectionDecidesMatch(lang: string)
    ensures Matches(Tidied([Token("fällt", VerbTag)], CorrectionTable)[0], "fallen", lang)
    ensures !Matches(Token("fällt", VerbTag), "fallen", lang)
  {
  }

  /** The suffix rule compares whole suffixes: "springt" does not end with "spring", so the
      lemma "spring" does not match the gold form "springt" even in German. */
  lemma SuffixRuleIsNotSubstring(pos: string)
    ensures !Matches(Token("spring", pos), "springt", "de")
  {
  }
}
