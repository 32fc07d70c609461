/** `main` in eval_verb_accuracy.py: pick the spaCy model for the language, build the
    lexicon and the gold forms, then score the candidate lines. */
module Driver {
  import opened Errors
  import opened Tokens
  import opened Lexicon
  import opened Gold
  import opened Corrections
  import opened Scoring
  import opened Text

  /** What one run of the script ends with. */
  datatype Report =
    | Unsupported                 // the notice for a language other than "en" and "de"; nothing is scored
    | Failed(error: Error)        // an exception that ends the run
    | Scored(lang: string, correct: nat, total: nat, accuracy: real)   // the printed accuracy line

  /** The spaCy pipeline `main` loads for a language; only English and German have one. */
  function ModelName(lang: string): (name: Option<string>)
    ensures name.Some? <==> lang == "en" || lang == "de"
    ensures lang == "en" ==> name == Some("en_core_news_sm")
    ensures lang == "de" ==> name == Some("de_core_news_sm")
  {
    if lang == "en" then Some("en_core_news_sm")
    else if lang == "de" then Some("de_core_news_sm")
    else None
  }

  /** What a run with a supported language computes: the lexicon, then the gold forms, then the
      count over the aligned lines and the percentage, stopping at the first failure. */
  function Evaluate(input: seq<string>, queryRows: seq<Row>, images: seq<string>, lang: string,
                    spacyModel: Lemmatizer): Report
  {
    match BuildLexicon(queryRows, lang)
    case Err(e) => Failed(e)
    case Ok(queryTrans) =>
      match GoldForms(images, queryTrans, spacyModel)
      case Err(e) => Failed(e)
      case Ok(gold) =>
        var correct := CountCorrect(input, gold, lang, spacyModel, CorrectionTable, Aligned(input, gold, images));
        match Percentage(correct, |input|)
        case Err(e) => Failed(e)
        case Ok(accuracy) => Scored(lang, correct, |input|, accuracy)
  }

  /** `main(input, query_dict, images, lang)` over the lines of the candidate file, the rows of
      the query CSV and the lines of the images file; `load` stands for `spacy.load`. */
  method Run(input: seq<string>, queryRows: seq<Row>, images: seq<string>, lang: string,
             load: string -> Lemmatizer) returns (report: Report)
    ensures lang != "en" && lang != "de" ==> report == Unsupported
    ensures ModelName(lang).Some? ==> report == Evaluate(input, queryRows, images, lang, load(ModelName(lang).value))
    ensures report.Scored? ==> report.lang == lang && report.total == |input| > 0
    ensures report.Scored? ==> report.correct <= report.total && 0.0 <= report.accuracy <= 100.0
  {
    var spacyLang: string;
    if lang == "en" {
      spacyLang := "en_core_news_sm";
    } else if lang == "de" {
      spacyLang := "de_core_news_sm";
    } else {
      return Unsupported;
    }
    var spacyModel := load(spacyLang);
    var queryTransDict := LoadQueryTransDict(queryRows, lang);
    if queryTransDict.Err? {
      return Failed(queryTransDict.error);
    }
    var goldLemmaForms := LoadGoldLemmas(images, queryTransDict.value, spacyModel);
    if goldLemmaForms.Err? {
      return Failed(goldLemmaForms.error);
    }
    var correct, total, accuracy := EvalVerbAccuracy(input, goldLemmaForms.value, lang, images, spacyModel);
    if accuracy.Err? {
      return Failed(accuracy.error);
    }
    return Scored(lang, correct, total, accuracy.value);
  }

  /** A run that gets past the lexicon and the gold forms fails with a division error exactly
      when there are no candidate lines. */
  lemma EmptyInputFails(input: seq<string>, queryRows: seq<Row>, images: seq<string>, lang: string,
                        spacyModel: Lemmatizer)
    requires BuildLexicon(queryRows, lang).Ok?
    requires GoldForms(images, BuildLexicon(queryRows, lang).value, spacyModel).Ok?
    ensures Evaluate(input, queryRows, images, lang, spacyModel) == Failed(ZeroDivisionError) <==> |input| == 0
    ensures Evaluate(input, queryRows, images, lang, spacyModel).Scored? <==> |input| > 0
  {
  }

  /** A run over one query row, one image line and one candidate line, in English: when the
      image line's key is the row's stripped query, the row's verb lemmatizes to at least one
      token and the candidate line matches that verb, the run scores one out of one, 100 percent. */
  lemma SingleLineRun(row: Row, image: string, line: string, spacyModel: Lemmatizer)
    requires QueryColumn in row && "verb" in row
    requires QueryKey(image) == QueryOf(row)
    requires spacyModel(Strip(row["verb"])) != []
    requires LineCorrect(line, Strip(row["verb"]), "en", spacyModel, CorrectionTable)
    ensures Evaluate([line], [row], [image], "en", spacyModel) == Scored("en", 1, 1, 100.0)
  {
    assert [row][..0] == [];
    var lexicon := map[QueryOf(row) := Strip(row["verb"])];
    assert BuildLexicon([row], "en") == Ok(lexicon);
    var names := [image];
    GoldFormsResolved(names, lexicon, spacyModel);
    var gold: seq<string> := [Strip(row["verb"])];
    assert GoldForms(names, lexicon, spacyModel).value == gold;
    assert GoldForms(names, lexicon, spacyModel) == Ok(gold);
  }
}
