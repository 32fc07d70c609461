/** The query -> gold verb lexicon, `load_query_trans_dict` in eval_verb_accuracy.py. */
module Lexicon {
  import opened Errors
  import opened Text

  /** One CSV record as `csv.DictReader` yields it: column name -> cell text. */
  type Row = map<string, string>

  const QueryColumn := "query"

  /** The column the lexicon records for a target language: `verb` for English,
      `verb_translation` for German, none for any other language. */
  function TargetColumn(lang: string): (col: Option<string>)
    ensures lang == "en" <==> col == Some("verb")
    ensures lang == "de" <==> col == Some("verb_translation")
    ensures col.None? <==> lang != "en" && lang != "de"
  {
    if lang == "en" then Some("verb")
    else if lang == "de" then Some("verb_translation")
    else None
  }

  /** The first column the loop body reads from `row` that is not there, if any: the query
      column is read for every language, the target column only for English and German. */
  function MissingColumn(row: Row, lang: string): Option<string>
  {
    if QueryColumn !in row then Some(QueryColumn)
    else match TargetColumn(lang)
      case Some(col) => if col in row then None else Some(col)
      case None => None
  }

  /** Every row has every column the loop body reads from it. */
  predicate AllRowsReadable(rows: seq<Row>, lang: string) {
    forall i :: 0 <= i < |rows| ==> MissingColumn(rows[i], lang).None?
  }

  /** The stripped query of a row. */
  function QueryOf(row: Row): string
    requires QueryColumn in row
  {
    Strip(row[QueryColumn])
  }

  /** One pass of the loop body on `dict`. */
  function AddRow(dict: map<string, string>, row: Row, lang: string): Result<map<string, string>>
  {
    if QueryColumn !in row then Err(KeyError(QueryColumn))
    else match TargetColumn(lang)
      case None => Ok(dict)
      case Some(col) =>
        if col !in row then Err(KeyError(col))
        else Ok(dict[QueryOf(row) := Strip(row[col])])
  }

  /** One pass of the loop body fails exactly when the row lacks a column it is read for, with
      a KeyError naming that column; otherwise it sets the stripped query to the stripped
      target-language verb, or, for another language, leaves the lexicon as it is. */
  lemma AddRowOutcome(dict: map<string, string>, row: Row, lang: string)
    ensures AddRow(dict, row, lang).Err? <==> MissingColumn(row, lang).Some?
    ensures AddRow(dict, row, lang).Err? ==> AddRow(dict, row, lang).error == KeyError(MissingColumn(row, lang).value)
    ensures AddRow(dict, row, lang).Ok? && TargetColumn(lang).None? ==> AddRow(dict, row, lang).value == dict
    ensures AddRow(dict, row, lang).Ok? && TargetColumn(lang).Some? ==>
      AddRow(dict, row, lang).value == dict[Strip(row[QueryColumn]) := Strip(row[TargetColumn(lang).value])]
  {
  }

  /** The lexicon the loop has built after reading `rows`, in order; the first failing row
      ends it with that row's error. */
  function BuildLexicon(rows: seq<Row>, lang: string): Result<map<string, string>>
    decreases |rows|
  {
    if rows == [] then Ok(map[])
    else match BuildLexicon(rows[..|rows| - 1], lang)
      case Err(e) => Err(e)
      case Ok(dict) => AddRow(dict, rows[|rows| - 1], lang)
  }

  /** `load_query_trans_dict` over already-parsed rows: insert stripped query -> stripped
      target-language verb, row by row. */
  method LoadQueryTransDict(rows: seq<Row>, lang: string) returns (r: Result<map<string, string>>)
    ensures r == BuildLexicon(rows, lang)
  {
    var queryTransDict: map<string, string> := map[];
    for i := 0 to |rows|
      invariant BuildLexicon(rows[..i], lang) == Ok(queryTransDict)
    {
      assert rows[..i + 1][..i] == rows[..i];
      var row := rows[i];
      if QueryColumn !in row {
        LexiconErrorPersists(rows, lang, i + 1);
        return Err(KeyError(QueryColumn));
      }
      var query := Strip(row[QueryColumn]);
      if lang == "en" {
        if "verb" !in row {
          LexiconErrorPersists(rows, lang, i + 1);
          return Err(KeyError("verb"));
        }
        queryTransDict := queryTransDict[query := Strip(row["verb"])];
      } else if lang == "de" {
        if "verb_translation" !in row {
          LexiconErrorPersists(rows, lang, i + 1);
          return Err(KeyError("verb_translation"));
        }
        queryTransDict := queryTransDict[query := Strip(row["verb_translation"])];
      }
    }
    assert rows[..|rows|] == rows;
    return Ok(queryTransDict);
  }

  /** Once a prefix of the rows has failed, reading more rows keeps that error. */
  lemma {:induction false} LexiconErrorPersists(rows: seq<Row>, lang: string, k: nat)
    requires k <= |rows|
    requires BuildLexicon(rows[..k], lang).Err?
    ensures BuildLexicon(rows, lang) == BuildLexicon(rows[..k], lang)
    decreases |rows|
  {
    if k == |rows| {
      assert rows[..k] == rows;
    } else {
      var front := rows[..|rows| - 1];
      assert front[..k] == rows[..k];
      LexiconErrorPersists(front, lang, k);
    }
  }

  /** Rows that all have the columns read from them never fail. */
  lemma {:induction false} LexiconSucceeds(rows: seq<Row>, lang: string)
    requires AllRowsReadable(rows, lang)
    ensures BuildLexicon(rows, lang).Ok?
    decreases |rows|
  {
    if rows != [] {
      var front := rows[..|rows| - 1];
      assert AllRowsReadable(front, lang) by {
        forall i | 0 <= i < |front| ensures MissingColumn(front[i], lang).None? {
          assert front[i] == rows[i];
        }
      }
      LexiconSucceeds(front, lang);
    }
  }

  /** The first row that lacks a column it is read for fails the whole load with a KeyError
      naming that column. */
  lemma {:induction false} LexiconFailsAtFirstBadRow(rows: seq<Row>, lang: string, i: nat)
    requires i < |rows|
    requires MissingColumn(rows[i], lang).Some?
    requires forall j :: 0 <= j < i ==> MissingColumn(rows[j], lang).None?
    ensures BuildLexicon(rows, lang) == Err(KeyError(MissingColumn(rows[i], lang).value))
  {
    var front := rows[..i];
    assert AllRowsReadable(front, lang) by {
      forall j | 0 <= j < |front| ensures MissingColumn(front[j], lang).None? {
        assert front[j] == rows[j];
      }
    }
    LexiconSucceeds(front, lang);
    assert rows[..i + 1][..i] == front;
    LexiconErrorPersists(rows, lang, i + 1);
  }

  /** The stripped queries of the rows, in row order. */
  function Queries(rows: seq<Row>): (qs: seq<string>)
    requires forall i :: 0 <= i < |rows| ==> QueryColumn in rows[i]
    ensures |qs| == |rows|
    decreases |rows|
  {
    if rows == [] then []
    else Queries(rows[..|rows| - 1]) + [QueryOf(rows[|rows| - 1])]
  }

  /** For English and German, a stripped query is a key of the lexicon exactly when some row
      carries it. */
  lemma {:induction false} LexiconKeys(rows: seq<Row>, lang: string)
    requires TargetColumn(lang).Some?
    requires AllRowsReadable(rows, lang)
    ensures BuildLexicon(rows, lang).Ok?
    ensures BuildLexicon(rows, lang).value.Keys == set q | q in Queries(rows)
    decreases |rows|
  {
    LexiconSucceeds(rows, lang);
    if rows != [] {
      var front := rows[..|rows| - 1];
      assert AllRowsReadable(front, lang) by {
        forall i | 0 <= i < |front| ensures MissingColumn(front[i], lang).None? {
          assert front[i] == rows[i];
        }
      }
      LexiconKeys(front, lang);
      assert Queries(rows) == Queries(front) + [QueryOf(rows[|rows| - 1])];
    }
  }

  /** For English and German, when several rows share a stripped query the lexicon keeps the
      target-language verb of the LAST of them. */
  lemma {:induction false} LexiconLastRowWins(rows: seq<Row>, lang: string, i: nat)
    requires TargetColumn(lang).Some?
    requires AllRowsReadable(rows, lang)
    requires i < |rows|
    requires forall j :: i < j < |rows| ==> QueryOf(rows[j]) != QueryOf(rows[i])
    ensures BuildLexicon(rows, lang).Ok?
    ensures QueryOf(rows[i]) in BuildLexicon(rows, lang).value
    ensures BuildLexicon(rows, lang).value[QueryOf(rows[i])] == Strip(rows[i][TargetColumn(lang).value])
    decreases |rows|
  {
    var front := rows[..|rows| - 1];
    LexiconStep(rows, lang);
    if i < |rows| - 1 {
      assert front[i] == rows[i];
      assert forall j :: i < j < |front| ==> front[j] == rows[j];
      LexiconLastRowWins(front, lang, i);
    }
  }

  /** For English and German and rows that all have both columns, the lexicon of the rows is
      the lexicon of all rows but the last, with the last row's query set to its verb. */
  lemma LexiconStep(rows: seq<Row>, lang: string)
    requires TargetColumn(lang).Some?
    requires AllRowsReadable(rows, lang)
    requires rows != []
    ensures AllRowsReadable(rows[..|rows| - 1], lang)
    ensures BuildLexicon(rows[..|rows| - 1], lang).Ok?
    ensures BuildLexicon(rows, lang)
         == Ok(BuildLexicon(rows[..|rows| - 1], lang).value[QueryOf(rows[|rows| - 1]) :=
                 Strip(rows[|rows| - 1][TargetColumn(lang).value])])
  {
    var front := rows[..|rows| - 1];
    assert AllRowsReadable(front, lang) by {
      forall j | 0 <= j < |front| ensures MissingColumn(front[j], lang).None? {
        assert front[j] == rows[j];
      }
    }
    LexiconSucceeds(front, lang);
  }

  /** For a language other than English and German the lexicon stays empty, though every row
      must still have a query column. */
  lemma {:induction false} LexiconOtherLanguage(rows: seq<Row>, lang: string)
    requires TargetColumn(lang).None?
    requires forall i :: 0 <= i < |rows| ==> QueryColumn in rows[i]
    ensures BuildLexicon(rows, lang) == Ok(map[])
    decreases |rows|
  {
    if rows != [] {
      var front := rows[..|rows| - 1];
      assert forall i :: 0 <= i < |front| ==> front[i] == rows[i];
      LexiconOtherLanguage(front, lang);
    }
  }
}
