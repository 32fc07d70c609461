/** The fixed lemma corrections and their in-place application to a spaCy document,
    `create_correction_dict` and `tidy_lemmatization` in eval_verb_accuracy.py. */
module Corrections {
  import opened Tokens

  /** The fourteen corrections, wrong lemma -> right lemma. */
  const CorrectionTable: map<string, string> := map[
    "herausstreckt" := "heraustrecken",
    "blockt" := "blocken",
    "fällt" := "fallen",
    "fällen" := "fallen",
    "schreit" := "schreiten",
    "kremt" := "kremen",
    "passt" := "passen",
    "coupiert" := "coupieren",
    "presst" := "pressen",
    "gezogen" := "ziehen",
    "abzublocken" := "abblocken",
    "diving" := "dive",
    "riding" := "ride",
    "rid" := "ride"
  ]

  /** No corrected lemma is itself corrected again. */
  predicate NoValueIsKey(corrections: map<string, string>) {
    corrections.Keys !! corrections.Values
  }

  /** `create_correction_dict`: fourteen insertions into an empty dict, one per entry. */
  method CreateCorrectionDict() returns (corrections: map<string, string>)
    ensures corrections == CorrectionTable
  {
    corrections := map[];
    corrections := corrections["herausstreckt" := "heraustrecken"];
    corrections := corrections["blockt" := "blocken"];
    corrections := corrections["fällt" := "fallen"];
    corrections := corrections["fällen" := "fallen"];
    corrections := corrections["schreit" := "schreiten"];
    corrections := corrections["kremt" := "kremen"];
    corrections := corrections["passt" := "passen"];
    corrections := corrections["coupiert" := "coupieren"];
    corrections := corrections["presst" := "pressen"];
    corrections := corrections["gezogen" := "ziehen"];
    corrections := corrections["abzublocken" := "abblocken"];
    corrections := corrections["diving" := "dive"];
    corrections := corrections["riding" := "ride"];
    corrections := corrections["rid" := "ride"];
  }

  /** The document after correction: a VERB token whose lemma is a table key gets the
      table's lemma; every other token is kept as it is. */
  function Tidied(doc: seq<Token>, corrections: map<string, string>): (r: seq<Token>)
    ensures |r| == |doc|
    ensures forall i :: 0 <= i < |doc| ==> r[i].pos == doc[i].pos
    ensures forall i :: 0 <= i < |doc| && doc[i].pos == VerbTag && doc[i].lemmaForm in corrections ==>
      r[i].lemmaForm == corrections[doc[i].lemmaForm]
    ensures forall i :: 0 <= i < |doc| && !(doc[i].pos == VerbTag && doc[i].lemmaForm in corrections) ==>
      r[i] == doc[i]
  {
    if doc == [] then []
    else
      var t := doc[0];
      [if t.pos == VerbTag && t.lemmaForm in corrections then t.(lemmaForm := corrections[t.lemmaForm]) else t]
        + Tidied(doc[1..], corrections)
  }

  /** `tidy_lemmatization`: rewrite the lemmas of the document's tokens in place. */
  method TidyLemmatization(sentence: array<Token>, corrections: map<string, string>)
    modifies sentence
    ensures sentence[..] == Tidied(old(sentence[..]), corrections)
  {
    for i := 0 to sentence.Length
      invariant forall k :: 0 <= k < i ==>
        sentence[k] == (if old(sentence[k]).pos == VerbTag && old(sentence[k]).lemmaForm in corrections
                        then old(sentence[k]).(lemmaForm := corrections[old(sentence[k]).lemmaForm])
                        else old(sentence[k]))
      invariant forall k :: i <= k < sentence.Length ==> sentence[k] == old(sentence[k])
    {
      var token := sentence[i];
      if token.pos == VerbTag && token.lemmaForm in corrections {
        sentence[i] := token.(lemmaForm := corrections[token.lemmaForm]);
      }
    }
  }

  /** With a table whose corrected lemmas are not keys, tidying a tidied document changes
      nothing. */
  lemma {:induction false} TidiedIdempotent(doc: seq<Token>, corrections: map<string, string>)
    requires NoValueIsKey(corrections)
    ensures Tidied(Tidied(doc, corrections), corrections) == Tidied(doc, corrections)
  {
  }

  /** No corrected lemma of the script's own table is corrected again, so tidying with it twice
      is the same as tidying once. */
  lemma TidyingWithTableIdempotent(doc: seq<Token>)
    ensures NoValueIsKey(CorrectionTable)
    ensures Tidied(Tidied(doc, CorrectionTable), CorrectionTable) == Tidied(doc, CorrectionTable)
  {
    TidiedIdempotent(doc, CorrectionTable);
  }

  /** The fourteen wrong lemmas, in the order the source inserts them. */
  function WrongLemmas(): (keys: seq<string>)
    ensures |keys| == 14
    ensures forall i, j :: 0 <= i < j < |keys| ==> keys[i] != keys[j]
  {
    ["herausstreckt", "blockt", "fällt", "fällen", "schreit", "kremt", "passt",
     "coupiert", "presst", "gezogen", "abzublocken", "diving", "riding", "rid"]
  }

  /** The table corrects exactly those wrong lemmas. */
  lemma CorrectionTableKeys()
    ensures CorrectionTable.Keys == set k | k in WrongLemmas()
  {
  }

  /** The table has fourteen entries: no wrong lemma is listed twice. */
  lemma CorrectionTableSize()
    ensures |CorrectionTable| == 14
  {
    CorrectionTableKeys();
    DistinctCount(WrongLemmas());
  }

  /** A sequence without repeats has as many distinct elements as it is long. */
  lemma {:induction false} DistinctCount(s: seq<string>)
    requires forall i, j :: 0 <= i < j < |s| ==> s[i] != s[j]
    ensures |set x | x in s| == |s|
  {
    if s != [] {
      DistinctCount(s[1..]);
      assert (set x | x in s) == {s[0]} + set x | x in s[1..];
      assert s[0] !in s[1..];
    }
  }
}
