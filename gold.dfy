/** Gold forms per evaluation image, `load_gold_lemmas` in eval_verb_accuracy.py. */
module Gold {
  import opened Errors
  import opened Text
  import opened Tokens

  /** What the loop body does with one image line: look its key up in the lexicon, then
      lemmatize the form found and take the first token's lemma. The lemma is thrown away,
      but a form the model turns into no tokens at all fails on that first-token access. */
  function ResolveLine(name: string, queryTrans: map<string, string>, spacyModel: Lemmatizer): (r: Result<string>)
    ensures r.Ok? <==> QueryKey(name) in queryTrans && spacyModel(queryTrans[QueryKey(name)]) != []
    ensures r.Ok? ==> r.value == queryTrans[QueryKey(name)]
    ensures QueryKey(name) !in queryTrans ==> r == Err(KeyError(QueryKey(name)))
    ensures QueryKey(name) in queryTrans && spacyModel(queryTrans[QueryKey(name)]) == [] ==> r == Err(IndexError)
  {
    var key := QueryKey(name);
    if key !in queryTrans then Err(KeyError(key))
    else if |spacyModel(queryTrans[key])| == 0 then Err(IndexError)
    else Ok(queryTrans[key])
  }

  /** The gold forms the loop has collected after reading `names`, in order; the first line
      that fails ends it with that line's error. */
  function GoldForms(names: seq<string>, queryTrans: map<string, string>, spacyModel: Lemmatizer): Result<seq<string>>
    decreases |names|
  {
    if names == [] then Ok([])
    else match GoldForms(names[..|names| - 1], queryTrans, spacyModel)
      case Err(e) => Err(e)
      case Ok(forms) =>
        match ResolveLine(names[|names| - 1], queryTrans, spacyModel)
        case Err(e) => Err(e)
        case Ok(form) => Ok(forms + [form])
  }

  /** `load_gold_lemmas` over the lines of the images file. */
  method LoadGoldLemmas(imageNames: seq<string>, queryTrans: map<string, string>, spacyModel: Lemmatizer)
    returns (r: Result<seq<string>>)
    ensures r == GoldForms(imageNames, queryTrans, spacyModel)
  {
    var goldLemmaForms: seq<string> := [];
    for i := 0 to |imageNames|
      invariant GoldForms(imageNames[..i], queryTrans, spacyModel) == Ok(goldLemmaForms)
    {
      assert imageNames[..i + 1][..i] == imageNames[..i];
      var name := imageNames[i];
      var key := QueryKey(name);
      if key !in queryTrans {
        GoldErrorPersists(imageNames, queryTrans, spacyModel, i + 1);
        return Err(KeyError(key));
      }
      var form := queryTrans[key];
      var doc := spacyModel(form);
      if |doc| == 0 {
        GoldErrorPersists(imageNames, queryTrans, spacyModel, i + 1);
        return Err(IndexError);
      }
      var firstLemma := doc[0].lemmaForm;  // computed and never used, as in the source
      goldLemmaForms := goldLemmaForms + [form];
    }
    assert imageNames[..|imageNames|] == imageNames;
    return Ok(goldLemmaForms);
  }

  /** Once a prefix of the image lines has failed, reading more lines keeps that error. */
  lemma {:induction false} GoldErrorPersists(names: seq<string>, queryTrans: map<string, string>, spacyModel: Lemmatizer, k: nat)
    requires k <= |names|
    requires GoldForms(names[..k], queryTrans, spacyModel).Err?
    ensures GoldForms(names, queryTrans, spacyModel) == GoldForms(names[..k], queryTrans, spacyModel)
    decreases |names|
  {
    if k == |names| {
      assert names[..k] == names;
    } else {
      var front := names[..|names| - 1];
      assert front[..k] == names[..k];
      GoldErrorPersists(front, queryTrans, spacyModel, k);
    }
  }

  /** When every image line resolves, the result has exactly one entry per line, in order,
      and entry `i` is the lexicon's form for the key of line `i`. */
  lemma {:induction false} GoldFormsResolved(names: seq<string>, queryTrans: map<string, string>, spacyModel: Lemmatizer)
    requires forall i :: 0 <= i < |names| ==> ResolveLine(names[i], queryTrans, spacyModel).Ok?
    ensures GoldForms(names, queryTrans, spacyModel).Ok?
    ensures |GoldForms(names, queryTrans, spacyModel).value| == |names|
    ensures forall i :: 0 <= i < |names| ==>
      QueryKey(names[i]) in queryTrans &&
      GoldForms(names, queryTrans, spacyModel).value[i] == queryTrans[QueryKey(names[i])]
    decreases |names|
  {
    if names != [] {
      var front := names[..|names| - 1];
      assert forall i :: 0 <= i < |front| ==> front[i] == names[i];
      GoldFormsResolved(front, queryTrans, spacyModel);
    }
  }

  /** The first image line that does not resolve fails the whole load with that line's error:
      a KeyError naming its key, or an IndexError when its form lemmatizes to no tokens. */
  lemma {:induction false} GoldFormsFailAtFirstBadLine(names: seq<string>, queryTrans: map<string, string>, spacyModel: Lemmatizer, i: nat)
    requires i < |names|
    requires ResolveLine(names[i], queryTrans, spacyModel).Err?
    requires forall j :: 0 <= j < i ==> ResolveLine(names[j], queryTrans, spacyModel).Ok?
    ensures GoldForms(names, queryTrans, spacyModel) == Err(ResolveLine(names[i], queryTrans, spacyModel).error)
    ensures QueryKey(names[i]) !in queryTrans ==> GoldForms(names, queryTrans, spacyModel) == Err(KeyError(QueryKey(names[i])))
  {
    var front := names[..i];
    assert forall j :: 0 <= j < |front| ==> front[j] == names[j];
    GoldFormsResolved(front, queryTrans, spacyModel);
    assert names[..i + 1][..i] == front;
    GoldErrorPersists(names, queryTrans, spacyModel, i + 1);
  }

  /** The gold forms do not depend on the lemmas computed along the way: two models that
      agree on which forms lemmatize to no tokens give the same result. */
  lemma {:induction false} GoldFormsIgnoreLemmas(names: seq<string>, queryTrans: map<string, string>, model1: Lemmatizer, model2: Lemmatizer)
    requires forall k :: k in queryTrans ==> (|model1(queryTrans[k])| == 0 <==> |model2(queryTrans[k])| == 0)
    ensures GoldForms(names, queryTrans, model1) == GoldForms(names, queryTrans, model2)
    decreases |names|
  {
    if names != [] {
      GoldFormsIgnoreLemmas(names[..|names| - 1], queryTrans, model1, model2);
      assert ResolveLine(names[|names| - 1], queryTrans, model1) == ResolveLine(names[|names| - 1], queryTrans, model2);
    }
  }
}
