/** The /identify/ endpoint, identify_medicine (main.py:131-148), and the part of
    analyze_image (main.py:49-63) that follows the model call. Reading the uploads,
    the model call and the JSON parser are outside the model: the endpoint is given
    the per-image results, and analyze_image is given the reply text and the parser. */
module Identify {
  import opened Wrappers
  import opened Merging
  import opened ResponseText

  const FailureMessage := "Failed to identify medicine from provided images"

  /** `{"medicine": merged}` or `{"error": message}`. */
  datatype Response = Medicine(medicine: Merged) | Failure(error: string)

  /** analyze_image: the cleaned reply text is parsed as JSON; when the parser
      (json.loads) rejects it, the result is `{"error": "Invalid AI response"}`, a
      dict that has the `error` key and no lens. */
  function AnalyzeImage(replyText: string, parse: string -> Option<ImageResult>): ImageResult {
    match parse(Clean(replyText))
    case Some(r) => r
    case None => Dict(None, None, true)
  }

  /** `isinstance(ai_result, dict) and "error" in ai_result` (main.py:140). */
  predicate IsErrorResult(r: ImageResult) {
    r.Dict? && r.hasError
  }

  /** The results the loop keeps in `responses`, in order (main.py:136-142). */
  function Survivors(rs: seq<ImageResult>): seq<ImageResult> {
    if rs == [] then []
    else Survivors(rs[..|rs| - 1]) + (if IsErrorResult(rs[|rs| - 1]) then [] else [rs[|rs| - 1]])
  }

  /** What identify_medicine returns for the per-image results `rs`. */
  function Identify(rs: seq<ImageResult>): Response {
    var survivors := Survivors(rs);
    if survivors == [] then Failure(FailureMessage) else Medicine(Merge(survivors))
  }

  lemma SurvivorsStep(rs: seq<ImageResult>, i: nat)
    requires i < |rs|
    ensures Survivors(rs[..i + 1]) == Survivors(rs[..i]) + (if IsErrorResult(rs[i]) then [] else [rs[i]])
  {
    assert rs[..i + 1][..i] == rs[..i];
  }

  /** identify_medicine over the already analysed images (main.py:134-148). */
  method IdentifyMedicine(aiResults: seq<ImageResult>) returns (resp: Response)
    ensures resp == Identify(aiResults)
  {
    var responses: seq<ImageResult> := [];
    var i := 0;
    while i < |aiResults|
      invariant 0 <= i <= |aiResults|
      invariant responses == Survivors(aiResults[..i])
    {
      var aiResult := aiResults[i];
      SurvivorsStep(aiResults, i);
      if !IsErrorResult(aiResult) {
        responses := responses + [aiResult];
      }
      i := i + 1;
    }
    assert aiResults[..i] == aiResults;
    if responses == [] {
      return Failure(FailureMessage);
    }
    var finalResult := MergeResults(responses);
    resp := Medicine(finalResult);
  }

  // ----- Properties -----

  lemma {:induction false} SurvivorsAppend(a: seq<ImageResult>, b: seq<ImageResult>)
    ensures Survivors(a + b) == Survivors(a) + Survivors(b)
  {
    if b == [] {
      assert a + b == a;
    } else {
      assert (a + b)[..|a + b| - 1] == a + b[..|b| - 1];
      SurvivorsAppend(a, b[..|b| - 1]);
    }
  }

  lemma SurvivorOfOne(r: ImageResult)
    ensures Survivors([r]) == if IsErrorResult(r) then [] else [r]
  {
    assert [r][..0] == [];
  }

  /** A result that is a dict with an "error" key is skipped, wherever it stands. */
  lemma ErrorResultDropped(a: seq<ImageResult>, e: ImageResult, b: seq<ImageResult>)
    requires IsErrorResult(e)
    ensures Survivors(a + [e] + b) == Survivors(a + b)
    ensures Identify(a + [e] + b) == Identify(a + b)
  {
    SurvivorsAppend(a + [e], b);
    SurvivorsAppend(a, [e]);
    SurvivorsAppend(a, b);
    SurvivorOfOne(e);
    assert Survivors(a) + [] == Survivors(a);
  }

  /** Any other result is kept, in its place. */
  lemma OtherResultKept(a: seq<ImageResult>, r: ImageResult, b: seq<ImageResult>)
    requires !IsErrorResult(r)
    ensures Survivors(a + [r] + b) == Survivors(a) + [r] + Survivors(b)
  {
    SurvivorsAppend(a + [r], b);
    SurvivorsAppend(a, [r]);
    SurvivorOfOne(r);
  }

  lemma {:induction false} SurvivorsEmpty(rs: seq<ImageResult>)
    ensures Survivors(rs) == [] <==> forall i :: 0 <= i < |rs| ==> IsErrorResult(rs[i])
  {
    if rs != [] {
      var init := rs[..|rs| - 1];
      SurvivorsEmpty(init);
      assert forall i :: 0 <= i < |init| ==> init[i] == rs[i];
    }
  }

  lemma {:induction false} SurvivorsWithoutErrors(rs: seq<ImageResult>)
    requires forall i :: 0 <= i < |rs| ==> !IsErrorResult(rs[i])
    ensures Survivors(rs) == rs
  {
    if rs != [] {
      var init := rs[..|rs| - 1];
      assert forall i :: 0 <= i < |init| ==> init[i] == rs[i];
      SurvivorsWithoutErrors(init);
      assert rs == init + [rs[|rs| - 1]];
    }
  }

  /** The endpoint fails, with the fixed message, exactly when every result is an
      error dict (in particular for no images at all); otherwise it returns the merge
      of the results that are not (main.py:140-148). */
  lemma IdentifyOutcome(rs: seq<ImageResult>)
    ensures Identify(rs) == Failure(FailureMessage) <==> forall i :: 0 <= i < |rs| ==> IsErrorResult(rs[i])
    ensures Identify(rs).Failure? ==> Identify(rs).error == FailureMessage
    ensures (forall i :: 0 <= i < |rs| ==> !IsErrorResult(rs[i])) && rs != [] ==> Identify(rs) == Medicine(Merge(rs))
  {
    SurvivorsEmpty(rs);
    if forall i :: 0 <= i < |rs| ==> !IsErrorResult(rs[i]) {
      SurvivorsWithoutErrors(rs);
    }
  }

  /** A reply the JSON parser rejects never reaches the merge. */
  lemma UnparsableReplyDropped(a: seq<ImageResult>, replyText: string, parse: string -> Option<ImageResult>, b: seq<ImageResult>)
    requires parse(Clean(replyText)).None?
    ensures Identify(a + [AnalyzeImage(replyText, parse)] + b) == Identify(a + b)
  {
    ErrorResultDropped(a, AnalyzeImage(replyText, parse), b);
  }

  /** A reply that parses to a JSON value other than an object is not an error dict:
      it is kept, the merge then skips it, and a batch made only of such replies
      returns an all-"Unknown" medicine rather than the failure. */
  lemma NonDictReplyIsNotAFailure(rs: seq<ImageResult>)
    requires rs != [] && forall i :: 0 <= i < |rs| ==> rs[i] == NotDict
    ensures Identify(rs) == Medicine(Merged(UnknownProfile, UnknownProfile))
  {
    SurvivorsWithoutErrors(rs);
    NoContributionIsAllUnknown(rs);
  }
}
