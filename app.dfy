/**
 * The `/analyze` route's own step before it calls the handler: an empty
 * ingredient list is refused. The route's decorators are not part of this
 * model, so the request body arrives here already split into its two fields.
 */
module App {
  import opened Advice

  const NoIngredientsMessage: string := "No ingredients provided"

  /** `analyze_ingredients()` for a request whose `ingredients` field is a list. */
  function Analyze(n: Nutritionist, rt: Runtime, ingredients: seq<Json>, profile: string): (r: Response)
    ensures r.status == 200 || r.status == 400 || r.status == 500
  {
    if ingredients == [] then Response(400, ErrorBody(NoIngredientsMessage))
    else GetAdvice(n, rt, ingredients, profile)
  }

  /**
   * The route answers 400 exactly when the list is empty or holds a
   * non-string, and an empty list gets its own message, whatever the client.
   */
  lemma AnalyzeRejects(n: Nutritionist, rt: Runtime, ingredients: seq<Json>, profile: string)
    ensures Analyze(n, rt, ingredients, profile).status == 400 <==> ingredients == [] || !AllStrings(ingredients)
    ensures ingredients == [] ==> Analyze(n, rt, ingredients, profile).body == ErrorBody(NoIngredientsMessage)
    ensures ingredients != [] ==> Analyze(n, rt, ingredients, profile) == GetAdvice(n, rt, ingredients, profile)
  {
    GetAdviceStatus(n, rt, ingredients, profile);
  }
}
