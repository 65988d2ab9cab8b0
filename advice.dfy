/**
 * `Nutritionist.get_advice_from_ingredients`: the input guard, the map from
 * ingredient labels to their amounts, the prompt, the request to the chat
 * completion provider, and the mapping of the provider's outcome to an HTTP
 * response.
 *
 * What lies outside this module is passed in as values: the provider client
 * (`Nutritionist.client`), `json.loads`, and the `str()` renderings of the
 * amount dict and the ingredient list that the prompt's f-string embeds.
 */
module Advice {
  import opened Wrappers
  import opened Text
  import opened Amounts
  import opened PyDict

  // ---------------------------------------------------------------------
  // Values crossing the boundary
  // ---------------------------------------------------------------------

  /**
   * A JSON value crossing the boundary. Simplified: a number keeps its literal
   * text rather than becoming an int or float, and an object keeps its member
   * order rather than the key order `jsonify` may impose.
   */
  datatype Json =
    | JNull
    | JBool(b: bool)
    | JNumber(literal: string)
    | JString(str: string)
    | JArray(items: seq<Json>)
    | JObject(members: seq<(string, Json)>)

  /** An HTTP response: a status code and a JSON body. */
  datatype Response = Response(status: int, body: Json)

  /** A chat message: a role and its content. */
  datatype Message = Message(role: string, content: string)

  /** The arguments of `client.chat.completions.create`. */
  datatype ChatRequest = ChatRequest(
    model: string,
    messages: seq<Message>,
    temperature: real,
    maxTokens: nat,
    topP: real,
    stream: bool)

  /** One choice of a completion; `content` may be missing. */
  datatype Choice = Choice(content: Option<string>)

  /** The provider call: it raises, or it returns a completion with its choices. */
  datatype Reply = Raised | Completion(choices: seq<Choice>)

  /** `json.loads`: a value, a `JSONDecodeError`, or some other exception. */
  datatype Decoded = Loaded(value: Json) | DecodeError | LoadRaised

  /** The fixed prose around the inputs: the instructions before them and the response format after them. */
  datatype PromptTemplate = PromptTemplate(instructions: string, responseFormat: string)

  /** A configured analyser: the provider client, fixed at construction, and the prompt's prose. */
  datatype Nutritionist = Nutritionist(client: ChatRequest -> Reply, template: PromptTemplate)

  /** Library behaviour the handler relies on. */
  datatype Runtime = Runtime(
    loads: string -> Decoded,
    showAmounts: Dict<string, string> -> string,
    showIngredients: seq<string> -> string)

  // ---------------------------------------------------------------------
  // Constants
  // ---------------------------------------------------------------------

  const Model: string := "llama3-70b-8192"
  const SystemPrompt: string := "You are a nutritionist dietitian. Always respond in valid JSON."
  const InvalidInputMessage: string := "Invalid input. Ingredients must be a list of strings."
  const InvalidJsonMessage: string := "Model returned an invalid JSON response."
  const ProviderErrorMessage: string := "Error encountered from Groq API"

  // The literal text of the f-string between the embedded values.
  const AmountsLabel: string := "Ingredients with amounts: "
  const ProfileLabel: string := "\n\n        User Profile:\n        "
  const IngredientsLabel: string := "\n\n        Ingredients: "

  /** `jsonify({"error": message})` */
  function ErrorBody(message: string): Json {
    JObject([("error", JString(message))])
  }

  // ---------------------------------------------------------------------
  // The input guard
  // ---------------------------------------------------------------------

  /** `all(isinstance(ing, str) for ing in ingredients)` */
  predicate AllStrings(ingredients: seq<Json>) {
    forall i :: 0 <= i < |ingredients| ==> ingredients[i].JString?
  }

  /** The labels of a list that holds only strings. */
  function Labels(ingredients: seq<Json>): (names: seq<string>)
    requires AllStrings(ingredients)
    ensures |names| == |ingredients|
    ensures forall i :: 0 <= i < |names| ==> ingredients[i] == JString(names[i])
  {
    if ingredients == [] then [] else [ingredients[0].str] + Labels(ingredients[1..])
  }

  // ---------------------------------------------------------------------
  // The amount map
  // ---------------------------------------------------------------------

  /** Python truthiness of `extract_amounts(ing)`: not `None` and not `""`. */
  predicate Truthy(found: Option<string>) {
    found.Some? && found.value != ""
  }

  /**
   * `{ing: extract_amounts(ing) for ing in ingredients if extract_amounts(ing)}`,
   * one `d[ing] = ...` per element that passes the filter, in list order.
   */
  function AmountMap(ingredients: seq<string>): (d: Dict<string, string>)
    ensures |d| <= |ingredients|
  {
    if ingredients == [] then []
    else
      var prior := AmountMap(ingredients[..|ingredients| - 1]);
      var ing := ingredients[|ingredients| - 1];
      var found := ExtractAmount(ing);
      if Truthy(found) then SetItem(prior, ing, found.value) else prior
  }

  /** Every label of `ingredients` that holds an amount, mapped to that amount. */
  ghost function LabelledAmounts(ingredients: seq<string>): map<string, string> {
    map ing | ing in ingredients && ExtractAmount(ing).Some? :: ExtractAmount(ing).value
  }

  /**
   * As a map, the comprehension holds exactly the labels that hold an amount,
   * each with its own amount: labels without one are absent, and repeated
   * labels collapse into one entry.
   */
  lemma {:induction false} AmountMapView(ingredients: seq<string>)
    ensures View(AmountMap(ingredients)) == LabelledAmounts(ingredients)
  {
    if ingredients != [] {
      var n := |ingredients|;
      var prefix := ingredients[..n - 1];
      var ing := ingredients[n - 1];
      assert ingredients == prefix + [ing];
      AmountMapView(prefix);
      ExtractAmountNonEmpty(ing);
      if Truthy(ExtractAmount(ing)) {
        SetItemView(AmountMap(prefix), ing, ExtractAmount(ing).value);
      }
    }
  }

  /** The position of the first occurrence of `x` in `s`. */
  function FirstIndex(s: seq<string>, x: string): (i: nat)
    requires x in s
    ensures i < |s| && s[i] == x && x !in s[..i]
  {
    if s[0] == x then 0 else 1 + FirstIndex(s[1..], x)
  }

  /** An occurrence with no earlier one is the first occurrence. */
  lemma FirstIndexAt(s: seq<string>, x: string, k: nat)
    requires k < |s| && s[k] == x && x !in s[..k]
    ensures FirstIndex(s, x) == k
  {
  }

  /** Appending to a list keeps the first occurrence of what it already holds. */
  lemma FirstIndexAppend(s: seq<string>, x: string, y: string)
    requires y in s
    ensures y in s + [x] && FirstIndex(s + [x], y) == FirstIndex(s, y)
  {
    var i := FirstIndex(s, y);
    assert (s + [x])[..i] == s[..i];
    FirstIndexAt(s + [x], y, i);
  }

  /** `keys` are labels of `s`, in the order of their first occurrence in `s`. */
  ghost predicate InFirstOccurrenceOrder(keys: seq<string>, s: seq<string>) {
    && (forall a :: 0 <= a < |keys| ==> keys[a] in s)
    && (forall a, b :: 0 <= a < b < |keys| ==> FirstIndex(s, keys[a]) < FirstIndex(s, keys[b]))
  }

  /** Keys in first-occurrence order stay so when the list grows. */
  lemma OrderKeptByAppend(keys: seq<string>, s: seq<string>, x: string)
    requires InFirstOccurrenceOrder(keys, s)
    ensures InFirstOccurrenceOrder(keys, s + [x])
  {
    forall a | 0 <= a < |keys| ensures keys[a] in s + [x] && FirstIndex(s + [x], keys[a]) == FirstIndex(s, keys[a]) {
      FirstIndexAppend(s, x, keys[a]);
    }
  }

  /** A label new to the list, appended to both, comes last in first-occurrence order. */
  lemma OrderExtendedByNewLabel(keys: seq<string>, s: seq<string>, x: string)
    requires InFirstOccurrenceOrder(keys, s) && x !in s
    ensures InFirstOccurrenceOrder(keys + [x], s + [x])
  {
    OrderKeptByAppend(keys, s, x);
    assert (s + [x])[..|s|] == s;
    FirstIndexAt(s + [x], x, |s|);
    forall a | 0 <= a < |keys| ensures FirstIndex(s + [x], keys[a]) < |s| {
      FirstIndexAppend(s, x, keys[a]);
    }
  }

  /** The comprehension's keys are distinct. */
  lemma {:induction false} AmountMapDistinct(ingredients: seq<string>)
    ensures DistinctKeys(AmountMap(ingredients))
  {
    if ingredients != [] {
      var n := |ingredients|;
      var prefix := ingredients[..n - 1];
      var ing := ingredients[n - 1];
      AmountMapDistinct(prefix);
      if Truthy(ExtractAmount(ing)) {
        SetItemDistinct(AmountMap(prefix), ing, ExtractAmount(ing).value);
      }
    }
  }

  /** The comprehension's keys come in the order in which their labels first occur in the list. */
  lemma {:induction false} AmountMapOrder(ingredients: seq<string>)
    ensures InFirstOccurrenceOrder(Keys(AmountMap(ingredients)), ingredients)
  {
    if ingredients != [] {
      var n := |ingredients|;
      var prefix := ingredients[..n - 1];
      var ing := ingredients[n - 1];
      assert ingredients == prefix + [ing];
      var prior := AmountMap(prefix);
      AmountMapOrder(prefix);
      var found := ExtractAmount(ing);
      if Truthy(found) {
        SetItemKeys(prior, ing, found.value);
        if ing in Keys(prior) {
          OrderKeptByAppend(Keys(prior), prefix, ing);
        } else {
          NewKeyIsNewLabel(ingredients);
          OrderExtendedByNewLabel(Keys(prior), prefix, ing);
        }
      } else {
        OrderKeptByAppend(Keys(prior), prefix, ing);
      }
    }
  }

  /** A label with an amount that the comprehension has not seen yet occurs first at the current position. */
  lemma NewKeyIsNewLabel(ingredients: seq<string>)
    requires ingredients != []
    requires Truthy(ExtractAmount(ingredients[|ingredients| - 1]))
    ensures var n := |ingredients|;
            ingredients[n - 1] !in Keys(AmountMap(ingredients[..n - 1])) ==>
              ingredients[n - 1] !in ingredients[..n - 1]
  {
    var n := |ingredients|;
    var prefix := ingredients[..n - 1];
    var ing := ingredients[n - 1];
    if ing !in Keys(AmountMap(prefix)) {
      AmountMapView(prefix);
      ViewKeys(AmountMap(prefix));
      assert ing !in LabelledAmounts(prefix);
    }
  }

  // ---------------------------------------------------------------------
  // The prompt and the request
  // ---------------------------------------------------------------------

  /** The f-string: the instructions, then the amount map, the profile and the ingredient list, each after its label. */
  function Prompt(t: PromptTemplate, amounts: string, profile: string, ingredients: string): string {
    t.instructions + (AmountsLabel + amounts) + (ProfileLabel + profile) + (IngredientsLabel + ingredients) + t.responseFormat
  }

  /** `w` occurs in `text` at index `a`. */
  ghost predicate OccursAt(text: string, w: string, a: nat) {
    a + |w| <= |text| && text[a..a + |w|] == w
  }

  /** The three middle pieces of a five-piece concatenation occur in it, one after the other. */
  lemma MiddlePieces(x: string, u: string, v: string, w: string, y: string)
    ensures OccursAt(x + u + v + w + y, u, |x|)
    ensures OccursAt(x + u + v + w + y, v, |x| + |u|)
    ensures OccursAt(x + u + v + w + y, w, |x| + |u| + |v|)
  {
    var p := x + u + v + w + y;
    assert p[|x|..|x| + |u|] == u;
    assert p[|x| + |u|..|x| + |u| + |v|] == v;
    assert p[|x| + |u| + |v|..|x| + |u| + |v| + |w|] == w;
  }

  /**
   * The prompt carries the rendered amount map, the user profile verbatim and
   * the rendered ingredient list, each right after its label, one after the other.
   */
  lemma PromptCarriesInputs(t: PromptTemplate, amounts: string, profile: string, ingredients: string)
    ensures exists a: nat, b: nat, c: nat ::
              && OccursAt(Prompt(t, amounts, profile, ingredients), AmountsLabel + amounts, a)
              && OccursAt(Prompt(t, amounts, profile, ingredients), ProfileLabel + profile, b)
              && OccursAt(Prompt(t, amounts, profile, ingredients), IngredientsLabel + ingredients, c)
              && b == a + |AmountsLabel + amounts|
              && c == b + |ProfileLabel + profile|
  {
    var u, v, w := AmountsLabel + amounts, ProfileLabel + profile, IngredientsLabel + ingredients;
    MiddlePieces(t.instructions, u, v, w, t.responseFormat);
    var a := |t.instructions|;
    assert OccursAt(Prompt(t, amounts, profile, ingredients), u, a);
  }

  /** The call's fixed arguments: a system message, then the prompt as the user message. */
  function AdviceRequest(prompt: string): ChatRequest {
    ChatRequest(Model, [Message("system", SystemPrompt), Message("user", prompt)], 0.7, 1024, 1.0, false)
  }

  // ---------------------------------------------------------------------
  // The outcome
  // ---------------------------------------------------------------------

  /** `response.choices[0].message.content`, when indexing and reading it do not raise. */
  function ReplyText(reply: Reply): (r: Option<string>)
    ensures r.Some? ==> reply.Completion? && |reply.choices| > 0
  {
    match reply
    case Raised => None
    case Completion(choices) => if |choices| == 0 then None else choices[0].content
  }

  /** The `try`/`except` blocks around the provider call and the parse of its stripped reply. */
  function Outcome(reply: Reply, loads: string -> Decoded): (r: Response)
    ensures r.status == 200 || r.status == 500
  {
    match ReplyText(reply)
    case None => Response(500, ErrorBody(ProviderErrorMessage))
    case Some(text) =>
      match loads(Strip(text))
      case Loaded(value) => Response(200, value)
      case DecodeError => Response(500, ErrorBody(InvalidJsonMessage))
      case LoadRaised => Response(500, ErrorBody(ProviderErrorMessage))
  }

  /**
   * 200 exactly when the stripped reply text parses, and then the body is the
   * parsed value unchanged, whatever its shape (a model-made `{"error": ...}`
   * object included).
   */
  lemma OutcomeSuccess(reply: Reply, loads: string -> Decoded)
    ensures Outcome(reply, loads).status == 200 <==>
              ReplyText(reply).Some? && loads(Strip(ReplyText(reply).value)).Loaded?
    ensures Outcome(reply, loads).status == 200 ==>
              Outcome(reply, loads).body == loads(Strip(ReplyText(reply).value)).value
  {
  }

  /**
   * Every failure is a 500 with one of two fixed bodies, so no exception text
   * reaches the caller; the invalid-JSON body is given exactly when the reply
   * text was read and failed to decode.
   */
  lemma OutcomeFailure(reply: Reply, loads: string -> Decoded)
    ensures Outcome(reply, loads).status != 200 ==>
              && Outcome(reply, loads).status == 500
              && Outcome(reply, loads).body in {ErrorBody(ProviderErrorMessage), ErrorBody(InvalidJsonMessage)}
    ensures Outcome(reply, loads).body == ErrorBody(InvalidJsonMessage) && Outcome(reply, loads).status == 500 <==>
              ReplyText(reply).Some? && loads(Strip(ReplyText(reply).value)) == DecodeError
    ensures reply == Raised ==> Outcome(reply, loads) == Response(500, ErrorBody(ProviderErrorMessage))
  {
    assert ErrorBody(ProviderErrorMessage) != ErrorBody(InvalidJsonMessage) by {
      assert ProviderErrorMessage[0] != InvalidJsonMessage[0];
    }
  }

  // ---------------------------------------------------------------------
  // The handler
  // ---------------------------------------------------------------------

  /** The prompt built from string ingredients and the profile. */
  function AdvicePrompt(n: Nutritionist, rt: Runtime, labels: seq<string>, profile: string): string {
    Prompt(n.template, rt.showAmounts(AmountMap(labels)), profile, rt.showIngredients(labels))
  }

  /** `get_advice_from_ingredients(ingredients, user_profile)` */
  function GetAdvice(n: Nutritionist, rt: Runtime, ingredients: seq<Json>, profile: string): (r: Response)
    ensures r.status == 200 || r.status == 400 || r.status == 500
  {
    if !AllStrings(ingredients) then Response(400, ErrorBody(InvalidInputMessage))
    else
      var labels := Labels(ingredients);
      Outcome(n.client(AdviceRequest(AdvicePrompt(n, rt, labels, profile))), rt.loads)
  }

  /**
   * A non-string element gives the 400 error whatever the client would
   * answer: the guard decides before any request is made.
   */
  lemma GuardBeforeProvider(n: Nutritionist, rt: Runtime, ingredients: seq<Json>, profile: string, i: nat)
    requires i < |ingredients| && !ingredients[i].JString?
    ensures GetAdvice(n, rt, ingredients, profile) == Response(400, ErrorBody(InvalidInputMessage))
    ensures forall client :: GetAdvice(Nutritionist(client, n.template), rt, ingredients, profile)
                               == GetAdvice(n, rt, ingredients, profile)
  {
  }

  /**
   * The status is 400 exactly when some element is not a string (so an empty
   * list passes the guard), and otherwise 200 or 500.
   */
  lemma GetAdviceStatus(n: Nutritionist, rt: Runtime, ingredients: seq<Json>, profile: string)
    ensures GetAdvice(n, rt, ingredients, profile).status == 400 <==> !AllStrings(ingredients)
    ensures GetAdvice(n, rt, ingredients, profile).status in {200, 400, 500}
  {
    if AllStrings(ingredients) {
      OutcomeFailure(n.client(AdviceRequest(AdvicePrompt(n, rt, Labels(ingredients), profile))), rt.loads);
    }
  }

  /**
   * With string ingredients the client receives one request whose user
   * message is the prompt, and that prompt carries the profile verbatim.
   */
  lemma GetAdviceAsks(n: Nutritionist, rt: Runtime, ingredients: seq<Json>, profile: string)
    requires AllStrings(ingredients)
    ensures var request := AdviceRequest(AdvicePrompt(n, rt, Labels(ingredients), profile));
            && request.messages[1].role == "user"
            && request.model == Model
            && GetAdvice(n, rt, ingredients, profile) == Outcome(n.client(request), rt.loads)
            && exists b: nat :: OccursAt(request.messages[1].content, profile, b)
  {
    var labels := Labels(ingredients);
    PromptCarriesInputs(n.template, rt.showAmounts(AmountMap(labels)), profile, rt.showIngredients(labels));
    var p := AdvicePrompt(n, rt, labels, profile);
    var a: nat, b: nat, c: nat :| OccursAt(p, ProfileLabel + profile, b);
    assert p[b + |ProfileLabel|..b + |ProfileLabel| + |profile|] == (ProfileLabel + profile)[|ProfileLabel|..];
    assert OccursAt(p, profile, b + |ProfileLabel|);
  }

  /** The amount map of the end-to-end example: only the label with an amount, mapped to it. */
  lemma ExampleAmountMap()
    ensures AmountMap(["Peanuts 10g", "Water"]) == [("Peanuts 10g", "10g")]
  {
    var s := "Peanuts 10g";
    assert DigitRun(s, 8) == 10 && BlankRun(s, 10) == 10;
    assert ScanAt(s, 8) == Some(11);
    assert forall k :: 0 <= k < 8 ==> DigitRun(s, k) == k;
    assert SearchFrom(s, 0) == SearchFrom(s, 8) == Some((8, 11));
    assert s[8..11] == "10g";
    ExampleWater();
    assert ["Peanuts 10g", "Water"][..1] == ["Peanuts 10g"];
    assert ["Peanuts 10g"][..0] == [];
  }
}
