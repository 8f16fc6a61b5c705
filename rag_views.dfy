/**
  The request router of the chat endpoint (rag/rag_views.py): a question
  goes to the store locator, the graph pipeline or the vector retrieval
  pipeline. The three handlers are oracles that either answer or raise.
 */
module RagViews {
  import opened Text
  import opened Records
  import opened Wrappers

  /** A JSON coordinate as the request carries it. */
  datatype Coordinate = Missing | Number(value: real) | Textual(s: string)

  /** Python truthiness: null, 0 and "" are false. */
  predicate Truthy(c: Coordinate) {
    match c
    case Missing => false
    case Number(v) => v != 0.0
    case Textual(s) => s != ""
  }

  /** What a handler did: produced an answer, or raised with a message. */
  datatype Outcome = Answered(body: string) | Raised(message: string)

  /** The HTTP reply: a status and either an answer or an error text, or
      an exception that escapes the view (the framework then answers with
      its own server error). */
  datatype Reply = Ok(body: string) | Error(status: int, error: string) | Unhandled(exception: string)

  datatype Route = MissingQuestion | StoreLocator | GraphQuery | VectorRag

  const NutritionWords: seq<string> := ["calories", "fat", "carbohydrates", "protein", "sugar", "sodium"]

  /** The graph pipeline's trigger words: "how many", "how much" or a
      nutrient. */
  predicate AsksQuantity(q: string) {
    Contains(q, "how many") || Contains(q, "how much") ||
    exists k :: 0 <= k < |NutritionWords| && Contains(q, NutritionWords[k])
  }

  /** The route for a question and its coordinates: the question is
      lower-cased first; empty is refused; "where" and "buy" with both
      coordinates truthy go to the store locator; quantity words go to the
      graph pipeline; anything else to vector retrieval. */
  function ChooseRoute(question: string, lat: Coordinate, lon: Coordinate): (r: Route)
    ensures r == MissingQuestion <==> question == ""
    ensures r == StoreLocator <==>
      question != "" && Contains(Lower(question), "where") && Contains(Lower(question), "buy") && Truthy(lat) && Truthy(lon)
    ensures r == GraphQuery ==> AsksQuantity(Lower(question))
    ensures r == VectorRag ==> question != "" && !AsksQuantity(Lower(question))
  {
    var q := Lower(question);
    if q == "" then MissingQuestion
    else if Contains(q, "where") && Contains(q, "buy") && Truthy(lat) && Truthy(lon) then StoreLocator
    else if AsksQuantity(q) then GraphQuery
    else VectorRag
  }

  /** Routing ignores ASCII case: questions equal up to case take the same
      route. */
  lemma RouteIgnoresCase(q1: string, q2: string, lat: Coordinate, lon: Coordinate)
    requires Lower(q1) == Lower(q2)
    ensures ChooseRoute(q1, lat, lon) == ChooseRoute(q2, lat, lon)
  {
    assert |q1| == |Lower(q1)|;
  }

  /** A zero coordinate never reaches the store locator. */
  lemma ZeroCoordinateNeverStore(question: string, lon: Coordinate)
    ensures ChooseRoute(question, Number(0.0), lon) != StoreLocator
    ensures ChooseRoute(question, lon, Number(0.0)) != StoreLocator
  {
  }

  /** The result of `float(x)`: a number, or the message of the
      `ValueError` or `TypeError` it raises. */
  datatype Conversion = Converted(value: real) | NotConverted(message: string)

  /** `float(x)` on a coordinate: numbers convert, null raises a
      `TypeError`, and text goes through the given parser, which returns the
      message Python raises with when the text is not a number. */
  function ToFloat(c: Coordinate, parse: string -> Conversion): (r: Conversion)
    ensures c.Number? ==> r == Converted(c.value)
    ensures c.Textual? ==> r == parse(c.s)
  {
    match c
    case Missing => NotConverted("float() argument must be a string or a real number, not 'NoneType'")
    case Number(v) => Converted(v)
    case Textual(s) => parse(s)
  }

  /** Turns a handler's outcome into the reply: an answer is returned, a
      raise becomes status 500 with its message. */
  function Respond(o: Outcome): (r: Reply)
    ensures o.Answered? ==> r == Ok(o.body)
    ensures o.Raised? ==> r == Error(500, o.message)
  {
    match o
    case Answered(body) => Ok(body)
    case Raised(message) => Error(500, message)
  }

  /** The message `.lower()` raises with on a missing question. */
  const NoLower := "'NoneType' object has no attribute 'lower'"

  /** The body of `rag_ask_view`, given how it calls the graph and the
      vector handlers on the lower-cased question: a missing question
      raises before the `try`; an empty one is refused; the store locator
      gets the question with `float(lon)` and then `float(lat)`, and a
      failing conversion is caught like any raise. */
  function View(question: Value, lat: Coordinate, lon: Coordinate, parse: string -> Conversion,
                store: (string, real, real) -> Outcome,
                graphCall: string -> Outcome, ragCall: string -> Outcome): (r: Reply)
    ensures question.Null? <==> r == Unhandled(NoLower)
    ensures question == Str("") <==> r == Error(400, "Missing question")
    ensures r.Error? ==> r.status == 400 || r.status == 500
    ensures question.Str? && ChooseRoute(question.s, lat, lon) == StoreLocator ==>
      (match (ToFloat(lon, parse), ToFloat(lat, parse))
       case (NotConverted(e), _) => r == Error(500, e)
       case (Converted(_), NotConverted(e)) => r == Error(500, e)
       case (Converted(x), Converted(y)) => r == Respond(store(Lower(question.s), x, y)))
    ensures question.Str? && ChooseRoute(question.s, lat, lon) == GraphQuery ==> r == Respond(graphCall(Lower(question.s)))
    ensures question.Str? && ChooseRoute(question.s, lat, lon) == VectorRag ==> r == Respond(ragCall(Lower(question.s)))
  {
    match question
    case Null => Unhandled(NoLower)
    case Str(text) =>
      var q := Lower(text);
      match ChooseRoute(text, lat, lon)
      case MissingQuestion => Error(400, "Missing question")
      case StoreLocator =>
        (match ToFloat(lon, parse)
         case NotConverted(e) => Error(500, e)
         case Converted(x) =>
           match ToFloat(lat, parse)
           case NotConverted(e) => Error(500, e)
           case Converted(y) => Respond(store(q, x, y)))
      case GraphQuery => Respond(graphCall(q))
      case VectorRag => Respond(ragCall(q))
  }

  /** The `TypeError` message of a call that leaves out the required
      `chat_history` argument. */
  function MissingHistory(callee: string): string {
    callee + "() missing 1 required positional argument: 'chat_history'"
  }

  /** `rag_ask_view` as written: `grag_view(question)` and
      `query_with_langchain_rag(question, chatbot_name=name)` both leave
      out `chat_history`, so those routes always raise a `TypeError` that
      the view answers with status 500; only the store locator can answer. */
  function RagAsk(question: Value, name: Value, lat: Coordinate, lon: Coordinate,
                  parse: string -> Conversion, store: (string, real, real) -> Outcome): (r: Reply)
    ensures question.Null? <==> r == Unhandled(NoLower)
    ensures question == Str("") <==> r == Error(400, "Missing question")
    ensures question.Str? && ChooseRoute(question.s, lat, lon) == GraphQuery ==>
      r == Error(500, MissingHistory("grag_view"))
    ensures question.Str? && ChooseRoute(question.s, lat, lon) == VectorRag ==>
      r == Error(500, MissingHistory("query_with_langchain_rag"))
    ensures r.Ok? ==> question.Str? && ChooseRoute(question.s, lat, lon) == StoreLocator
  {
    View(question, lat, lon, parse, store,
         q => Raised(MissingHistory("grag_view")),
         q => Raised(MissingHistory("query_with_langchain_rag")))
  }

  /** A product question with no quantity word is answered with a server
      error, whatever the retrieval pipeline would have said. */
  lemma ProductQuestionFails(name: Value, lat: Coordinate, lon: Coordinate,
                             parse: string -> Conversion, store: (string, real, real) -> Outcome)
    ensures RagAsk(Str("kit kat"), name, lat, lon, parse, store) ==
      Error(500, MissingHistory("query_with_langchain_rag"))
  {
    ProductQuestionIsVector(lat, lon);
  }

  /** "kit kat" is lower case and has no "where" and no
      quantity word, so it takes the vector route. */
  lemma ProductQuestionIsVector(lat: Coordinate, lon: Coordinate)
    ensures Lower("kit kat") == "kit kat"
    ensures ChooseRoute("kit kat", lat, lon) == VectorRag
  {
    ProductQuestionLower();
    ProductQuestionWords();
    VectorRoute("kit kat", lat, lon);
  }

  lemma ProductQuestionLower()
    ensures Lower("kit kat") == "kit kat"
  {
    LowerNoUpper("kit kat");
  }

  lemma ProductQuestionWords()
    ensures !Contains("kit kat", "where") && !AsksQuantity("kit kat")
  {
    var q := "kit kat";
    ProductQuestionLetters();
    LeadAbsent(q, "where");
    LeadAbsent(q, "how many");
    LeadAbsent(q, "how much");
    forall k | 0 <= k < |NutritionWords|
      ensures !Contains(q, NutritionWords[k])
    {
      LeadAbsent(q, NutritionWords[k]);
    }
  }

  lemma ProductQuestionLetters()
    ensures forall c :: c in "kit kat" ==> c !in "whcfps"
    ensures forall k :: 0 <= k < |NutritionWords| ==> NutritionWords[k] != [] && NutritionWords[k][0] in "cfps"
  {
  }

  /** A lower-case question without "where" or a quantity word takes the
      vector route. */
  lemma VectorRoute(q: string, lat: Coordinate, lon: Coordinate)
    requires q != [] && Lower(q) == q && !Contains(q, "where") && !AsksQuantity(q)
    ensures ChooseRoute(q, lat, lon) == VectorRag
  {
  }

  /** A quantity question is answered with a server error, whatever the
      graph pipeline would have said. */
  lemma QuantityQuestionFails(name: Value, lat: Coordinate, lon: Coordinate,
                              parse: string -> Conversion, store: (string, real, real) -> Outcome)
    ensures RagAsk(Str("how many calories"), name, lat, lon, parse, store) == Error(500, MissingHistory("grag_view"))
  {
    QuantityQuestionIsGraph(lat, lon);
  }

  /** "how many calories" is lower case, asks a quantity and has no "buy",
      so it takes the graph route. */
  lemma QuantityQuestionIsGraph(lat: Coordinate, lon: Coordinate)
    ensures Lower("how many calories") == "how many calories"
    ensures ChooseRoute("how many calories", lat, lon) == GraphQuery
  {
    QuantityQuestionLower();
    QuantityQuestionWords();
    GraphRoute("how many calories", lat, lon);
  }

  lemma QuantityQuestionLower()
    ensures Lower("how many calories") == "how many calories"
  {
    LowerNoUpper("how many calories");
  }

  lemma QuantityQuestionWords()
    ensures Contains("how many calories", "how many") && AsksQuantity("how many calories")
    ensures !Contains("how many calories", "buy")
  {
    var q := "how many calories";
    assert "how many" <= q;
    assert 'b' !in q;
    LeadAbsent(q, "buy");
  }

  /** A lower-case question that asks a quantity and has no "buy" takes
      the graph route. */
  lemma GraphRoute(q: string, lat: Coordinate, lon: Coordinate)
    requires q != [] && Lower(q) == q && !Contains(q, "buy") && AsksQuantity(q)
    ensures ChooseRoute(q, lat, lon) == GraphQuery
  {
  }

  /** A text lacking a pattern's first character does not contain it. */
  lemma {:induction false} LeadAbsent(s: string, p: string)
    requires p != [] && p[0] !in s
    ensures !Contains(s, p)
  {
    if s != [] {
      assert s[1..] <= s[1..] && forall c :: c in s[1..] ==> c in s;
      LeadAbsent(s[1..], p);
    }
  }

  /** The router with the chat history passed on, as both handlers require:
      a handler's answer is the reply on its route. */
  function RagAskWithHistory<H>(question: Value, name: Value, lat: Coordinate, lon: Coordinate, history: H,
                                parse: string -> Conversion, store: (string, real, real) -> Outcome,
                                graph: (string, H) -> Outcome, rag: (string, Value, H) -> Outcome): (r: Reply)
    ensures question.Null? <==> r == Unhandled(NoLower)
    ensures question == Str("") <==> r == Error(400, "Missing question")
    ensures question.Str? && ChooseRoute(question.s, lat, lon) == GraphQuery ==>
      r == Respond(graph(Lower(question.s), history))
    ensures question.Str? && ChooseRoute(question.s, lat, lon) == VectorRag ==>
      r == Respond(rag(Lower(question.s), name, history))
  {
    View(question, lat, lon, parse, store, q => graph(q, history), q => rag(q, name, history))
  }

  /** With the history passed on, a product question that the retrieval
      pipeline answers is answered. */
  lemma ProductQuestionAnswered<H>(name: Value, lat: Coordinate, lon: Coordinate, history: H,
                                   parse: string -> Conversion, store: (string, real, real) -> Outcome,
                                   graph: (string, H) -> Outcome, rag: (string, Value, H) -> Outcome)
    requires rag("kit kat", name, history).Answered?
    ensures RagAskWithHistory(Str("kit kat"), name, lat, lon, history, parse, store, graph, rag) ==
      Ok(rag("kit kat", name, history).body)
  {
    ProductQuestionIsVector(lat, lon);
    VectorAnswered("kit kat", name, lat, lon, history, parse, store, graph, rag);
  }

  lemma VectorAnswered<H>(q: string, name: Value, lat: Coordinate, lon: Coordinate, history: H,
                          parse: string -> Conversion, store: (string, real, real) -> Outcome,
                          graph: (string, H) -> Outcome, rag: (string, Value, H) -> Outcome)
    requires ChooseRoute(q, lat, lon) == VectorRag && Lower(q) == q && rag(q, name, history).Answered?
    ensures RagAskWithHistory(Str(q), name, lat, lon, history, parse, store, graph, rag) == Ok(rag(q, name, history).body)
  {
  }
}
