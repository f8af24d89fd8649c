/** Routed retrieval: an LLM picks one of two retrievers for a question (as a
    structured `RouteOutput`), and `routed_retriever` dispatches the question to
    the chosen one. The retrievers themselves are a parameter: `search` gives the
    documents a retriever returns for a question. */
module Routing {
  import opened Wrappers
  import opened Loader

  /** `class Route(str, Enum)`. */
  datatype Route = LangchainDocument | Web

  /** The string value of each member; a `str` enum member compares equal to it. */
  function RouteValue(r: Route): string {
    match r
    case LangchainDocument => "langchain_document"
    case Web => "web"
  }

  /** `RouteOutput(route=...)` validation: only the two member values are accepted. */
  function ParseRoute(s: string): (r: Result<Route>)
    ensures r.Ok? ==> RouteValue(r.value) == s
    ensures r.Err? ==> r.error == ValidationError
  {
    if s == "langchain_document" then Ok(LangchainDocument)
    else if s == "web" then Ok(Web)
    else Err(ValidationError)
  }

  lemma ParseRouteRoundTrip(r: Route)
    ensures ParseRoute(RouteValue(r)) == Ok(r)
  {
  }

  /** Whatever validates is the value of the route it yields; everything else is a
      validation error. */
  lemma ParseRouteExact(s: string)
    ensures ParseRoute(s).Ok? ==> RouteValue(ParseRoute(s).value) == s
    ensures ParseRoute(s).Ok? <==> exists r: Route :: RouteValue(r) == s
    ensures ParseRoute(s).Err? ==> ParseRoute(s).error == ValidationError
  {
    if ParseRoute(s).Err? {
      forall r: Route ensures RouteValue(r) != s {
      }
    }
  }

  /** The two retrievers: the vector store over the LangChain documents, and the
      Tavily web search configured with `k=3`. */
  datatype Retriever = LangchainDocumentRetriever | WebRetriever(k: nat)

  const WebResultCount: nat := 3

  function RetrieverFor(r: Route): Retriever {
    match r
    case LangchainDocument => LangchainDocumentRetriever
    case Web => WebRetriever(WebResultCount)
  }

  /** One retriever invocation: which retriever, on which question. */
  datatype Search = Search(retriever: Retriever, question: string)

  /** `routed_retriever(inp)`: `inp["question"]` and `inp["route"]` (a missing key
      raises KeyError), then the route is compared with each member's value in turn;
      an unknown route raises ValueError. */
  function RoutedRetriever(inp: map<string, string>, search: Search -> seq<Document>): (r: Result<seq<Document>>)
    ensures ("question" !in inp || "route" !in inp) ==> r == Err(KeyError)
    ensures "question" in inp && "route" in inp ==>
              (r.Ok? <==> ParseRoute(inp["route"]).Ok?)
              && (r.Ok? ==> r.value == search(Search(RetrieverFor(ParseRoute(inp["route"]).value), inp["question"])))
              && (r.Err? ==> r.error == ValueError)
  {
    if "question" !in inp then Err(KeyError)
    else
      var question := inp["question"];
      if "route" !in inp then Err(KeyError)
      else
        var route := inp["route"];
        if route == RouteValue(LangchainDocument) then Ok(search(Search(RetrieverFor(LangchainDocument), question)))
        else if route == RouteValue(Web) then Ok(search(Search(RetrieverFor(Web), question)))
        else Err(ValueError)
  }

  /** `route_rag_chain` up to the retrieved context: the question is passed on
      unchanged, the model's structured answer `llmRoute` is validated into a
      `RouteOutput`, and `routed_retriever` receives both. */
  function RouteAndRetrieve(question: string, llmRoute: string, search: Search -> seq<Document>): (r: Result<seq<Document>>)
    ensures r.Err? ==> r.error == ValidationError
  {
    var route :- ParseRoute(llmRoute);
    RoutedRetriever(map["question" := question, "route" := RouteValue(route)], search)
  }

  /** Within the chain, `routed_retriever`'s ValueError is unreachable, and the
      question goes to exactly the retriever the model chose. */
  lemma ChainDispatchesChosenRoute(question: string, route: Route, search: Search -> seq<Document>)
    ensures RouteAndRetrieve(question, RouteValue(route), search)
         == Ok(search(Search(RetrieverFor(route), question)))
  {
    ParseRouteRoundTrip(route);
  }

  /** The web route always asks Tavily for three results. */
  lemma WebRouteAsksForThree(inp: map<string, string>, search: Search -> seq<Document>)
    requires "question" in inp && "route" in inp && inp["route"] == "web"
    ensures RoutedRetriever(inp, search) == Ok(search(Search(RetrieverFor(Web), inp["question"])))
    ensures RetrieverFor(Web) == WebRetriever(3)
  {
  }
}
