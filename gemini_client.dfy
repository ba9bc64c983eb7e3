/** The Gemini client (src/gemini/mod.rs): the model names, the endpoint
    URL, the request each call sends, and the `LlmClient` view of the
    client. The HTTP exchange is a parameter. */
module Gemini {
  import opened Wrappers
  import opened Seqs
  import opened Utils
  import opened GeminiTypes
  import JsonValue
  import Errors
  import Provider

  const GEMINI_BASE_URL: string := "https://generativelanguage.googleapis.com/v1beta"
  const GEMINI_STREAM_ENDPOINT: string := ":streamGenerateContent"
  const GEMINI_ENDPOINT: string := ":generateContent"

  datatype GeminiModel = Gemini2Flash | Gemini2FlashLite

  /** `Display for GeminiModel`: the resource name of the model. */
  function ModelDisplay(m: GeminiModel): (s: string)
    ensures s == "models/gemini-2.0-flash" <==> m == Gemini2Flash
    ensures s == "models/gemini-2.0-flash-lite-preview-02-05" <==> m == Gemini2FlashLite
  {
    match m
    case Gemini2Flash => "models/gemini-2.0-flash"
    case Gemini2FlashLite => "models/gemini-2.0-flash-lite-preview-02-05"
  }

  /** A client: the model it talks to and the API key it sends. */
  datatype GeminiClient = GeminiClient(model: GeminiModel, key: string)

  /** `GeminiClient::new`. Building the HTTP client may fail with a
      `reqwest` error, given here as its text; that error becomes the
      `Reqwest` leaf. */
  function ClientNew(model: GeminiModel, key: string, builderError: Option<string>): (r: Result<GeminiClient, Errors.LlmError>)
    ensures r.Ok? <==> builderError.None?
    ensures r.Ok? ==> r.value.model == model && r.value.key == key
    ensures r.Err? ==> r.error.errorType == Errors.Reqwest(builderError.value)
  {
    match builderError
    case Some(text) => Err(Errors.New(Errors.FromForeign(Errors.ReqwestError(text))))
    case None => Ok(GeminiClient(model, key))
  }

  /** The query part of the URL: the key alone, or after the extra query.
      Either way the query starts the URL's query string and the key is its
      last parameter. */
  function Query(extraQuery: Option<string>, key: string): (q: string)
    ensures |q| >= |key| + 5 && q[0] == '?'
    ensures q[|q| - |key| - 4..] == "key=" + key
    ensures extraQuery.None? <==> q[..|q| - |key| - 4] == "?"
    ensures extraQuery.Some? ==> q[1..|q| - |key| - 5] == extraQuery.value && q[|q| - |key| - 5] == '&'
  {
    match extraQuery
    case Some(query) => "?" + query + "&key=" + key
    case None => "?key=" + key
  }

  /** `GeminiClient::endpoint_url`, as text: base, model, endpoint, query. */
  function EndpointUrl(c: GeminiClient, endpoint: string, extraQuery: Option<string>): (u: string)
    ensures var p := GEMINI_BASE_URL + "/" + ModelDisplay(c.model) + endpoint;
      |u| >= |p| + |c.key| + 5 && u[..|p|] == p && u[|p|..] == Query(extraQuery, c.key)
    ensures u[|u| - |c.key| - 4..] == "key=" + c.key
  {
    GEMINI_BASE_URL + "/" + ModelDisplay(c.model) + endpoint + Query(extraQuery, c.key)
  }

  lemma StripPrefix(p: string, a: string, b: string)
    requires p + a == p + b
    ensures a == b
  {
    assert a == (p + a)[|p|..];
    assert b == (p + b)[|p|..];
  }

  /** Two texts whose first characters differ stay different whatever
      follows them. */
  lemma HeadsDiffer(x: string, y: string, a: string, b: string)
    requires |x| > 0 && |y| > 0 && x[0] != y[0]
    ensures x + a != y + b
  {
    assert (x + a)[0] == x[0];
    assert (y + b)[0] == y[0];
  }

  /** The lite model's name extends the other model's name with a dash. */
  lemma LiteExtendsFlash()
    ensures ModelDisplay(Gemini2FlashLite) == ModelDisplay(Gemini2Flash) + "-lite-preview-02-05"
  {
  }

  /** Both endpoints start with a colon and differ at their second character. */
  lemma EndpointsDiffer(e: string, f: string)
    requires e in {GEMINI_STREAM_ENDPOINT, GEMINI_ENDPOINT} && f in {GEMINI_STREAM_ENDPOINT, GEMINI_ENDPOINT}
    ensures |e| >= 2 && |f| >= 2 && e[0] == ':'
    ensures e != f ==> e[1] != f[1]
  {
  }

  /** What follows the base URL and the slash. */
  function UrlTail(c: GeminiClient, endpoint: string): string
  {
    ModelDisplay(c.model) + (endpoint + ("?key=" + c.key))
  }

  lemma UrlHasTail(c: GeminiClient, endpoint: string)
    ensures EndpointUrl(c, endpoint, None) == (GEMINI_BASE_URL + "/") + UrlTail(c, endpoint)
  {
  }

  /** Texts that differ at their second character stay different whatever
      follows them. */
  lemma SecondCharsDiffer(e: string, f: string, x: string, y: string)
    requires |e| >= 2 && |f| >= 2 && e[1] != f[1]
    ensures e + x != f + y
  {
    assert (e + x)[1] == e[1];
    assert (f + y)[1] == f[1];
  }

  /** Same model: the endpoint and the key are recovered. */
  lemma SameModelTail(m: string, e: string, f: string, k: string, l: string)
    requires |e| >= 2 && |f| >= 2 && (e != f ==> e[1] != f[1])
    requires m + (e + ("?key=" + k)) == m + (f + ("?key=" + l))
    ensures e == f && k == l
  {
    StripPrefix(m, e + ("?key=" + k), f + ("?key=" + l));
    if e != f {
      SecondCharsDiffer(e, f, "?key=" + k, "?key=" + l);
    } else {
      StripPrefix(e, "?key=" + k, "?key=" + l);
      StripPrefix("?key=", k, l);
    }
  }

  /** Different models never give the same text. */
  lemma DifferentModelTail(e: string, f: string, k: string, l: string)
    requires e in {GEMINI_STREAM_ENDPOINT, GEMINI_ENDPOINT}
    ensures UrlTail(GeminiClient(Gemini2Flash, k), e) != UrlTail(GeminiClient(Gemini2FlashLite, l), f)
  {
    var short := ModelDisplay(Gemini2Flash);
    var suffix := "-lite-preview-02-05";
    LiteExtendsFlash();
    EndpointsDiffer(e, e);
    assert UrlTail(GeminiClient(Gemini2FlashLite, l), f) == short + (suffix + (f + ("?key=" + l)));
    if UrlTail(GeminiClient(Gemini2Flash, k), e) == UrlTail(GeminiClient(Gemini2FlashLite, l), f) {
      StripPrefix(short, e + ("?key=" + k), suffix + (f + ("?key=" + l)));
      HeadsDiffer(e, suffix, "?key=" + k, f + ("?key=" + l));
    }
  }

  /** On the two endpoints the client calls, the URL gives back the model,
      the endpoint and the key it was built from. */
  lemma EndpointUrlDetermines(c: GeminiClient, d: GeminiClient, e: string, f: string)
    requires e in {GEMINI_STREAM_ENDPOINT, GEMINI_ENDPOINT} && f in {GEMINI_STREAM_ENDPOINT, GEMINI_ENDPOINT}
    requires EndpointUrl(c, e, None) == EndpointUrl(d, f, None)
    ensures c == d && e == f
  {
    UrlHasTail(c, e);
    UrlHasTail(d, f);
    StripPrefix(GEMINI_BASE_URL + "/", UrlTail(c, e), UrlTail(d, f));
    if c.model == d.model {
      EndpointsDiffer(e, f);
      SameModelTail(ModelDisplay(c.model), e, f, c.key, d.key);
    } else if c.model == Gemini2Flash {
      DifferentModelTail(e, f, c.key, d.key);
    } else {
      DifferentModelTail(f, e, d.key, c.key);
    }
  }

  /** The streaming URL of a client. */
  function StreamUrl(c: GeminiClient): string
  {
    EndpointUrl(c, GEMINI_STREAM_ENDPOINT, None)
  }

  /** The buffered URL of a client. */
  function BufferedUrl(c: GeminiClient): string
  {
    EndpointUrl(c, GEMINI_ENDPOINT, None)
  }

  /** Both calls send the key as the only query parameter, after the
      model's name and the endpoint, and the two URLs differ. */
  lemma CallUrls(c: GeminiClient)
    ensures StreamUrl(c) == GEMINI_BASE_URL + "/" + ModelDisplay(c.model) + ":streamGenerateContent" + "?key=" + c.key
    ensures BufferedUrl(c) == GEMINI_BASE_URL + "/" + ModelDisplay(c.model) + ":generateContent" + "?key=" + c.key
    ensures StreamUrl(c) != BufferedUrl(c)
  {
    var head := GEMINI_BASE_URL + "/" + ModelDisplay(c.model);
    assert StreamUrl(c) == head + ":streamGenerateContent" + "?key=" + c.key by {
      assert Query(None, c.key) == "?key=" + c.key;
      AppendAssoc(head + ":streamGenerateContent", "?key=", c.key);
    }
    assert BufferedUrl(c) == head + ":generateContent" + "?key=" + c.key by {
      assert Query(None, c.key) == "?key=" + c.key;
      AppendAssoc(head + ":generateContent", "?key=", c.key);
    }
    if StreamUrl(c) == BufferedUrl(c) {
      EndpointUrlDetermines(c, c, GEMINI_STREAM_ENDPOINT, GEMINI_ENDPOINT);
    }
  }

  /** The HTTP exchange: a POST of a request to a URL, answered buffered
      with a JSON value or streamed with an opaque byte stream. */
  datatype Transport<S> = Transport(
    post: (string, GeminiRequest) -> Result<JsonValue.Json, Errors.LlmError>,
    postStream: (string, GeminiRequest) -> Result<S, Errors.LlmError>)

  /** The request the `*_inner` calls build: every item converted to a
      content, in iteration order. */
  function RequestFor<T>(input: SingleOrMultiple<T>, into: T -> GeminiContent): (r: GeminiRequest)
    ensures |r.contents| == |IntoIter(input)|
    ensures forall i :: 0 <= i < |r.contents| ==> r.contents[i] == into(IntoIter(input)[i])
  {
    GeminiRequest(MapSeq(into, IntoIter(input)))
  }

  /** `stream_generate_content_inner`: the request goes to the streaming
      endpoint with no extra query. */
  function StreamGenerateContentInner<S, T>(c: GeminiClient, t: Transport<S>, input: SingleOrMultiple<T>, into: T -> GeminiContent): (r: Result<S, Errors.LlmError>)
    ensures exists req: GeminiRequest ::
              (r == t.postStream(StreamUrl(c), req) &&
               |req.contents| == |IntoIter(input)| &&
               forall i :: 0 <= i < |req.contents| ==> req.contents[i] == into(IntoIter(input)[i]))
  {
    var req := RequestFor(input, into);
    t.postStream(StreamUrl(c), req)
  }

  /** `generate_content_inner`: the request goes to the buffered endpoint
      with no extra query. */
  function GenerateContentInner<S, T>(c: GeminiClient, t: Transport<S>, input: SingleOrMultiple<T>, into: T -> GeminiContent): (r: Result<JsonValue.Json, Errors.LlmError>)
    ensures exists req: GeminiRequest ::
              (r == t.post(BufferedUrl(c), req) &&
               |req.contents| == |IntoIter(input)| &&
               forall i :: 0 <= i < |req.contents| ==> req.contents[i] == into(IntoIter(input)[i]))
  {
    var req := RequestFor(input, into);
    t.post(BufferedUrl(c), req)
  }

  function Id(x: GeminiContent): GeminiContent { x }

  /** `stream_generate_content`: one input becomes a one-content request. */
  function StreamGenerateContent<S, T>(c: GeminiClient, t: Transport<S>, input: T, into: T -> GeminiContent): (r: Result<S, Errors.LlmError>)
    ensures r == t.postStream(StreamUrl(c), GeminiRequest([into(input)]))
  {
    var req := RequestFor(Single(input), into);
    assert req.contents == [into(input)];
    StreamGenerateContentInner(c, t, Single(input), into)
  }

  /** `generate_content`: one input becomes a one-content request. */
  function GenerateContent<S, T>(c: GeminiClient, t: Transport<S>, input: T, into: T -> GeminiContent): (r: Result<JsonValue.Json, Errors.LlmError>)
    ensures r == t.post(BufferedUrl(c), GeminiRequest([into(input)]))
  {
    var req := RequestFor(Single(input), into);
    assert req.contents == [into(input)];
    GenerateContentInner(c, t, Single(input), into)
  }

  /** `stream_generate_content_iter`: the inputs become the request's
      contents, one each, in order. */
  function StreamGenerateContentIter<S, T>(c: GeminiClient, t: Transport<S>, input: seq<T>, into: T -> GeminiContent): (r: Result<S, Errors.LlmError>)
    ensures r == t.postStream(StreamUrl(c), GeminiRequest(MapSeq(into, input)))
  {
    var items := MapSeq(into, input);
    assert RequestFor(Multiple(items), Id).contents == items;
    StreamGenerateContentInner(c, t, Multiple(items), Id)
  }

  /** `generate_content_iter`: the inputs become the request's contents,
      one each, in order. */
  function GenerateContentIter<S, T>(c: GeminiClient, t: Transport<S>, input: seq<T>, into: T -> GeminiContent): (r: Result<JsonValue.Json, Errors.LlmError>)
    ensures r == t.post(BufferedUrl(c), GeminiRequest(MapSeq(into, input)))
  {
    var items := MapSeq(into, input);
    assert RequestFor(Multiple(items), Id).contents == items;
    GenerateContentInner(c, t, Multiple(items), Id)
  }

  lemma MapIdentity(cs: seq<GeminiContent>)
    ensures MapSeq(Id, cs) == cs
  {
    assert |MapSeq(Id, cs)| == |cs|;
  }

  /** `LlmClient::chat_completion` for the Gemini client:
      `generate_content_iter` on the contents as given. */
  function ChatCompletion<S>(c: GeminiClient, t: Transport<S>, cs: seq<GeminiContent>): (r: Result<JsonValue.Json, Errors.LlmError>)
    ensures r == t.post(BufferedUrl(c), GeminiRequest(cs))
  {
    MapIdentity(cs);
    GenerateContentIter(c, t, cs, Id)
  }

  /** `LlmClient::stream_chat_completion` for the Gemini client:
      `stream_generate_content_iter` on the contents as given. */
  function StreamChatCompletion<S>(c: GeminiClient, t: Transport<S>, cs: seq<GeminiContent>): (r: Result<S, Errors.LlmError>)
    ensures r == t.postStream(StreamUrl(c), GeminiRequest(cs))
  {
    MapIdentity(cs);
    StreamGenerateContentIter(c, t, cs, Id)
  }

  /** `impl LlmClient for GeminiClient`: the two completions of the client
      capability are the two calls above. */
  function AsLlmClient<S>(c: GeminiClient, t: Transport<S>): (l: Provider.LlmClient<seq<GeminiContent>, JsonValue.Json, S, Errors.LlmError>)
    ensures forall cs :: l.chatCompletion(cs) == ChatCompletion(c, t, cs)
    ensures forall cs :: l.streamChatCompletion(cs) == StreamChatCompletion(c, t, cs)
  {
    Provider.LlmClient(
      (cs: seq<GeminiContent>) => ChatCompletion(c, t, cs),
      (cs: seq<GeminiContent>) => StreamChatCompletion(c, t, cs))
  }
}
