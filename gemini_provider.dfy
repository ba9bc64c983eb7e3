/** The Gemini client seen through the provider front end: what `generate`
    does when the client is the Gemini client. */
module GeminiProvider {
  import opened Wrappers
  import opened GeminiTypes
  import opened Gemini
  import Provider

  /** Through the provider, a streaming call on the Gemini client posts the
      contents unchanged to the streaming URL and returns its stream or its
      error. */
  lemma ProviderStreamsOverGemini<S>(c: GeminiClient, t: Transport<S>, cs: seq<GeminiContent>)
    ensures var sent := t.postStream(StreamUrl(c), GeminiRequest(cs));
      var r := Provider.Generate(Provider.New(AsLlmClient(c, t)), cs, true);
      (sent.Ok? ==> r == Ok(Provider.Stream(sent.value))) && (sent.Err? ==> r == Err(sent.error))
  {
    var sent := t.postStream(StreamUrl(c), GeminiRequest(cs));
    var l := AsLlmClient(c, t);
    var p := Provider.New(l);
    assert p.inner.streamChatCompletion(cs) == StreamChatCompletion(c, t, cs) == sent;
    var r := Provider.Generate(p, cs, true);
    if sent.Ok? {
      assert r == Ok(Provider.Stream(sent.value));
    } else {
      assert r == Err(sent.error);
    }
  }

  /** Through the provider, a buffered call on the Gemini client posts the
      contents unchanged to the buffered URL and returns its JSON value or
      its error. */
  lemma ProviderBuffersOverGemini<S>(c: GeminiClient, t: Transport<S>, cs: seq<GeminiContent>)
    ensures var sent := t.post(BufferedUrl(c), GeminiRequest(cs));
      var r := Provider.Generate(Provider.New(AsLlmClient(c, t)), cs, false);
      (sent.Ok? ==> r == Ok(Provider.Static(sent.value))) && (sent.Err? ==> r == Err(sent.error))
  {
    var sent := t.post(BufferedUrl(c), GeminiRequest(cs));
    var l := AsLlmClient(c, t);
    var p := Provider.New(l);
    assert p.inner.chatCompletion(cs) == ChatCompletion(c, t, cs) == sent;
    var r := Provider.Generate(p, cs, false);
    if sent.Ok? {
      assert r == Ok(Provider.Static(sent.value));
    } else {
      assert r == Err(sent.error);
    }
  }
}
