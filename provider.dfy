/** The provider front end: a client offering a buffered and a streaming
    completion, and `generate`, which picks one of the two by a flag. */
module Provider {
  import opened Wrappers

  /** `MaybeStream<T, ST>`: a whole response or a stream of partial ones.
      The stream is opaque here. */
  datatype MaybeStream<T, ST> = Static(value: T) | Stream(stream: ST)
  {
    /** `is_static` (derived). */
    predicate IsStatic(): (b: bool)
      ensures b <==> TryUnwrapStatic().Ok?
      ensures b <==> !TryUnwrapStream().Ok?
    {
      Static?
    }

    /** `is_stream` (derived). */
    predicate IsStream(): (b: bool)
      ensures b <==> TryUnwrapStream().Ok?
      ensures b <==> !TryUnwrapStatic().Ok?
    {
      Stream?
    }

    /** `unwrap_static`; the derived method panics on the other variant. */
    function UnwrapStatic(): (v: T)
      requires Static?
      ensures this == Static(v)
    {
      value
    }

    /** `unwrap_stream`; the derived method panics on the other variant. */
    function UnwrapStream(): (s: ST)
      requires Stream?
      ensures this == Stream(s)
    {
      stream
    }

    /** `try_unwrap_static`: the value, or the untouched input back. */
    function TryUnwrapStatic(): (r: Result<T, MaybeStream<T, ST>>)
      ensures r.Ok? <==> Static?
      ensures r.Ok? ==> this == Static(r.value)
      ensures r.Err? ==> r.error == this
    {
      if Static? then Ok(value) else Err(this)
    }

    /** `try_unwrap_stream`: the stream, or the untouched input back. */
    function TryUnwrapStream(): (r: Result<ST, MaybeStream<T, ST>>)
      ensures r.Ok? <==> Stream?
      ensures r.Ok? ==> this == Stream(r.value)
      ensures r.Err? ==> r.error == this
    {
      if Stream? then Ok(stream) else Err(this)
    }
  }

  /** The two variants are exclusive and exhaustive, and each accessor
      succeeds on exactly its own variant. */
  lemma ExactlyOneVariant<T, ST>(m: MaybeStream<T, ST>)
    ensures m.IsStatic() != m.IsStream()
    ensures m.TryUnwrapStatic().Ok? <==> !m.IsStream()
    ensures m.TryUnwrapStream().Ok? <==> !m.IsStatic()
  {
  }

  /** The `LlmClient` capability: the two completion calls, with their
      network effects already folded into the functions. */
  datatype LlmClient<!I, O, ST, E> = LlmClient(
    chatCompletion: I -> Result<O, E>,
    streamChatCompletion: I -> Result<ST, E>)

  /** `LlmProvider<T>`: a wrapper owning one client. */
  datatype LlmProvider<!I, O, ST, E> = LlmProvider(inner: LlmClient<I, O, ST, E>)

  /** `LlmProvider::new`: the client is stored unchanged. */
  function New<I, O, ST, E>(c: LlmClient<I, O, ST, E>): (p: LlmProvider<I, O, ST, E>)
    ensures p.inner == c
  {
    LlmProvider(c)
  }

  /** `LlmProvider::generate`. The flag chooses the operation; success is
      wrapped in the matching variant, and an error is passed through as it
      came. */
  function Generate<I, O, ST, E>(p: LlmProvider<I, O, ST, E>, input: I, stream: bool): (r: Result<MaybeStream<O, ST>, E>)
    ensures stream && p.inner.streamChatCompletion(input).Ok? ==>
      r == Ok(Stream(p.inner.streamChatCompletion(input).value))
    ensures stream && p.inner.streamChatCompletion(input).Err? ==>
      r == Err(p.inner.streamChatCompletion(input).error)
    ensures !stream && p.inner.chatCompletion(input).Ok? ==>
      r == Ok(Static(p.inner.chatCompletion(input).value))
    ensures !stream && p.inner.chatCompletion(input).Err? ==>
      r == Err(p.inner.chatCompletion(input).error)
    ensures r.Ok? ==> (r.value.IsStream() <==> stream)
  {
    if stream then
      match p.inner.streamChatCompletion(input)
      case Ok(s) => Ok(Stream(s))
      case Err(e) => Err(e)
    else
      match p.inner.chatCompletion(input)
      case Ok(o) => Ok(Static(o))
      case Err(e) => Err(e)
  }

  /** Only the chosen operation matters: two clients that agree on it give
      the same answer, whatever the other operation does. */
  lemma GenerateUsesOnlyChosenOperation<I, O, ST, E>(
    p: LlmProvider<I, O, ST, E>, q: LlmProvider<I, O, ST, E>, input: I, stream: bool)
    requires stream ==> p.inner.streamChatCompletion(input) == q.inner.streamChatCompletion(input)
    requires !stream ==> p.inner.chatCompletion(input) == q.inner.chatCompletion(input)
    ensures Generate(p, input, stream) == Generate(q, input, stream)
  {
  }
}
