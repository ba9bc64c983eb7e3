# tosic-llm in Dafny

A model of the core of the `tosic-llm` Rust crate. The crate is a small client library for large language model APIs, with Google Gemini as its one provider. The model covers these pieces:

- **Error chain** (`Errors`): the `LlmErrorType` / `LlmError` kinds, `add_context` and `new_context`, the three `WithContext` adapters, `source()`, the rendered `Display` text, `ErrorContext` and the `ensure!` macro.
- **Provider front end** (`Provider`): `MaybeStream`, `LlmProvider::new` and `generate`. One flag chooses between the client's buffered and streaming completion.
- **Message types** (`Types`, `GeminiTypes`, `Utils`): the provider-independent messages and the Gemini request types, their constructors, and their display and serde wire names. `SingleOrMultiple` is included as well.
- **Conversions** (`GeminiImpls`): domain parts, messages and conversations into Gemini parts, contents and requests.
- **Gemini client** (`Gemini`, `GeminiProvider`): model names, the endpoint URL text, the request each call sends, and the `LlmClient` delegation, including as seen through the provider.
- **Example program** (`ResponseParser`): the streamed-response parser of `examples/gemini.rs`, a class with its two flags and `parse_chunk`. Also the `ask_ai` loop, which feeds every chunk to the parser, writes the text fragments and counts their UTF-8 bytes.

Modelling choices:

- **The client capability** (`LlmClient`): a datatype holding two function fields, one per completion call.
- **The HTTP exchange** (`Gemini.Transport`): a pair of functions from a URL and a request to a JSON answer or an opaque stream.
- **`serde_json::from_str`**: a function parameter `parse` of every operation that decodes JSON.
- **Keys and failures**: the API key is a parameter, and so is the failure of the HTTP client builder.

Streams are finite sequences of reads, each a chunk of text or an error. Strings are `seq<char>`. UTF-8 byte lengths are computed from code points.

Three behaviours of the code differ from what a reader might expect, and the model follows the code:

- A `Context` chain renders its outermost message, then one line per context layer. The leaf error at the bottom is never rendered (src/error.rs:100-112).
- The comment at examples/gemini.rs:46 speaks of removing one leading comma. `trim_start_matches(",")` on line 48 removes every leading comma. Whitespace is trimmed only when the chunk starts with a comma.
- The parser's two flags are written but never read, so the result of a chunk does not depend on them.

## Model

| member | source | states |
|---|---|---|
| Utils.FromIter | src/utils/mod.rs:12-16 | `from_iter` always gives `Multiple`, holding the items in order |
| Utils.FromItem | src/utils/mod.rs:18-22 | `From<T>` gives `Single` holding the item |
| Utils.FromVec | src/utils/mod.rs:24-28 | `From<Vec<T>>` gives `Multiple`, even for one element |
| Utils.IntoIter | src/utils/mod.rs:30-40 | `Single(x)` iterates as `[x]`; `Multiple(xs)` iterates as `xs` |
| Utils.IntoIterFromIter | src/utils/mod.rs:12-40 | collecting and then iterating gives the items back in order |
| Utils.SingleVersusOneElement | src/utils/mod.rs:13-38 | `from_iter([x])` and `Single(x)` are different values that iterate to the same sequence |
| Utils.IterLength | src/utils/mod.rs:34-39 | the iteration length is 1 for `Single` and the vector length for `Multiple` |
| Types.MediaFormatDisplay | src/types.rs:53-58 | `Wav` and only `Wav` displays as `audio/wav`; `Mp3` and only `Mp3` as `audio/mpeg` |
| Types.MediaFormatIsAudio | src/types.rs:53-58 | every audio display string lies under `audio/` |
| Types.MediaFormatWire | src/types.rs:52-57 | the format serialises in lower case, `wav` or `mp3` |
| Types.MediaFormatFromWire | src/types.rs:52-57 | deserialising accepts exactly the two lower-case names |
| Types.MediaFormatWireRoundTrip | src/types.rs:52-57 | serialising and deserialising invert each other |
| Types.RoleDisplay | src/types.rs:77-82 | `User` displays as `user`, `Model` as `model`, in both directions |
| Types.RoleWire | src/types.rs:60-82 | with no serde rename, the role serialises as its variant name |
| Types.RoleFromWire | src/types.rs:60-82 | only `User` and `Model` deserialise |
| Types.RoleWireRoundTrip | src/types.rs:60-82 | the wire names round-trip, and a role's wire name differs from its display string |
| Types.PartTag | src/types.rs:23-35 | the internal `type` tag is `text`, `image`, `audio` or `blob`, one per variant |
| Types.PartTagDeterminesVariant | src/types.rs:23-35 | two parts share a tag exactly when they are the same variant |
| Types.ImageTag | src/types.rs:37-47 | the image tag is `base64` or `url`, one per variant |
| Types.MessageKeys | src/types.rs:84-95 | an untagged message has two keys, `role` plus `text` or `parts` by variant |
| Types.DefaultMessages | src/types.rs:97-98 | the default conversation is empty |
| GeminiTypes.PartFromString | src/gemini/types.rs:76-83 | a string converts to a text part holding it |
| GeminiTypes.ContentNew | src/gemini/types.rs:49-54 | the given role and exactly one part, the converted input |
| GeminiTypes.ContentFromIter | src/gemini/types.rs:56-64 | the given role and every part converted, same count and order |
| GeminiTypes.ContentFromSingleOrMultiple | src/gemini/types.rs:67-74 | no role; the parts are the converted items in iteration order |
| GeminiTypes.ContentNewIsFromIterOfOne | src/gemini/types.rs:49-64 | `new` is `from_iter` on a one-part list |
| GeminiTypes.SingleAndOneElementAgree | src/gemini/types.rs:67-74 | `Single(x)` and `Multiple([x])` build the same content |
| GeminiTypes.GeminiRoleDisplay | src/gemini/types.rs:26-31 | `user` and `model`, in both directions |
| GeminiTypes.OutcomeWire | src/gemini/types.rs:144-153 | every outcome name starts `OUTCOME_`; `OUTCOME_OK` exactly for `OutcomeOk` |
| GeminiTypes.OutcomeFromWire | src/gemini/types.rs:144-153 | only names starting `OUTCOME_` and written in capitals and underscores deserialise; `OUTCOME_OK` exactly to `OutcomeOk` |
| GeminiTypes.OutcomeWireRoundTrip | src/gemini/types.rs:147-153 | `OutcomeOk` is `OUTCOME_OK`; outcome names round-trip in both directions |
| GeminiTypes.OutcomeWireIsScreaming | src/gemini/types.rs:147-153 | every outcome name uses only capitals and underscores |
| GeminiTypes.LanguageFromWire | src/gemini/types.rs:158-161 | only `PYTHON` deserialises |
| GeminiTypes.LanguageWire | src/gemini/types.rs:155-161 | the language's name is in capitals and reads back as the language |
| GeminiTypes.LanguageWireRoundTrip | src/gemini/types.rs:158-161 | the language name is in capitals and round-trips |
| GeminiTypes.BlobFieldKeys | src/gemini/types.rs:98-126 | blobs and file data use the camel-case key for the MIME type, not the snake-case one, plus `data` |
| GeminiTypes.PartKeyAsWritten | src/gemini/types.rs:79-95 | as the attributes stand, every part key except `text` contains an underscore |
| GeminiTypes.PartKey | src/gemini/types.rs:79-95 | the intended camel-case key has no underscore and starts with a lower-case letter |
| GeminiTypes.PartKeyAsWrittenIsNotCamelCase | src/gemini/types.rs:79-95 | the written key equals the camel-case key only for text parts |
| GeminiTypes.InlineDataKeys | src/gemini/types.rs:84-86 | inline data is keyed `inline_data` as written and `inlineData` as intended |
| GeminiTypes.PartKeyDistinguishesVariants | src/gemini/types.rs:79-95 | distinct variants get distinct camel-case keys, so the untagged form can be told apart |
| JsonValue.Get | examples/gemini.rs:57-63 | a member is found exactly when the value is an object with that key |
| JsonValue.At | examples/gemini.rs:59-62 | an element is found exactly when the value is an array long enough |
| JsonValue.AsStr | examples/gemini.rs:64 | text is found exactly when the value is a string |
| Errors.FromForeign | src/error.rs:8-19 | each foreign error becomes its own leaf kind, with its text kept |
| Errors.TypeDisplay | src/error.rs:9-31 | transparent leaves show their cause's text; a `Context` shows only its own message; `Generic` is prefixed `An error occurred: `; `Empty` is `Value was empty. `, the value, `, expected one of: ` and the `{:?}` list of the expected values |
| Errors.MessagesLength | src/error.rs:21-25 | a chain has one message per `Context` layer |
| Errors.WalkReachesLeaf | src/error.rs:21-25 | following `source`, every step before `Depth` meets a `Context`; step `Depth` meets the leaf |
| Errors.New | src/error.rs:60-62 | the error kind is stored unchanged |
| Errors.AddContext | src/error.rs:64-68 | one new `Context` layer over the old kind: message list prefixed, depth plus one, same leaf |
| Errors.NewContext | src/error.rs:70-77 | a `Context` with exactly this message and source, one layer deeper |
| Errors.AnnotateAllNests | src/error.rs:64-68 | repeated annotation nests, never flattens: newest message first, older ones in order, leaf untouched |
| Errors.Source | src/error.rs:114-122 | never absent; exactly the inner kind on a `Context`, the kind itself on a leaf; same leaf |
| Errors.SourceOfAddContext | src/error.rs:114-122 | `source` undoes `add_context` |
| Errors.DebugStr | src/error.rs:26-30 | `{:?}` of a string: in double quotes, and the text between them reads back as the string |
| Errors.DebugList | src/error.rs:26-30 | `{:?}` of the expected values: in square brackets around their joined texts |
| Errors.JoinDebug | src/error.rs:26-30 | empty exactly for no values; starts with the first value's `{:?}` text |
| Errors.JoinDebugAppend | src/error.rs:26-30 | one more value adds `, ` and its `{:?}` text at the end, so the values appear in order, separated by `, ` |
| Errors.EscapeRoundTrip | src/error.rs:26-30 | the `{:?}` escaping of the expected values reads back as the original text |
| Errors.FmtContext | src/error.rs:89-97 | one `\t- message` line per `Context` layer, outermost first; the leaf writes nothing |
| Errors.Display | src/error.rs:100-112 | a leaf is one `Error:` line; a chain is its outer message, the `Context:` header and one line per layer |
| Errors.DisplayMentionsEveryLayer | src/error.rs:100-112 | every layer's message appears as its own line in the rendered text |
| Errors.ResultContext | src/error.rs:134-138 | `Ok` passes unchanged; `Err` gains exactly one `Context` layer over its kind |
| Errors.ResultWithContext | src/error.rs:140-148 | the same, with the message taken from the closure |
| Errors.ForeignResultContext | src/error.rs:155-161 | `Ok` passes unchanged; a foreign error is converted to its kind, then wrapped once |
| Errors.ForeignResultWithContext | src/error.rs:163-173 | the same, with the message taken from the closure |
| Errors.OptionContext | src/error.rs:177-189 | `Some(v)` gives `Ok(v)`; `None` gives `Context(m, Empty("None", []))` |
| Errors.OptionWithContext | src/error.rs:191-207 | the same, with the message taken from the closure |
| Errors.ContextAddsOneLayer | src/error.rs:133-149 | annotating a leaf error gives a one-layer chain with just that message |
| Errors.NoneContextDisplay | src/error.rs:177-189 | the exact rendered text of an annotated `None`; the `Empty` leaf is not shown |
| Errors.Decimal | src/error.rs:40-44 | the line number's text is a canonical decimal: non-empty, digits only, no leading zero |
| Errors.DecimalRoundTrip | src/error.rs:40-44 | the decimal text of the line number reads back as the number |
| Errors.ErrorContextDisplay | src/error.rs:40-44 | `message (at file:line)`, with the line written as a canonical decimal: digits only, no leading zero, reading back as the line |
| Errors.CanonicalIsDecimal | src/error.rs:40-44 | a canonical decimal text is the decimal writing of its value, so the writing is unique |
| Errors.LineTextUnique | src/error.rs:40-44 | any canonical decimal text of the line gives exactly the rendered text |
| Errors.Ensure | src/error.rs:235-242 | an error exactly when the condition fails, and then the converted error |
| Provider.MaybeStream.IsStatic | src/provider.rs:12-20 | holds exactly on its own variant: exactly when `try_unwrap_static` succeeds and `try_unwrap_stream` fails |
| Provider.MaybeStream.IsStream | src/provider.rs:12-20 | holds exactly on its own variant: exactly when `try_unwrap_stream` succeeds and `try_unwrap_static` fails |
| Provider.MaybeStream.UnwrapStatic | src/provider.rs:12-20 | defined on `Static` only; returns its value |
| Provider.MaybeStream.UnwrapStream | src/provider.rs:12-20 | defined on `Stream` only; returns its stream |
| Provider.MaybeStream.TryUnwrapStatic | src/provider.rs:12-20 | the value on `Static`, else the input given back untouched |
| Provider.MaybeStream.TryUnwrapStream | src/provider.rs:12-20 | the stream on `Stream`, else the input given back untouched |
| Provider.ExactlyOneVariant | src/provider.rs:17-20 | exactly one of `is_static` and `is_stream` holds; each `try_unwrap` succeeds on its own variant |
| Provider.New | src/provider.rs:47-55 | the client is stored unchanged |
| Provider.Generate | src/provider.rs:137-152 | the flag picks the call; success is wrapped in the matching variant; an error passes unchanged |
| Provider.GenerateUsesOnlyChosenOperation | src/provider.rs:145-151 | only the chosen call matters: clients that agree on it give the same result |
| GeminiImpls.PartFromLlm | src/gemini/impls.rs:4-36 | text to text, URL image to file data, the rest to inline data; payload and MIME type carried over |
| GeminiImpls.AudioMime | src/gemini/impls.rs:28-33 | audio is inline data under `audio/wav` or `audio/mpeg` |
| GeminiImpls.NoCodeParts | src/gemini/impls.rs:4-36 | a conversion never yields a code-execution part |
| GeminiImpls.ContentFromMessage | src/gemini/impls.rs:38-45 | role kept; a text message gives one text part; a detailed message gives its parts converted in order |
| GeminiImpls.TextMessageIsOneTextPart | src/gemini/impls.rs:38-45 | a text message and a detailed message with that one text part convert alike |
| GeminiImpls.ContentsFromMessages | src/gemini/impls.rs:47-51 | one content per message, in order |
| GeminiImpls.RequestFromMessages | src/gemini/impls.rs:53-59 | the request holds the same contents as the vector conversion |
| GeminiImpls.RolesInOrder | src/gemini/impls.rs:53-59 | the i-th content has the i-th message's role |
| GeminiImpls.ContentsOfConcatenation | src/gemini/impls.rs:47-51 | converting a concatenation is concatenating the conversions |
| GeminiImpls.TotalPartsPreserved | src/gemini/impls.rs:38-59 | the request carries exactly as many parts as the conversation |
| Gemini.ModelDisplay | src/gemini/mod.rs:33-39 | the two model resource names, in both directions |
| Gemini.ClientNew | src/gemini/mod.rs:48-52 | succeeds with this model and key unless the HTTP builder fails; that failure is the `Reqwest` leaf |
| Gemini.Query | src/gemini/mod.rs:60-64 | the query starts with `?`; the key is its last parameter; the extra query, if any, comes first, followed by `&` |
| Gemini.EndpointUrl | src/gemini/mod.rs:55-72 | the URL is the base, `/`, the model's name and the endpoint, followed by exactly the query, which ends with `key=` and the key |
| Gemini.EndpointUrlDetermines | src/gemini/mod.rs:55-72 | on the two endpoints, the URL text fixes the model, the endpoint and the key |
| Gemini.CallUrls | src/gemini/mod.rs:60-70 | both calls use base, model, endpoint and `?key=`; the streaming and buffered URLs differ |
| Gemini.RequestFor | src/gemini/mod.rs:94-96 | the contents are the input's items converted, same count and order |
| Gemini.StreamGenerateContentInner | src/gemini/mod.rs:90-105 | posts to the streaming URL a request whose contents are the input's items converted, same count and order |
| Gemini.GenerateContentInner | src/gemini/mod.rs:107-120 | posts to the buffered URL a request whose contents are the input's items converted, same count and order |
| Gemini.StreamGenerateContent | src/gemini/mod.rs:122-128 | posts a one-content request to the streaming URL |
| Gemini.GenerateContent | src/gemini/mod.rs:130-133 | posts a one-content request to the buffered URL |
| Gemini.StreamGenerateContentIter | src/gemini/mod.rs:135-144 | posts every converted input, in order, to the streaming URL |
| Gemini.GenerateContentIter | src/gemini/mod.rs:146-155 | posts every converted input, in order, to the buffered URL |
| Gemini.ChatCompletion | src/gemini/mod.rs:166-168 | posts the contents unchanged to the buffered URL |
| Gemini.StreamChatCompletion | src/gemini/mod.rs:170-175 | posts the contents unchanged to the streaming URL |
| Gemini.AsLlmClient | src/gemini/mod.rs:158-176 | the capability's two calls are the two completions above |
| GeminiProvider.ProviderStreamsOverGemini | src/gemini/mod.rs:170-175 | through `generate(.., true)`, returns the streaming post's stream, or its error unchanged |
| GeminiProvider.ProviderBuffersOverGemini | src/gemini/mod.rs:166-168 | through `generate(.., false)`, returns the buffered post's JSON, or its error unchanged |
| ResponseParser.TrimCommas | examples/gemini.rs:48 | removes every leading comma and nothing else; the rest is a suffix of the input |
| ResponseParser.TrimStart | examples/gemini.rs:48 | removes the leading whitespace and nothing else; the rest is a suffix of the input |
| ResponseParser.Clean | examples/gemini.rs:46-51 | a chunk without a leading comma is kept; otherwise every leading comma and then the whitespace after them are removed, leaving a shorter suffix of the chunk that does not start with whitespace |
| ResponseParser.ExtractText | examples/gemini.rs:57-65 | a text found lies at `candidates[0].content.parts[0].text`; nothing is found only when no string lies there |
| ResponseParser.ExtractTextIffPath | examples/gemini.rs:57-65 | `Some(s)` exactly when `candidates[0].content.parts[0].text` is the string `s`; otherwise nothing |
| ResponseParser.ChunkResult | examples/gemini.rs:33-68 | a marker yields `Ok(None)`; an error exactly when a non-marker's cleaned text does not parse; a text only from the path in the parsed value |
| ResponseParser.GeminiResponseParser.constructor | examples/gemini.rs:26-31 | neither marker has been seen |
| ResponseParser.GeminiResponseParser.ParseChunk | examples/gemini.rs:33-68 | result fixed by the chunk alone; `[` sets `hasStarted`; `]` or empty sets `hasFinished`; other chunks change neither flag |
| ResponseParser.MarkersYieldNothing | examples/gemini.rs:38-44 | a framing chunk yields `Ok(None)` |
| ResponseParser.SeparatorIgnored | examples/gemini.rs:46-51 | one or more commas and then whitespace in front of a JSON text are ignored |
| ResponseParser.CrLfSeparatorIgnored | examples/gemini.rs:46-51 | a chunk `",\r\n" + J` decodes like `J` |
| ResponseParser.NoCommaUntouched | examples/gemini.rs:47-51 | a chunk not starting with a comma is parsed as it is |
| ResponseParser.ErrorsAreParseErrors | examples/gemini.rs:54 | an error exactly when the cleaned text does not parse, and then the parser's own error |
| ResponseParser.TextIffPath | examples/gemini.rs:54-67 | on text that parses, `Ok(Some(s))` exactly when the path leads to the string `s` |
| ResponseParser.SameChunkSameResult | examples/gemini.rs:33-68 | two parsers in any states, or one parser fed the same chunk twice, give the same result |
| ResponseParser.Utf8LenBounds | examples/gemini.rs:94-95 | a text takes one to four bytes per character, one for ASCII |
| ResponseParser.Emit | examples/gemini.rs:93 | a chunk contributes its text exactly when its result is `Ok(Some(text))`, else nothing |
| ResponseParser.FragmentsAppend | examples/gemini.rs:90-99 | the fragments of two runs of chunks concatenate |
| ResponseParser.FragmentsComeFromChunks | examples/gemini.rs:90-99 | every fragment written is the text of some chunk's `Ok(Some)` result |
| ResponseParser.TotalBytesAppend | examples/gemini.rs:95 | byte counts add up over concatenated fragments |
| ResponseParser.FirstError | examples/gemini.rs:90-91 | no failed read exactly when every read succeeded |
| ResponseParser.Feed | examples/gemini.rs:91-98 | one turn of the loop appends the chunk's fragment, keeping the count equal to the fragments' UTF-8 bytes; `hasStarted` becomes set on `[`, `hasFinished` on `]` or an empty chunk, and neither is ever cleared |
| ResponseParser.StreamToStdout | examples/gemini.rs:87-99 | writes exactly the `Ok(Some)` fragments of the reads before the first failure, in order; counts their UTF-8 bytes; a failed read is the error, annotated |
| ResponseParser.AppErrorDisplay | examples/gemini.rs:9-15 | an `LlmError` shows through; a generic error shows its message |
| ResponseParser.ConsumeResponse | examples/gemini.rs:77-99 | a failed call is annotated; a buffered answer fails the `ensure!`; a stream is consumed, and a failed read is returned as that read's error with the read-failure message added |
| ResponseParser.Prompt | examples/gemini.rs:75 | the request is the prompt as one user text part |
| ResponseParser.AskAi | examples/gemini.rs:71-105 | a builder failure is annotated; otherwise the prompt goes to the Gemini 2.0 Flash streaming URL and the answer stream is consumed; a failed read is returned as that read's error with the read-failure message added |

## Left out

- HTTP transport: `send_request`, the `reqwest` client, `bytes_stream` and `response.json()` are network I/O. They are folded into the `Gemini.Transport` functions.
- `GEMINI_API_KEY`: the lazily read global and its panic when unset. The key is a parameter.
- `Url::parse` and `url::Url`: URLs are their text. A URL that fails to parse is not modelled.
- `serde_json::from_str`: a parameter, so its internals are not modelled.
- `String::from_utf8_lossy`: chunks are taken as already-decoded text.
- Serde derive machinery in general: only the wire names and keys above are recorded.
- The `Debug` impl of `LlmError`: not modelled.
- The text of foreign errors behind `#[error(transparent)]`: kept as opaque strings.
- Errors.EscapeRoundTrip: covers the escapes of quote, backslash, NUL, tab, carriage return and line feed only. Rust's `{:?}` also writes other non-printable characters as `\u{..}`, and those are not modelled.
- The `bail!` macro: not modelled; it is a bare `return Err(e.into())`.
- The `error_context!` macro: its `file!()` and `line!()` become fields of `ErrorContext`.
- Async, `Stream` and tokio semantics, and `tracing` instrumentation: nothing here is concurrent. A stream is a finite sequence of reads.
- `Ord`, `Hash`, `Clone` and the other derived traits, the utoipa schema impls and the `Bytes` wrapper: they carry no logic modelled here.
- ResponseParser.StreamToStdout: writing and flushing stdout are assumed to succeed. The "Failed to write to stdout" and "Failed to flush stdout" error paths are not modelled.
- ResponseParser.AskAi: the closing "Wrote N bytes" line is not printed; the byte count is returned instead.
- ResponseParser.AskAi: the `main` wrapper is not modelled.

## Findings

| source | as written | input that shows it | evidently intended | confidence | as-written member | corrected member |
|---|---|---|---|---|---|---|
| src/gemini/types.rs:79-95 | On an untagged enum, `rename_all = "camelCase"` renames only the variant names, and untagged output never writes those. Struct-variant fields keep their Rust names, so parts are keyed `inline_data`, `file_data`, `executable_code` and `code_execution_result`. | an `InlineData` part is written under `inline_data` (GeminiTypes.InlineDataKeys) | camel-case keys `inlineData`, `fileData` and so on, the way `mimeType` gets its camel-case key by an explicit rename | not executed; medium | GeminiTypes.PartKeyAsWritten | GeminiTypes.PartKey |
