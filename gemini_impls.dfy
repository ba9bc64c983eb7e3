/** The conversions from the provider-independent message types into the
    Gemini request types (src/gemini/impls.rs). */
module GeminiImpls {
  import opened Wrappers
  import opened Seqs
  import Types
  import opened GeminiTypes

  /** The MIME type a domain part is sent with; text has none. */
  function LlmMime(part: Types.LlmMessagePart): Option<string>
  {
    match part
    case Text(_) => None
    case Blob(b) => Some(b.mimeType)
    case Image(Base64(_, mediaType)) => Some(mediaType)
    case Image(Url(_)) => Some("image/*")
    case Audio(_, format) => Some(Types.MediaFormatDisplay(format))
  }

  /** The payload of a domain part: its text, its data or its URL. */
  function LlmPayload(part: Types.LlmMessagePart): string
  {
    match part
    case Text(t) => t
    case Blob(b) => b.data
    case Image(Base64(data, _)) => data
    case Image(Url(url)) => url
    case Audio(data, _) => data
  }

  /** The MIME type of a Gemini part, for the two kinds a conversion yields. */
  function GeminiMime(p: GeminiPart): Option<string>
  {
    match p
    case InlineData(b) => Some(b.mimeType)
    case FileData(f) => Some(f.mimeType)
    case _ => None
  }

  /** The text or data of a Gemini part, for the kinds a conversion yields. */
  function GeminiPayload(p: GeminiPart): string
  {
    match p
    case Text(t) => t
    case InlineData(b) => b.data
    case FileData(f) => f.data
    case _ => ""
  }

  /** `From<LlmMessagePart> for GeminiPart`. Text stays text, a URL image
      becomes file data, and every other part becomes inline data; the
      payload is carried over unchanged and the MIME type is the part's own,
      the any-image wildcard for a URL image and the display string for
      audio. */
  function PartFromLlm(part: Types.LlmMessagePart): (p: GeminiPart)
    ensures !p.ExecutableCode? && !p.CodeExecutionResult?
    ensures p.Text? <==> part.Text?
    ensures p.FileData? <==> part.Image? && part.image.Url?
    ensures p.InlineData? <==> part.Blob? || part.Audio? || (part.Image? && part.image.Base64?)
    ensures GeminiPayload(p) == LlmPayload(part)
    ensures GeminiMime(p) == LlmMime(part)
  {
    match part
    case Text(text) => GeminiPart.Text(text)
    case Blob(blob) => InlineData(GeminiBlob(blob.mimeType, blob.data))
    case Image(img) =>
      (match img
       case Base64(data, mediaType) => InlineData(GeminiBlob(mediaType, data))
       case Url(url) => FileData(GeminiFileData("image/*", url)))
    case Audio(data, format) => InlineData(GeminiBlob(Types.MediaFormatDisplay(format), data))
  }

  /** Audio is sent as inline data under one of the two audio MIME types. */
  lemma AudioMime(data: string, format: Types.MediaFormat)
    ensures PartFromLlm(Types.Audio(data, format)).InlineData?
    ensures PartFromLlm(Types.Audio(data, format)).inlineData.mimeType in {"audio/wav", "audio/mpeg"}
  {
  }

  /** A conversion never produces the code-execution part kinds. */
  lemma NoCodeParts(parts: seq<Types.LlmMessagePart>, i: nat)
    requires i < |parts|
    ensures !MapSeq(PartFromLlm, parts)[i].ExecutableCode?
    ensures !MapSeq(PartFromLlm, parts)[i].CodeExecutionResult?
  {
  }

  /** The number of parts a message carries. */
  function PartCount(m: Types.LlmMessage): nat
  {
    match m
    case Text(_, _) => 1
    case Detailed(_, parts) => |parts|
  }

  /** `From<LlmMessage> for GeminiContent`: the role is kept; a text message
      has exactly its text as one part, a detailed message has its parts
      converted one by one in order. */
  function ContentFromMessage(m: Types.LlmMessage): (c: GeminiContent)
    ensures c.role == Some(m.role)
    ensures |c.parts| == PartCount(m)
    ensures m.Text? ==> c.parts == [GeminiPart.Text(m.text)]
    ensures m.Detailed? ==> forall i :: 0 <= i < |m.parts| ==> c.parts[i] == PartFromLlm(m.parts[i])
  {
    match m
    case Text(role, text) => ContentNew(Some(role), GeminiPart.Text(text), (p: GeminiPart) => p)
    case Detailed(role, parts) => ContentFromIter(Some(role), parts, PartFromLlm)
  }

  /** A text message and a detailed message holding the same single text
      part convert to the same content. */
  lemma TextMessageIsOneTextPart(role: Types.Role, text: string)
    ensures ContentFromMessage(Types.LlmMessage.Text(role, text)) ==
            ContentFromMessage(Types.Detailed(role, [Types.LlmMessagePart.Text(text)]))
  {
    var a := ContentFromMessage(Types.LlmMessage.Text(role, text));
    var b := ContentFromMessage(Types.Detailed(role, [Types.LlmMessagePart.Text(text)]));
    assert a.parts == b.parts;
  }

  /** `From<LlmMessages> for Vec<GeminiContent>`: one content per message, in
      order. */
  function ContentsFromMessages(ms: Types.LlmMessages): (cs: seq<GeminiContent>)
    ensures |cs| == |ms.messages|
    ensures forall i :: 0 <= i < |cs| ==> cs[i] == ContentFromMessage(ms.messages[i])
  {
    MapSeq(ContentFromMessage, ms.messages)
  }

  /** `From<LlmMessages> for GeminiRequest`: the same contents as the vector
      conversion. */
  function RequestFromMessages(ms: Types.LlmMessages): (r: GeminiRequest)
    ensures r.contents == ContentsFromMessages(ms)
  {
    GeminiRequest(MapSeq(ContentFromMessage, ms.messages))
  }

  /** Converting a conversation keeps its turns in order: the i-th content
      has the i-th message's role. */
  lemma RolesInOrder(ms: Types.LlmMessages, i: nat)
    requires i < |ms.messages|
    ensures RequestFromMessages(ms).contents[i].role == Some(ms.messages[i].role)
  {
  }

  /** Converting two conversations one after the other is converting their
      concatenation. */
  lemma ContentsOfConcatenation(xs: Types.LlmMessages, ys: Types.LlmMessages)
    ensures ContentsFromMessages(Types.LlmMessages(xs.messages + ys.messages)) ==
            ContentsFromMessages(xs) + ContentsFromMessages(ys)
  {
    MapSeqAppend(ContentFromMessage, xs.messages, ys.messages);
  }

  function ContentPartCount(c: GeminiContent): nat
  {
    |c.parts|
  }

  /** No part is lost or invented: the request carries as many parts as the
      conversation. */
  lemma {:induction false} TotalPartsPreserved(ms: seq<Types.LlmMessage>)
    ensures Sum(MapSeq(ContentPartCount, MapSeq(ContentFromMessage, ms))) == Sum(MapSeq(PartCount, ms))
  {
    if ms != [] {
      TotalPartsPreserved(ms[1..]);
      var cs := MapSeq(ContentFromMessage, ms);
      assert cs[1..] == MapSeq(ContentFromMessage, ms[1..]);
      assert MapSeq(ContentPartCount, cs)[1..] == MapSeq(ContentPartCount, cs[1..]);
      assert MapSeq(PartCount, ms)[1..] == MapSeq(PartCount, ms[1..]);
    }
  }
}
