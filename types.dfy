/** The provider-independent message types (src/types.rs): message parts,
    images, audio formats, roles and messages, with their display strings
    and their serde wire names. */
module Types {
  import opened Wrappers

  /** An inline blob: a MIME type and base64 data. */
  datatype Blob = Blob(mimeType: string, data: string)

  /** An image, either inline base64 data with a media type or a URL
      (the URL is kept as its text). */
  datatype ImageMessagePart =
    | Base64(data: string, mediaType: string)
    | Url(url: string)

  datatype MediaFormat = Wav | Mp3

  datatype Role = User | Model

  /** One part of a detailed message. */
  datatype LlmMessagePart =
    | Text(text: string)
    | Image(image: ImageMessagePart)
    | Audio(data: string, format: MediaFormat)
    | Blob(blob: Blob)

  /** A message is either a role with text or a role with parts. */
  datatype LlmMessage =
    | Text(role: Role, text: string)
    | Detailed(role: Role, parts: seq<LlmMessagePart>)

  /** The ordered list of messages of one conversation. */
  datatype LlmMessages = LlmMessages(messages: seq<LlmMessage>)

  // ---- Display ----

  /** `Display for MediaFormat`: the MIME type of the audio format. */
  function MediaFormatDisplay(f: MediaFormat): (s: string)
    ensures s == "audio/wav" <==> f == Wav
    ensures s == "audio/mpeg" <==> f == Mp3
  {
    match f
    case Wav => "audio/wav"
    case Mp3 => "audio/mpeg"
  }

  /** `Display for Role`. */
  function RoleDisplay(r: Role): (s: string)
    ensures s == "user" <==> r == User
    ensures s == "model" <==> r == Model
  {
    match r
    case User => "user"
    case Model => "model"
  }

  /** Every audio MIME type lies under `audio/`. */
  lemma MediaFormatIsAudio(f: MediaFormat)
    ensures |MediaFormatDisplay(f)| > 6 && MediaFormatDisplay(f)[..6] == "audio/"
  {
  }

  // ---- serde wire names ----

  /** `MediaFormat` serialises in lower case. */
  function MediaFormatWire(f: MediaFormat): (s: string)
    ensures s == "wav" <==> f == Wav
    ensures s == "mp3" <==> f == Mp3
  {
    match f
    case Wav => "wav"
    case Mp3 => "mp3"
  }

  /** The matching deserialiser: only the two lower-case names are accepted. */
  function MediaFormatFromWire(s: string): (r: Option<MediaFormat>)
    ensures r.Some? <==> s == "wav" || s == "mp3"
  {
    if s == "wav" then Some(Wav)
    else if s == "mp3" then Some(Mp3)
    else None
  }

  lemma MediaFormatWireRoundTrip(f: MediaFormat, s: string)
    ensures MediaFormatFromWire(MediaFormatWire(f)) == Some(f)
    ensures MediaFormatFromWire(s) == Some(f) ==> MediaFormatWire(f) == s
  {
  }

  /** `Role` has no serde rename: it serialises as its variant name, which
      differs from its display string. */
  function RoleWire(r: Role): (s: string)
    ensures s == "User" <==> r == User
    ensures s == "Model" <==> r == Model
  {
    match r
    case User => "User"
    case Model => "Model"
  }

  function RoleFromWire(s: string): (r: Option<Role>)
    ensures r.Some? <==> s == "User" || s == "Model"
  {
    if s == "User" then Some(User)
    else if s == "Model" then Some(Model)
    else None
  }

  lemma RoleWireRoundTrip(r: Role, s: string)
    ensures RoleFromWire(RoleWire(r)) == Some(r)
    ensures RoleFromWire(s) == Some(r) ==> RoleWire(r) == s
    ensures RoleWire(r) != RoleDisplay(r)
  {
  }

  /** The value of the internal `"type"` tag of a message part (snake case). */
  function PartTag(p: LlmMessagePart): (tag: string)
    ensures p.Text? <==> tag == "text"
    ensures p.Image? <==> tag == "image"
    ensures p.Audio? <==> tag == "audio"
    ensures p.Blob? <==> tag == "blob"
  {
    match p
    case Text(_) => "text"
    case Image(_) => "image"
    case Audio(_, _) => "audio"
    case Blob(_) => "blob"
  }

  /** The value of the internal `"type"` tag of an image (lower case). */
  function ImageTag(img: ImageMessagePart): (tag: string)
    ensures img.Base64? <==> tag == "base64"
    ensures img.Url? <==> tag == "url"
  {
    match img
    case Base64(_, _) => "base64"
    case Url(_) => "url"
  }

  /** The tag tells the part's variant. */
  lemma PartTagDeterminesVariant(p: LlmMessagePart, q: LlmMessagePart)
    ensures PartTag(p) == PartTag(q) <==>
      (p.Text? && q.Text?) || (p.Image? && q.Image?) || (p.Audio? && q.Audio?) || (p.Blob? && q.Blob?)
  {
  }

  /** The keys of the untagged JSON shape of a message. */
  function MessageKeys(m: LlmMessage): (keys: set<string>)
    ensures "role" in keys && |keys| == 2
    ensures m.Text? <==> "text" in keys
    ensures m.Detailed? <==> "parts" in keys
  {
    match m
    case Text(_, _) => {"role", "text"}
    case Detailed(_, _) => {"role", "parts"}
  }

  /** `Default for LlmMessages`: no messages. */
  function DefaultMessages(): (ms: LlmMessages)
    ensures |ms.messages| == 0
  {
    LlmMessages([])
  }
}
