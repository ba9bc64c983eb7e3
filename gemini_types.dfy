/** The Gemini request types (src/gemini/types.rs): roles, parts, blobs,
    contents and requests, the content constructors, and the JSON names the
    serde attributes give them. */
module GeminiTypes {
  import opened Wrappers
  import opened Seqs
  import Types
  import opened Utils

  datatype GeminiRole = User | Model

  datatype GeminiBlob = GeminiBlob(mimeType: string, data: string)

  /** File data; `data` is a URL, kept as its text. */
  datatype GeminiFileData = GeminiFileData(mimeType: string, data: string)

  datatype GeminiCodeLanguage = Python

  datatype GeminiCodeOutcome =
    | OutcomeUnspecified
    | OutcomeOk
    | OutcomeFailed
    | OutcomeDeadlineExceeded

  datatype ExecutableCode = ExecutableCode(language: GeminiCodeLanguage, code: string)

  datatype CodeExecutionResult = CodeExecutionResult(outcome: GeminiCodeOutcome, output: string)

  datatype GeminiPart =
    | Text(text: string)
    | InlineData(inlineData: GeminiBlob)
    | FileData(fileData: GeminiFileData)
    | ExecutableCode(executableCode: ExecutableCode)
    | CodeExecutionResult(codeExecutionResult: CodeExecutionResult)

  /** One turn of the conversation; the role is the domain `Role`. */
  datatype GeminiContent = GeminiContent(role: Option<Types.Role>, parts: seq<GeminiPart>)

  datatype GeminiRequest = GeminiRequest(contents: seq<GeminiContent>)

  // ---- constructors ----

  /** `From<String> for GeminiPart` (derived): a string is a text part. */
  function PartFromString(s: string): (p: GeminiPart)
    ensures p.Text? && p.text == s
  {
    GeminiPart.Text(s)
  }

  /** `GeminiContent::new`: the role and exactly one part, converted by `into`. */
  function ContentNew<T>(role: Option<Types.Role>, part: T, into: T -> GeminiPart): (c: GeminiContent)
    ensures c.role == role
    ensures |c.parts| == 1 && c.parts[0] == into(part)
  {
    GeminiContent(role, [into(part)])
  }

  /** `GeminiContent::from_iter`: the role and every part converted, in order. */
  function ContentFromIter<T>(role: Option<Types.Role>, parts: seq<T>, into: T -> GeminiPart): (c: GeminiContent)
    ensures c.role == role
    ensures |c.parts| == |parts|
    ensures forall i :: 0 <= i < |parts| ==> c.parts[i] == into(parts[i])
  {
    GeminiContent(role, MapSeq(into, parts))
  }

  /** `From<SingleOrMultiple<T>> for GeminiContent`: no role, and the parts
      are the converted items in iteration order, whichever the variant. */
  function ContentFromSingleOrMultiple<T>(s: SingleOrMultiple<T>, into: T -> GeminiPart): (c: GeminiContent)
    ensures c.role == None
    ensures c.parts == MapSeq(into, IntoIter(s))
  {
    match s
    case Single(item) => ContentNew(None, item, into)
    case Multiple(items) => ContentFromIter(None, items, into)
  }

  /** `new` is `from_iter` on one part. */
  lemma ContentNewIsFromIterOfOne<T>(role: Option<Types.Role>, part: T, into: T -> GeminiPart)
    ensures ContentNew(role, part, into) == ContentFromIter(role, [part], into)
  {
  }

  /** `Single(x)` and a one-element `Multiple` build the same content. */
  lemma SingleAndOneElementAgree<T>(x: T, into: T -> GeminiPart)
    ensures ContentFromSingleOrMultiple(Single(x), into) == ContentFromSingleOrMultiple(Multiple([x]), into)
  {
  }

  // ---- display and wire names ----

  /** `Display for GeminiRole`. */
  function GeminiRoleDisplay(r: GeminiRole): (s: string)
    ensures s == "user" <==> r == GeminiRole.User
    ensures s == "model" <==> r == GeminiRole.Model
  {
    match r
    case User => "user"
    case Model => "model"
  }

  /** `GeminiCodeOutcome` serialises in SCREAMING_SNAKE_CASE. */
  function OutcomeWire(o: GeminiCodeOutcome): (s: string)
    ensures |s| > 8 && s[..8] == "OUTCOME_"
    ensures o.OutcomeOk? <==> s == "OUTCOME_OK"
  {
    match o
    case OutcomeUnspecified => "OUTCOME_UNSPECIFIED"
    case OutcomeOk => "OUTCOME_OK"
    case OutcomeFailed => "OUTCOME_FAILED"
    case OutcomeDeadlineExceeded => "OUTCOME_DEADLINE_EXCEEDED"
  }

  function OutcomeFromWire(s: string): (r: Option<GeminiCodeOutcome>)
    ensures r.Some? ==> |s| > 8 && s[..8] == "OUTCOME_"
    ensures r.Some? ==> forall i :: 0 <= i < |s| ==> ScreamingChar(s[i])
    ensures r == Some(OutcomeOk) <==> s == "OUTCOME_OK"
  {
    if s == "OUTCOME_UNSPECIFIED" then Some(OutcomeUnspecified)
    else if s == "OUTCOME_OK" then Some(OutcomeOk)
    else if s == "OUTCOME_FAILED" then Some(OutcomeFailed)
    else if s == "OUTCOME_DEADLINE_EXCEEDED" then Some(OutcomeDeadlineExceeded)
    else None
  }

  /** The outcome names are the variant names in SCREAMING_SNAKE_CASE, and
      serialising then deserialising is the identity in both directions. */
  lemma OutcomeWireRoundTrip(o: GeminiCodeOutcome, s: string)
    ensures OutcomeWire(OutcomeOk) == "OUTCOME_OK"
    ensures OutcomeFromWire(OutcomeWire(o)) == Some(o)
    ensures OutcomeFromWire(s) == Some(o) ==> OutcomeWire(o) == s
  {
  }

  predicate ScreamingChar(c: char)
  {
    c == '_' || 'A' <= c <= 'Z'
  }

  /** Every outcome name is written in capitals and underscores only. */
  lemma OutcomeWireIsScreaming(o: GeminiCodeOutcome)
    ensures forall i :: 0 <= i < |OutcomeWire(o)| ==> ScreamingChar(OutcomeWire(o)[i])
  {
    match o
    case OutcomeUnspecified =>
    case OutcomeOk =>
    case OutcomeFailed =>
    case OutcomeDeadlineExceeded =>
  }

  /** `GeminiCodeLanguage` serialises in upper case. */
  function LanguageWire(l: GeminiCodeLanguage): (s: string)
    ensures LanguageFromWire(s) == Some(l)
    ensures forall i :: 0 <= i < |s| ==> 'A' <= s[i] <= 'Z'
  {
    match l
    case Python => "PYTHON"
  }

  function LanguageFromWire(s: string): (r: Option<GeminiCodeLanguage>)
    ensures r.Some? <==> s == "PYTHON"
  {
    if s == "PYTHON" then Some(Python) else None
  }

  /** The language name is in capitals, and it reads back as the language. */
  lemma LanguageWireRoundTrip(l: GeminiCodeLanguage, s: string)
    ensures LanguageFromWire(LanguageWire(l)) == Some(l)
    ensures LanguageFromWire(s) == Some(l) ==> LanguageWire(l) == s
    ensures forall i :: 0 <= i < |LanguageWire(l)| ==> 'A' <= LanguageWire(l)[i] <= 'Z'
  {
  }

  // ---- the JSON key of an untagged part ----

  /** A word of a Rust identifier: lower-case ASCII letters only. */
  predicate IsWord(w: string)
  {
    w != [] && forall c :: c in w ==> 'a' <= c <= 'z'
  }

  /** The Rust name of the single field of each part variant, split into
      its words. */
  function PartFieldWords(p: GeminiPart): (ws: seq<string>)
    ensures |ws| >= 1 && forall i :: 0 <= i < |ws| ==> IsWord(ws[i])
    ensures |ws| == 1 <==> p.Text?
  {
    match p
    case Text(_) => ["text"]
    case InlineData(_) => ["inline", "data"]
    case FileData(_) => ["file", "data"]
    case ExecutableCode(_) => ["executable", "code"]
    case CodeExecutionResult(_) => ["code", "execution", "result"]
  }

  /** Words joined by underscores: how Rust spells a field name. */
  function SnakeCase(ws: seq<string>): string
    requires |ws| >= 1
  {
    if |ws| == 1 then ws[0] else ws[0] + "_" + SnakeCase(ws[1..])
  }

  /** The first word as it is, every later word with its first letter
      upper-cased: what serde's `camelCase` rule makes of a snake-case name. */
  function CamelCase(ws: seq<string>): string
    requires |ws| >= 1
    requires forall i :: 0 <= i < |ws| ==> IsWord(ws[i])
  {
    ws[0] + Capitalized(ws[1..])
  }

  function Capitalized(ws: seq<string>): string
    requires forall i :: 0 <= i < |ws| ==> IsWord(ws[i])
  {
    if ws == [] then []
    else
      assert IsWord(ws[0]);
      [Upper(ws[0][0])] + ws[0][1..] + Capitalized(ws[1..])
  }

  function Upper(c: char): char
  {
    if 'a' <= c <= 'z' then (c as int - 32) as char else c
  }

  /** The JSON key a part is written under AS THE ATTRIBUTES STAND: with
      `untagged`, `rename_all = "camelCase"` on an enum renames the variants
      (whose names never appear) but not the fields of its struct variants,
      so each part is keyed by its Rust field name. */
  function PartKeyAsWritten(p: GeminiPart): (key: string)
    ensures '_' in key <==> !p.Text?
  {
    var ws := PartFieldWords(p);
    SnakeHasUnderscore(ws);
    SnakeCase(ws)
  }

  /** The camel-case key of each part variant, as the attribute is evidently
      meant to produce and as `GeminiBlob` gets for `mimeType` by its
      explicit rename. */
  function PartKey(p: GeminiPart): (key: string)
    ensures '_' !in key
    ensures key != [] && 'a' <= key[0] <= 'z'
  {
    var ws := PartFieldWords(p);
    CamelHasNoUnderscore(ws);
    CamelCase(ws)
  }

  /** A snake-case name has an underscore exactly when it has several words. */
  lemma {:induction false} SnakeHasUnderscore(ws: seq<string>)
    requires |ws| >= 1 && forall i :: 0 <= i < |ws| ==> IsWord(ws[i])
    ensures '_' in SnakeCase(ws) <==> |ws| > 1
  {
    if |ws| > 1 {
      assert (ws[0] + "_" + SnakeCase(ws[1..]))[|ws[0]|] == '_';
    } else {
      assert IsWord(ws[0]);
    }
  }

  /** A camel-case name has no underscore and starts with a lower-case letter. */
  lemma {:induction false} CamelHasNoUnderscore(ws: seq<string>)
    requires |ws| >= 1 && forall i :: 0 <= i < |ws| ==> IsWord(ws[i])
    ensures '_' !in CamelCase(ws)
    ensures CamelCase(ws) != [] && 'a' <= CamelCase(ws)[0] <= 'z'
  {
    assert IsWord(ws[0]);
    assert ws[0][0] in ws[0];
    CapitalizedHasNoUnderscore(ws[1..]);
    assert CamelCase(ws)[0] == ws[0][0];
    assert '_' !in ws[0];
  }

  lemma {:induction false} CapitalizedHasNoUnderscore(ws: seq<string>)
    requires forall i :: 0 <= i < |ws| ==> IsWord(ws[i])
    ensures '_' !in Capitalized(ws)
  {
    if ws != [] {
      assert IsWord(ws[0]);
      assert ws[0][0] in ws[0];
      assert Upper(ws[0][0]) != '_';
      CapitalizedHasNoUnderscore(ws[1..]);
      assert '_' !in ws[0][1..] by {
        forall c | c in ws[0][1..] ensures c != '_' {
          assert c in ws[0];
        }
      }
    }
  }

  /** Blobs and file data rename `mime_type` to `mimeType` explicitly: the
      camel-case spelling of the field, not the snake-case one. */
  function BlobFieldKeys(): (keys: set<string>)
    ensures CamelCase(["mime", "type"]) in keys && SnakeCase(["mime", "type"]) !in keys
    ensures "data" in keys && |keys| == 2
  {
    assert CamelCase(["mime", "type"]) == "mimeType" by {
      assert ["mime", "type"][1..] == ["type"];
      assert ["type"][1..] == [];
      assert "type"[1..] == "ype";
    }
    assert SnakeCase(["mime", "type"]) == "mime_type" by {
      assert ["mime", "type"][1..] == ["type"];
    }
    {"mimeType", "data"}
  }

  /** For every part but text, the key as written is not the camel-case key
      the attribute asks for. */
  lemma PartKeyAsWrittenIsNotCamelCase(p: GeminiPart)
    ensures PartKeyAsWritten(p) == PartKey(p) <==> p.Text?
  {
    if p.Text? {
      assert PartFieldWords(p) == ["text"];
    }
  }

  /** The keys of an inline-data part, as written and as intended. */
  lemma InlineDataKeys(b: GeminiBlob)
    ensures PartKeyAsWritten(GeminiPart.InlineData(b)) == "inline_data"
    ensures PartKey(GeminiPart.InlineData(b)) == "inlineData"
  {
    var ws := ["inline", "data"];
    assert PartFieldWords(GeminiPart.InlineData(b)) == ws;
    assert ws[1..] == ["data"];
    assert PartKeyAsWritten(GeminiPart.InlineData(b)) == "inline_data" by {
      assert SnakeCase(ws) == "inline" + "_" + "data";
    }
    assert PartKey(GeminiPart.InlineData(b)) == "inlineData" by {
      assert Capitalized(["data"]) == "Data" by {
        assert ["data"][1..] == [];
        assert "data"[1..] == "ata";
      }
      assert CamelCase(ws) == "inline" + "Data";
    }
  }

  /** Distinct part variants get distinct keys, so the untagged encoding can
      be told apart by its key. */
  lemma PartKeyDistinguishesVariants(p: GeminiPart, q: GeminiPart)
    ensures PartKey(p) == PartKey(q) <==>
      (p.Text? && q.Text?) || (p.InlineData? && q.InlineData?) || (p.FileData? && q.FileData?)
      || (p.ExecutableCode? && q.ExecutableCode?) || (p.CodeExecutionResult? && q.CodeExecutionResult?)
  {
  }
}
