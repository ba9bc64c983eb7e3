/** The streamed-response decoder of the example program (examples/gemini.rs):
    `GeminiResponseParser`, which turns one chunk of the streamed JSON array
    into an optional text fragment, and `ask_ai`, which folds it over the
    stream of chunks. */
module ResponseParser {
  import opened Wrappers
  import opened Seqs
  import opened JsonValue
  import Errors
  import Types
  import opened GeminiTypes
  import Provider
  import Gemini

  // ---------------------------------------------------------------------
  // Cleaning a chunk

  /** The framing chunks: the opening bracket, the closing bracket and the
      empty chunk. */
  predicate IsMarker(chunk: string)
  {
    chunk == "[" || chunk == "]" || chunk == ""
  }

  /** The characters with the Unicode `White_Space` property, which
      `str::trim_start` removes. */
  predicate IsWhitespace(c: char)
  {
    var n := c as int;
    (0x09 <= n <= 0x0D) || n == 0x20 || n == 0x85 || n == 0xA0 || n == 0x1680 ||
    (0x2000 <= n <= 0x200A) || n == 0x2028 || n == 0x2029 || n == 0x202F ||
    n == 0x205F || n == 0x3000
  }

  /** `trim_start_matches(",")`: every leading comma goes. */
  function TrimCommas(s: string): (r: string)
    ensures r == [] || r[0] != ','
    ensures |r| <= |s| && r == s[|s| - |r|..]
    ensures forall i :: 0 <= i < |s| - |r| ==> s[i] == ','
  {
    if s != [] && s[0] == ',' then TrimCommas(s[1..]) else s
  }

  /** `trim_start`: every leading whitespace character goes. */
  function TrimStart(s: string): (r: string)
    ensures r == [] || !IsWhitespace(r[0])
    ensures |r| <= |s| && r == s[|s| - |r|..]
    ensures forall i :: 0 <= i < |s| - |r| ==> IsWhitespace(s[i])
  {
    if s != [] && IsWhitespace(s[0]) then TrimStart(s[1..]) else s
  }

  /** The text handed to the JSON parser: after a leading comma, the commas
      and the whitespace after them are gone; otherwise the chunk is kept. */
  function Clean(chunk: string): (r: string)
    ensures !(|chunk| > 0 && chunk[0] == ',') ==> r == chunk
    ensures |chunk| > 0 && chunk[0] == ',' ==> |r| < |chunk| && (r == [] || !IsWhitespace(r[0]))
    ensures |r| <= |chunk| && r == chunk[|chunk| - |r|..]
    ensures forall i :: 0 <= i < |chunk| - |r| ==> chunk[i] == ',' || IsWhitespace(chunk[i])
    ensures |chunk| > 0 && chunk[0] == ',' ==> r == TrimStart(TrimCommas(chunk))
  {
    if |chunk| > 0 && chunk[0] == ',' then TrimStart(TrimCommas(chunk)) else chunk
  }

  // ---------------------------------------------------------------------
  // Extracting the text

  /** `candidates[0].content.parts[0].text` as a string, looked up the way
      the chain of `get`, `and_then` and `as_str` looks it up. */
  function ExtractText(v: Json): (r: Option<string>)
    ensures r.Some? ==> HasTextAtPath(v, r.value)
    ensures r.None? ==> forall t :: !HasTextAtPath(v, t)
  {
    var candidates := Get(v, "candidates");
    if candidates.None? then None else
    var first := At(candidates.value, 0);
    if first.None? then None else
    var content := Get(first.value, "content");
    if content.None? then None else
    var parts := Get(content.value, "parts");
    if parts.None? then None else
    var part := At(parts.value, 0);
    if part.None? then None else
    var text := Get(part.value, "text");
    if text.None? then None else AsStr(text.value)
  }

  /** The same path, spelled out on the shapes of the values. */
  predicate HasTextAtPath(v: Json, s: string)
  {
    v.Object? && "candidates" in v.fields &&
    var cs := v.fields["candidates"];
    cs.Array? && |cs.items| > 0 && cs.items[0].Object? && "content" in cs.items[0].fields &&
    var content := cs.items[0].fields["content"];
    content.Object? && "parts" in content.fields &&
    var ps := content.fields["parts"];
    ps.Array? && |ps.items| > 0 && ps.items[0].Object? && "text" in ps.items[0].fields &&
    ps.items[0].fields["text"] == Str(s)
  }

  /** The lookup finds `s` exactly when the path leads to the string `s`;
      any missing key, empty array or other kind of value gives nothing. */
  lemma ExtractTextIffPath(v: Json, s: string)
    ensures ExtractText(v) == Some(s) <==> HasTextAtPath(v, s)
    ensures ExtractText(v).None? <==> forall t :: !HasTextAtPath(v, t)
  {
    if ExtractText(v).Some? {
      assert HasTextAtPath(v, ExtractText(v).value);
    }
  }

  /** What `parse_chunk` returns for a chunk that is not a marker. */
  function Decode(text: string, parse: string -> Result<Json, JsonError>): Result<Option<string>, JsonError>
  {
    match parse(text)
    case Err(e) => Err(e)
    case Ok(v) => Ok(ExtractText(v))
  }

  /** What `parse_chunk` returns for any chunk; the flags play no part. */
  function ChunkResult(chunk: string, parse: string -> Result<Json, JsonError>): (r: Result<Option<string>, JsonError>)
    ensures IsMarker(chunk) ==> r == Ok(None)
    ensures r.Err? <==> !IsMarker(chunk) && parse(Clean(chunk)).Err?
    ensures r.Ok? && r.value.Some? ==> !IsMarker(chunk) && HasTextAtPath(parse(Clean(chunk)).value, r.value.value)
  {
    if IsMarker(chunk) then Ok(None) else Decode(Clean(chunk), parse)
  }

  // ---------------------------------------------------------------------
  // The parser

  class GeminiResponseParser {
    var hasStarted: bool
    var hasFinished: bool

    /** `GeminiResponseParser::new`: neither marker seen. */
    constructor()
      ensures !hasStarted && !hasFinished
    {
      hasStarted := false;
      hasFinished := false;
    }

    /** `parse_chunk`. The opening bracket sets `hasStarted`, the closing
        bracket and the empty chunk set `hasFinished`, and every other chunk
        is cleaned, parsed and searched for its text, leaving both flags
        as they were. */
    method ParseChunk(chunk: string, parse: string -> Result<Json, JsonError>) returns (r: Result<Option<string>, JsonError>)
      modifies this
      ensures r == ChunkResult(chunk, parse)
      ensures hasStarted == (old(hasStarted) || chunk == "[")
      ensures hasFinished == (old(hasFinished) || chunk == "]" || chunk == "")
    {
      if chunk == "[" {
        hasStarted := true;
        return Ok(None);
      } else if chunk == "]" || chunk == "" {
        hasFinished := true;
        return Ok(None);
      }
      var cleaned := if |chunk| > 0 && chunk[0] == ',' then TrimStart(TrimCommas(chunk)) else chunk;
      var v := parse(cleaned);
      if v.Err? {
        return Err(v.error);
      }
      r := Ok(ExtractText(v.value));
    }
  }

  // ---------------------------------------------------------------------
  // Properties of one chunk

  /** The framing chunks yield nothing. */
  lemma MarkersYieldNothing(chunk: string, parse: string -> Result<Json, JsonError>)
    requires IsMarker(chunk)
    ensures ChunkResult(chunk, parse) == Ok(None)
  {
  }

  function Commas(n: nat): (s: string)
    ensures |s| == n && forall i :: 0 <= i < n ==> s[i] == ','
  {
    if n == 0 then "" else "," + Commas(n - 1)
  }

  /** One more comma in front is one more comma trimmed. */
  lemma TrimCommasCons(n: nat, rest: string)
    requires n > 0
    ensures TrimCommas(Commas(n) + rest) == TrimCommas(Commas(n - 1) + rest)
  {
    var tail := Commas(n - 1) + rest;
    assert Commas(n) + rest == [','] + tail by {
      assert Commas(n) == [','] + Commas(n - 1);
      AppendAssoc([','], Commas(n - 1), rest);
    }
    ConsParts(',', tail);
  }

  lemma TrimCommasStep(n: nat, rest: string)
    requires n > 0
    requires TrimCommas(Commas(n - 1) + rest) == rest
    ensures TrimCommas(Commas(n) + rest) == rest
  {
    TrimCommasCons(n, rest);
  }

  /** Without a comma in front, nothing is trimmed. */
  lemma TrimCommasNone(rest: string)
    requires rest == [] || rest[0] != ','
    ensures TrimCommas(Commas(0) + rest) == rest
  {
    assert Commas(0) + rest == rest;
  }

  lemma {:induction false} TrimCommasOf(n: nat, rest: string)
    requires rest == [] || rest[0] != ','
    ensures TrimCommas(Commas(n) + rest) == rest
  {
    if n == 0 {
      TrimCommasNone(rest);
    } else {
      TrimCommasOf(n - 1, rest);
      TrimCommasStep(n, rest);
    }
  }

  lemma {:induction false} TrimStartOf(ws: string, rest: string)
    requires forall i :: 0 <= i < |ws| ==> IsWhitespace(ws[i])
    requires rest == [] || !IsWhitespace(rest[0])
    ensures TrimStart(ws + rest) == rest
  {
    if ws != [] {
      assert TrimStart(ws + rest) == TrimStart(ws[1..] + rest) by {
        assert (ws + rest)[0] == ws[0];
        assert (ws + rest)[1..] == ws[1..] + rest;
      }
      TrimStartOf(ws[1..], rest);
    } else {
      assert ws + rest == rest;
    }
  }

  /** The separator in front of every chunk after the first, one or more
      commas and then any whitespace, is dropped before parsing. */
  lemma {:induction false} NoLeadingComma(ws: string, json: string)
    requires forall i :: 0 <= i < |ws| ==> IsWhitespace(ws[i])
    requires json == [] || json[0] != ','
    ensures ws + json == [] || (ws + json)[0] != ','
  {
    if ws != [] {
      assert (ws + json)[0] == ws[0];
      assert IsWhitespace(ws[0]);
    } else {
      assert ws + json == json;
    }
  }

  lemma CleanOfSeparated(n: nat, ws: string, json: string)
    requires n >= 1
    requires forall i :: 0 <= i < |ws| ==> IsWhitespace(ws[i])
    requires json == [] || (json[0] != ',' && !IsWhitespace(json[0]))
    ensures Clean(Commas(n) + (ws + json)) == json
  {
    var chunk := Commas(n) + (ws + json);
    assert TrimCommas(chunk) == ws + json by {
      NoLeadingComma(ws, json);
      TrimCommasOf(n, ws + json);
    }
    assert TrimStart(ws + json) == json by {
      TrimStartOf(ws, json);
    }
    assert chunk[0] == ',';
  }

  lemma SeparatorIgnored(n: nat, ws: string, json: string, parse: string -> Result<Json, JsonError>)
    requires n >= 1
    requires forall i :: 0 <= i < |ws| ==> IsWhitespace(ws[i])
    requires json == [] || (json[0] != ',' && !IsWhitespace(json[0]))
    ensures ChunkResult(Commas(n) + ws + json, parse) == Decode(json, parse)
  {
    var chunk := Commas(n) + ws + json;
    assert Clean(chunk) == json by {
      AppendAssoc(Commas(n), ws, json);
      CleanOfSeparated(n, ws, json);
    }
    assert !IsMarker(chunk) by {
      assert chunk[0] == Commas(n)[0] == ',';
    }
  }

  /** The usual separator: `",\r\n"` in front of a JSON object. */
  lemma CrLfSeparatorIgnored(json: string, parse: string -> Result<Json, JsonError>)
    requires json == [] || (json[0] != ',' && !IsWhitespace(json[0]))
    ensures ChunkResult(",\r\n" + json, parse) == Decode(json, parse)
  {
    var ws := "\r\n";
    assert IsWhitespace(ws[0]) && IsWhitespace(ws[1]);
    assert Commas(1) == ",";
    assert ",\r\n" + json == Commas(1) + ws + json;
    SeparatorIgnored(1, ws, json, parse);
  }

  /** A chunk not starting with a comma reaches the parser untouched,
      whitespace and all. */
  lemma NoCommaUntouched(chunk: string, parse: string -> Result<Json, JsonError>)
    requires !IsMarker(chunk) && chunk[0] != ','
    ensures ChunkResult(chunk, parse) == Decode(chunk, parse)
  {
  }

  /** A chunk yields an error exactly when it is not a marker and its cleaned
      text does not parse; that error is the parser's own. */
  lemma ErrorsAreParseErrors(chunk: string, parse: string -> Result<Json, JsonError>)
    ensures ChunkResult(chunk, parse).Err? <==> !IsMarker(chunk) && parse(Clean(chunk)).Err?
    ensures ChunkResult(chunk, parse).Err? ==> ChunkResult(chunk, parse).error == parse(Clean(chunk)).error
  {
  }

  /** On a chunk that parses, the result is `Some(s)` exactly when the path
      leads to the string `s`. */
  lemma TextIffPath(chunk: string, parse: string -> Result<Json, JsonError>, s: string)
    requires !IsMarker(chunk) && parse(Clean(chunk)).Ok?
    ensures ChunkResult(chunk, parse) == Ok(Some(s)) <==> HasTextAtPath(parse(Clean(chunk)).value, s)
  {
    ExtractTextIffPath(parse(Clean(chunk)).value, s);
  }

  /** The result does not depend on the parser's state: two parsers in any
      states, or one parser fed the same chunk twice, give the same answer. */
  method SameChunkSameResult(p: GeminiResponseParser, q: GeminiResponseParser, chunk: string, parse: string -> Result<Json, JsonError>)
    returns (a: Result<Option<string>, JsonError>, b: Result<Option<string>, JsonError>)
    modifies p, q
    ensures a == b
  {
    a := p.ParseChunk(chunk, parse);
    b := q.ParseChunk(chunk, parse);
  }

  // ---------------------------------------------------------------------
  // The consuming loop

  /** The UTF-8 length of one character. */
  function CharUtf8Len(c: char): (n: nat)
    ensures 1 <= n <= 4
    ensures n == 1 <==> c as int < 0x80
  {
    if c as int < 0x80 then 1
    else if c as int < 0x800 then 2
    else if c as int < 0x10000 then 3
    else 4
  }

  /** `str::len`: the UTF-8 length of a text. */
  function Utf8Len(s: string): nat
  {
    Sum(MapSeq(CharUtf8Len, s))
  }

  /** A text takes at least one byte and at most four per character, and
      exactly one per character when it is ASCII. */
  lemma {:induction false} Utf8LenBounds(s: string)
    ensures |s| <= Utf8Len(s) <= 4 * |s|
    ensures (forall i :: 0 <= i < |s| ==> s[i] as int < 0x80) ==> Utf8Len(s) == |s|
  {
    if s != [] {
      Utf8LenBounds(s[1..]);
      assert MapSeq(CharUtf8Len, s)[1..] == MapSeq(CharUtf8Len, s[1..]);
    }
  }

  /** The bytes written for a list of fragments. */
  function TotalBytes(fragments: seq<string>): nat
  {
    Sum(MapSeq(Utf8Len, fragments))
  }

  lemma TotalBytesAppend(xs: seq<string>, ys: seq<string>)
    ensures TotalBytes(xs + ys) == TotalBytes(xs) + TotalBytes(ys)
  {
    MapSeqAppend(Utf8Len, xs, ys);
    SumAppend(MapSeq(Utf8Len, xs), MapSeq(Utf8Len, ys));
  }

  lemma TotalBytesOne(text: string)
    ensures TotalBytes([text]) == Utf8Len(text)
  {
    var m := MapSeq(Utf8Len, [text]);
    assert m == [Utf8Len(text)];
    assert m[1..] == [];
    assert Sum(m) == m[0] + Sum(m[1..]);
  }

  /** The fragment a chunk contributes: its text when it yields one. */
  function Emit(chunk: string, parse: string -> Result<Json, JsonError>): (e: seq<string>)
    ensures |e| <= 1
    ensures |e| == 1 <==> ChunkResult(chunk, parse).Ok? && ChunkResult(chunk, parse).value.Some?
    ensures |e| == 1 ==> ChunkResult(chunk, parse) == Ok(Some(e[0]))
  {
    match ChunkResult(chunk, parse)
    case Ok(Some(t)) => [t]
    case _ => []
  }

  lemma EmitOfResult(chunk: string, parse: string -> Result<Json, JsonError>, r: Result<Option<string>, JsonError>)
    requires r == ChunkResult(chunk, parse)
    ensures r.Ok? && r.value.Some? ==> Emit(chunk, parse) == [r.value.value]
    ensures !(r.Ok? && r.value.Some?) ==> Emit(chunk, parse) == []
  {
  }

  /** The fragments of a run of chunks, in chunk order; chunks that yield an
      error or nothing are skipped. */
  function Fragments(chunks: seq<string>, parse: string -> Result<Json, JsonError>): seq<string>
  {
    if chunks == [] then [] else Emit(chunks[0], parse) + Fragments(chunks[1..], parse)
  }

  lemma {:induction false} FragmentsAppend(xs: seq<string>, ys: seq<string>, parse: string -> Result<Json, JsonError>)
    ensures Fragments(xs + ys, parse) == Fragments(xs, parse) + Fragments(ys, parse)
  {
    if xs != [] {
      assert (xs + ys)[1..] == xs[1..] + ys;
      FragmentsAppend(xs[1..], ys, parse);
    } else {
      assert xs + ys == ys;
    }
  }

  /** The outputs of `f` on each chunk, joined in chunk order. */
  function Concat(chunks: seq<string>, f: string -> seq<string>): seq<string>
  {
    if chunks == [] then [] else f(chunks[0]) + Concat(chunks[1..], f)
  }

  /** Every element of the joined outputs comes from one chunk's output. */
  lemma {:induction false} ConcatFrom(chunks: seq<string>, f: string -> seq<string>, k: nat)
    requires k < |Concat(chunks, f)|
    ensures exists j, i :: 0 <= j < |chunks| && 0 <= i < |f(chunks[j])| && f(chunks[j])[i] == Concat(chunks, f)[k]
  {
    var e := f(chunks[0]);
    var rest := Concat(chunks[1..], f);
    assert Concat(chunks, f) == e + rest;
    if k < |e| {
      assert e[k] == Concat(chunks, f)[k];
    } else {
      ConcatFrom(chunks[1..], f, k - |e|);
      var j, i :| 0 <= j < |chunks[1..]| && 0 <= i < |f(chunks[1..][j])| && f(chunks[1..][j])[i] == rest[k - |e|];
      assert chunks[1..][j] == chunks[j + 1];
      assert f(chunks[j + 1])[i] == Concat(chunks, f)[k];
    }
  }

  lemma {:induction false} FragmentsAreConcat(chunks: seq<string>, parse: string -> Result<Json, JsonError>)
    ensures Fragments(chunks, parse) == Concat(chunks, c => Emit(c, parse))
  {
    if chunks != [] {
      FragmentsAreConcat(chunks[1..], parse);
    }
  }

  lemma FragmentsFromEmits(chunks: seq<string>, parse: string -> Result<Json, JsonError>, k: nat)
    requires k < |Fragments(chunks, parse)|
    ensures exists j :: 0 <= j < |chunks| && Emit(chunks[j], parse) == [Fragments(chunks, parse)[k]]
  {
    var f := c => Emit(c, parse);
    FragmentsAreConcat(chunks, parse);
    ConcatFrom(chunks, f, k);
    var j, i :| 0 <= j < |chunks| && 0 <= i < |f(chunks[j])| && f(chunks[j])[i] == Concat(chunks, f)[k];
    assert f(chunks[j]) == Emit(chunks[j], parse);
    SingletonOf(Emit(chunks[j], parse), i);
  }

  /** Nothing is emitted that no chunk yields: every fragment is the text of
      some chunk's result. */
  lemma FragmentsComeFromChunks(chunks: seq<string>, parse: string -> Result<Json, JsonError>, k: nat)
    requires k < |Fragments(chunks, parse)|
    ensures exists j :: 0 <= j < |chunks| && ChunkResult(chunks[j], parse) == Ok(Some(Fragments(chunks, parse)[k]))
  {
    FragmentsFromEmits(chunks, parse, k);
    var j :| 0 <= j < |chunks| && Emit(chunks[j], parse) == [Fragments(chunks, parse)[k]];
    assert ChunkResult(chunks[j], parse) == Ok(Some(Fragments(chunks, parse)[k]));
  }

  /** The chunks read before the first failed read. */
  function ReadOk(items: seq<Result<string, Errors.LlmError>>): seq<string>
  {
    if items == [] || items[0].Err? then [] else [items[0].value] + ReadOk(items[1..])
  }

  /** The first failed read, if any. */
  function FirstError(items: seq<Result<string, Errors.LlmError>>): (r: Option<Errors.LlmError>)
    ensures r.None? <==> forall i :: 0 <= i < |items| ==> items[i].Ok?
  {
    if items == [] then None
    else if items[0].Err? then Some(items[0].error)
    else
      var r := FirstError(items[1..]);
      assert r.None? ==> forall i :: 1 <= i < |items| ==> items[1..][i - 1] == items[i];
      r
  }

  /** Reading one good chunk moves it from the unread chunks to the
      fragments written. */
  lemma ReadOkStep(items: seq<Result<string, Errors.LlmError>>, i: nat, parse: string -> Result<Json, JsonError>)
    requires i < |items| && items[i].Ok?
    ensures Fragments(ReadOk(items[i..]), parse) == Emit(items[i].value, parse) + Fragments(ReadOk(items[i + 1..]), parse)
    ensures FirstError(items[i..]) == FirstError(items[i + 1..])
  {
    assert items[i..][1..] == items[i + 1..];
    var rest := ReadOk(items[i + 1..]);
    assert ReadOk(items[i..]) == [items[i].value] + rest;
    assert ([items[i].value] + rest)[1..] == rest;
  }

  lemma FragmentsStep(before: seq<string>, items: seq<Result<string, Errors.LlmError>>, i: nat, parse: string -> Result<Json, JsonError>)
    requires i < |items| && items[i].Ok?
    requires before + Fragments(ReadOk(items[i..]), parse) == Fragments(ReadOk(items), parse)
    ensures (before + Emit(items[i].value, parse)) + Fragments(ReadOk(items[i + 1..]), parse) == Fragments(ReadOk(items), parse)
  {
    ReadOkStep(items, i, parse);
    var e := Emit(items[i].value, parse);
    var rest := Fragments(ReadOk(items[i + 1..]), parse);
    AppendAssoc(before, e, rest);
  }

  /** A failed read ends what is read. */
  lemma ReadOkStops(items: seq<Result<string, Errors.LlmError>>, i: nat)
    requires i <= |items| && (i == |items| || items[i].Err?)
    ensures ReadOk(items[i..]) == []
    ensures i < |items| ==> FirstError(items[i..]) == Some(items[i].error)
    ensures i == |items| ==> FirstError(items[i..]) == None
  {
    if i == |items| {
      assert items[i..] == [];
    }
  }

  /** The error type of the example program. */
  datatype AppError = Llm(err: Errors.LlmError) | Generic(message: string)

  /** `Display for Error`: an `LlmError` shows through, a generic error is
      its message. */
  function AppErrorDisplay(e: AppError): (s: string)
    ensures e.Generic? ==> s == e.message
    ensures e.Llm? ==> s == Errors.Display(e.err)
  {
    match e
    case Llm(err) => Errors.Display(err)
    case Generic(m) => m
  }

  /** One turn of the loop: the chunk goes through the parser, and its
      fragment, if any, is written out and counted. */
  method Feed(parser: GeminiResponseParser, chunk: string, parse: string -> Result<Json, JsonError>, emitted: seq<string>, writtenLen: nat)
    returns (emitted': seq<string>, writtenLen': nat)
    requires writtenLen == TotalBytes(emitted)
    modifies parser
    ensures parser.hasStarted == (old(parser.hasStarted) || chunk == "[")
    ensures parser.hasFinished == (old(parser.hasFinished) || chunk == "]" || chunk == "")
    ensures emitted' == emitted + Emit(chunk, parse)
    ensures writtenLen' == TotalBytes(emitted')
  {
    var r := parser.ParseChunk(chunk, parse);
    EmitOfResult(chunk, parse, r);
    emitted', writtenLen' := emitted, writtenLen;
    if r.Ok? && r.value.Some? {
      var text := r.value.value;
      TotalBytesAppend(emitted, [text]);
      TotalBytesOne(text);
      emitted' := emitted + [text];
      writtenLen' := writtenLen + Utf8Len(text);
    } else {
      assert emitted + [] == emitted;
    }
  }

  const READ_FAILURE: string := "Failed to read response from LLM"

  /** The loop of `ask_ai` over the chunk stream: a fresh parser is fed every
      chunk; each text fragment is written out and its UTF-8 length added to
      `writtenLen`. A failed read stops the loop with that error, annotated. */
  method StreamToStdout(items: seq<Result<string, Errors.LlmError>>, parse: string -> Result<Json, JsonError>)
    returns (emitted: seq<string>, writtenLen: nat, outcome: Result<(), AppError>)
    ensures emitted == Fragments(ReadOk(items), parse)
    ensures writtenLen == TotalBytes(emitted)
    ensures outcome.Ok? <==> FirstError(items).None?
    ensures outcome.Err? ==> outcome.error == Llm(Errors.AddContext(FirstError(items).value, READ_FAILURE))
  {
    var parser := new GeminiResponseParser();
    emitted := [];
    writtenLen := 0;
    var i := 0;
    while i < |items| && items[i].Ok?
      invariant 0 <= i <= |items|
      invariant emitted + Fragments(ReadOk(items[i..]), parse) == Fragments(ReadOk(items), parse)
      invariant FirstError(items[i..]) == FirstError(items)
      invariant writtenLen == TotalBytes(emitted)
    {
      var before := emitted;
      emitted, writtenLen := Feed(parser, items[i].value, parse, emitted, writtenLen);
      ReadOkStep(items, i, parse);
      FragmentsStep(before, items, i, parse);
      i := i + 1;
    }
    ReadOkStops(items, i);
    if i < |items| {
      return emitted, writtenLen, Err(Llm(Errors.AddContext(items[i].error, READ_FAILURE)));
    }
    outcome := Ok(());
  }

  const RESPONSE_FAILURE: string := "Failed to get response from LLM"
  const NOT_STREAM: string := "Response is not stream"

  /** The chunk stream as the model sees it: a finite run of reads, each a
      chunk of text or a read error. */
  type ChunkStream = seq<Result<string, Errors.LlmError>>

  /** `ask_ai` from the result of `generate` on: a failed call is annotated,
      a buffered answer fails the `ensure!`, and a stream is consumed. */
  method ConsumeResponse(res: Result<Provider.MaybeStream<Json, ChunkStream>, Errors.LlmError>, parse: string -> Result<Json, JsonError>)
    returns (emitted: seq<string>, writtenLen: nat, outcome: Result<(), AppError>)
    ensures res.Err? ==> emitted == [] && outcome == Err(Llm(Errors.AddContext(res.error, RESPONSE_FAILURE)))
    ensures res.Ok? && res.value.Static? ==> emitted == [] && outcome == Err(Generic(NOT_STREAM))
    ensures res.Ok? && res.value.Stream? ==>
      emitted == Fragments(ReadOk(res.value.stream), parse) &&
      (outcome.Ok? <==> FirstError(res.value.stream).None?) &&
      (outcome.Err? ==> outcome.error == Llm(Errors.AddContext(FirstError(res.value.stream).value, READ_FAILURE)))
    ensures writtenLen == TotalBytes(emitted)
  {
    var annotated := Errors.ResultContext(res, RESPONSE_FAILURE);
    if annotated.Err? {
      return [], 0, Err(Llm(annotated.error));
    }
    var guard := Errors.Ensure(annotated.value.IsStream(), Generic(NOT_STREAM), (e: AppError) => e);
    if guard.Err? {
      return [], 0, Err(guard.error);
    }
    var stream := annotated.value.UnwrapStream();
    emitted, writtenLen, outcome := StreamToStdout(stream, parse);
  }

  const CREATE_FAILURE: string := "Failed to create the Gemini Client"
  const PROMPT: string := "Hi my name is Emil and i like to write complex rust libraries"

  /** The one content `ask_ai` sends: the prompt as a user text part. */
  function Prompt(): (c: GeminiContent)
    ensures c.role == Some(Types.User) && c.parts == [GeminiPart.Text(PROMPT)]
  {
    ContentNew(Some(Types.User), PROMPT, PartFromString)
  }

  /** `ask_ai`: build the client, ask the provider for a stream of the
      answer to the prompt, and consume it. */
  method AskAi(key: string, builderError: Option<string>, t: Gemini.Transport<ChunkStream>, parse: string -> Result<Json, JsonError>)
    returns (emitted: seq<string>, writtenLen: nat, outcome: Result<(), AppError>)
    ensures builderError.Some? ==>
      (emitted == [] &&
       outcome == Err(Llm(Errors.AddContext(Errors.LlmError(Errors.Reqwest(builderError.value)), CREATE_FAILURE))))
    ensures builderError.None? ==>
      var sent := t.postStream(Gemini.StreamUrl(Gemini.GeminiClient(Gemini.Gemini2Flash, key)),
                               GeminiRequest([Prompt()]));
      (sent.Err? ==> emitted == [] && outcome == Err(Llm(Errors.AddContext(sent.error, RESPONSE_FAILURE)))) &&
      (sent.Ok? ==>
        (emitted == Fragments(ReadOk(sent.value), parse) &&
         (outcome.Ok? <==> FirstError(sent.value).None?) &&
         (outcome.Err? ==> outcome.error == Llm(Errors.AddContext(FirstError(sent.value).value, READ_FAILURE)))))
    ensures writtenLen == TotalBytes(emitted)
  {
    var client := Errors.ResultContext(Gemini.ClientNew(Gemini.Gemini2Flash, key, builderError), CREATE_FAILURE);
    if client.Err? {
      return [], 0, Err(Llm(client.error));
    }
    var provider := Provider.New(Gemini.AsLlmClient(client.value, t));
    var res := Provider.Generate(provider, [Prompt()], true);
    emitted, writtenLen, outcome := ConsumeResponse(res, parse);
  }
}
