/** The crate's error chain: `LlmErrorType`, the `LlmError` wrapper, the
    context annotations that nest one error inside another, and the text an
    error renders as. */
module Errors {
  import opened Wrappers
  import opened Seqs

  /** `LlmErrorType`. The four foreign kinds and the boxed generic error are
      opaque leaves kept as the text they display; `Context` nests a message
      around an older error; `Empty` names a missing value. */
  datatype LlmErrorType =
    | Reqwest(cause: string)
    | Parse(cause: string)
    | Json(cause: string)
    | Io(cause: string)
    | Generic(cause: string)
    | Context(message: string, source: LlmErrorType)
    | Empty(value: string, expected: seq<string>)

  datatype LlmError = LlmError(errorType: LlmErrorType)

  /** The errors that convert into a leaf kind through the `#[from]`
      conversions: `reqwest::Error`, `url::ParseError`, `serde_json::Error`,
      `std::io::Error` and any boxed error. */
  datatype ForeignError =
    | ReqwestError(text: string)
    | UrlParseError(text: string)
    | SerdeJsonError(text: string)
    | IoError(text: string)
    | BoxedError(text: string)

  /** `From<E> for LlmErrorType` on the foreign errors: each lands in its own
      leaf kind with its text kept. */
  function FromForeign(e: ForeignError): (t: LlmErrorType)
    ensures !t.Context? && !t.Empty?
    ensures t.cause == e.text
    ensures e.ReqwestError? <==> t.Reqwest?
    ensures e.UrlParseError? <==> t.Parse?
    ensures e.SerdeJsonError? <==> t.Json?
    ensures e.IoError? <==> t.Io?
    ensures e.BoxedError? <==> t.Generic?
  {
    match e
    case ReqwestError(s) => Reqwest(s)
    case UrlParseError(s) => Parse(s)
    case SerdeJsonError(s) => Json(s)
    case IoError(s) => Io(s)
    case BoxedError(s) => Generic(s)
  }

  // ---------------------------------------------------------------------
  // Shape of a chain

  /** The context messages of a chain, outermost first. */
  function Messages(t: LlmErrorType): seq<string>
  {
    if t.Context? then [t.message] + Messages(t.source) else []
  }

  /** The number of `Context` layers above the leaf. */
  function Depth(t: LlmErrorType): nat
  {
    if t.Context? then 1 + Depth(t.source) else 0
  }

  /** The error at the bottom of a chain. */
  function Leaf(t: LlmErrorType): (l: LlmErrorType)
    ensures !l.Context?
  {
    if t.Context? then Leaf(t.source) else t
  }

  /** Follows `source` through at most `n` `Context` layers. */
  function Walk(t: LlmErrorType, n: nat): LlmErrorType
  {
    if n == 0 || !t.Context? then t else Walk(t.source, n - 1)
  }

  lemma {:induction false} MessagesLength(t: LlmErrorType)
    ensures |Messages(t)| == Depth(t)
  {
    if t.Context? {
      MessagesLength(t.source);
    }
  }

  /** Following `source` from a chain never meets a leaf early and meets
      the original leaf after exactly `Depth` steps. */
  lemma {:induction false} WalkReachesLeaf(t: LlmErrorType, k: nat)
    ensures k < Depth(t) ==> Walk(t, k).Context?
    ensures Walk(t, Depth(t)) == Leaf(t)
  {
    if t.Context? {
      if k > 0 {
        WalkReachesLeaf(t.source, k - 1);
      } else {
        WalkReachesLeaf(t.source, 0);
      }
    }
  }

  // ---------------------------------------------------------------------
  // Building chains

  /** `LlmError::new`. */
  function New(t: LlmErrorType): (e: LlmError)
    ensures e.errorType == t
  {
    LlmError(t)
  }

  /** `LlmError::add_context`: one new layer on top, nothing flattened. */
  function AddContext(e: LlmError, message: string): (r: LlmError)
    ensures r.errorType.Context? && r.errorType.source == e.errorType
    ensures Messages(r.errorType) == [message] + Messages(e.errorType)
    ensures Depth(r.errorType) == Depth(e.errorType) + 1
    ensures Leaf(r.errorType) == Leaf(e.errorType)
  {
    LlmError(Context(message, e.errorType))
  }

  /** `LlmError::new_context`: a layer with exactly this message and source. */
  function NewContext(message: string, source: LlmErrorType): (r: LlmError)
    ensures r.errorType.Context?
    ensures r.errorType.message == message && r.errorType.source == source
    ensures Messages(r.errorType) == [message] + Messages(source)
    ensures Depth(r.errorType) == Depth(source) + 1
  {
    LlmError(Context(message, source))
  }

  /** `add_context` applied once per message, in order. */
  function AnnotateAll(e: LlmError, ms: seq<string>): LlmError
    decreases |ms|
  {
    if ms == [] then e else AnnotateAll(AddContext(e, ms[0]), ms[1..])
  }

  function Reverse<T>(xs: seq<T>): (r: seq<T>)
    ensures |r| == |xs|
    ensures forall i :: 0 <= i < |xs| ==> r[i] == xs[|xs| - 1 - i]
  {
    if xs == [] then [] else Reverse(xs[1..]) + [xs[0]]
  }

  /** Repeated annotation nests: the newest message comes first, every older
      message follows in order, and the leaf is untouched. */
  lemma {:induction false} AnnotateAllNests(e: LlmError, ms: seq<string>)
    ensures Messages(AnnotateAll(e, ms).errorType) == Reverse(ms) + Messages(e.errorType)
    ensures Depth(AnnotateAll(e, ms).errorType) == Depth(e.errorType) + |ms|
    ensures Leaf(AnnotateAll(e, ms).errorType) == Leaf(e.errorType)
    decreases |ms|
  {
    if ms != [] {
      var e' := AddContext(e, ms[0]);
      AnnotateAllNests(e', ms[1..]);
      assert Reverse(ms) == Reverse(ms[1..]) + [ms[0]];
      assert Messages(e'.errorType) == [ms[0]] + Messages(e.errorType);
    }
  }

  /** `<LlmError as Error>::source`: always present; the inner error of a
      `Context`, and the error kind itself on a leaf. */
  function Source(e: LlmError): (r: Option<LlmErrorType>)
    ensures r.Some?
    ensures e.errorType.Context? ==> r.value == e.errorType.source
    ensures e.errorType.Context? ==> Depth(r.value) + 1 == Depth(e.errorType)
    ensures !e.errorType.Context? ==> r.value == e.errorType
    ensures Leaf(r.value) == Leaf(e.errorType)
  {
    match e.errorType
    case Context(_, source) => Some(source)
    case _ => Some(e.errorType)
  }

  /** Undoing `add_context` through `source`. */
  lemma SourceOfAddContext(e: LlmError, m: string)
    ensures Source(AddContext(e, m)) == Some(e.errorType)
  {
  }

  // ---------------------------------------------------------------------
  // Rendering

  /** `{:?}` of a `&str`: quoted, with quote, backslash, NUL, tab, carriage
      return and line feed escaped. */
  function DebugStr(s: string): (r: string)
    ensures |r| >= 2 && r[0] == '"' && r[|r| - 1] == '"'
    ensures Unescape(r[1..|r| - 1]) == s
  {
    var r := "\"" + Escape(s) + "\"";
    assert r[1..|r| - 1] == Escape(s);
    EscapeRoundTrip(s);
    r
  }

  function EscapeChar(c: char): (r: string)
    ensures |r| == 1 <==> c !in "\"\\\0\t\r\n"
    ensures |r| == 1 ==> r == [c]
    ensures |r| == 2 ==> r[0] == '\\'
  {
    match c
    case '"' => "\\\""
    case '\\' => "\\\\"
    case '\0' => "\\0"
    case '\t' => "\\t"
    case '\r' => "\\r"
    case '\n' => "\\n"
    case _ => [c]
  }

  function Escape(s: string): string
  {
    if s == [] then [] else EscapeChar(s[0]) + Escape(s[1..])
  }

  /** The inverse of `EscapeChar` on the character after a backslash. */
  function UnescapeChar(c: char): char
  {
    match c
    case '0' => '\0'
    case 't' => '\t'
    case 'r' => '\r'
    case 'n' => '\n'
    case _ => c
  }

  function Unescape(s: string): string
  {
    if |s| >= 2 && s[0] == '\\' then [UnescapeChar(s[1])] + Unescape(s[2..])
    else if s == [] then []
    else [s[0]] + Unescape(s[1..])
  }

  /** Reading back one escaped character. */
  lemma EscapeCharRoundTrip(c: char, rest: string)
    ensures Unescape(EscapeChar(c) + rest) == [c] + Unescape(rest)
  {
    var head := EscapeChar(c);
    if |head| == 1 {
      assert c != '\\';
      assert (head + rest)[0] == c;
      assert (head + rest)[1..] == rest;
    } else {
      assert (head + rest)[0] == '\\';
      assert (head + rest)[1] == head[1];
      assert (head + rest)[2..] == rest;
      assert UnescapeChar(head[1]) == c;
    }
  }

  /** Reading the escapes back gives the original text. */
  lemma {:induction false} EscapeRoundTrip(s: string)
    ensures Unescape(Escape(s)) == s
  {
    if s != [] {
      EscapeRoundTrip(s[1..]);
      EscapeCharRoundTrip(s[0], Escape(s[1..]));
    }
  }

  /** `{:?}` of a `&[&str]`. */
  function DebugList(xs: seq<string>): (r: string)
    ensures |r| >= 2 && r[0] == '[' && r[|r| - 1] == ']'
    ensures r[1..|r| - 1] == JoinDebug(xs)
  {
    var r := "[" + JoinDebug(xs) + "]";
    assert r[1..|r| - 1] == JoinDebug(xs);
    r
  }

  /** The elements' `{:?}` texts, in order, separated by `", "`. */
  function JoinDebug(xs: seq<string>): (r: string)
    ensures r == [] <==> xs == []
    ensures xs != [] ==> DebugStr(xs[0]) <= r
    decreases |xs|
  {
    if xs == [] then ""
    else if |xs| == 1 then DebugStr(xs[0])
    else DebugStr(xs[0]) + ", " + JoinDebug(xs[1..])
  }

  /** Appending one more element adds a separator and its `{:?}` text at
      the end. */
  lemma {:induction false} JoinDebugAppend(xs: seq<string>, x: string)
    requires xs != []
    ensures JoinDebug(xs + [x]) == JoinDebug(xs) + ", " + DebugStr(x)
  {
    var ys := xs + [x];
    assert ys[0] == xs[0] && |ys| >= 2;
    var head := DebugStr(xs[0]);
    if |xs| == 1 {
      calc {
        JoinDebug(ys);
        head + ", " + JoinDebug(ys[1..]);
        { assert ys[1..] == [x]; }
        head + ", " + DebugStr(x);
      }
    } else {
      calc {
        JoinDebug(ys);
        head + ", " + JoinDebug(ys[1..]);
        { assert ys[1..] == xs[1..] + [x]; JoinDebugAppend(xs[1..], x); }
        head + ", " + (JoinDebug(xs[1..]) + ", " + DebugStr(x));
        { AppendAssoc(head + ", ", JoinDebug(xs[1..]) + ", ", DebugStr(x));
          AppendAssoc(head + ", " + JoinDebug(xs[1..]), ", ", DebugStr(x));
          AppendAssoc(head + ", ", JoinDebug(xs[1..]), ", "); }
        head + ", " + JoinDebug(xs[1..]) + ", " + DebugStr(x);
        JoinDebug(xs) + ", " + DebugStr(x);
      }
    }
  }

  /** `<LlmErrorType as Display>`: transparent leaves show their own text,
      a `Context` shows only its own message. */
  function TypeDisplay(t: LlmErrorType): (s: string)
    ensures (t.Reqwest? || t.Parse? || t.Json? || t.Io?) ==> s == t.cause
    ensures t.Context? ==> s == t.message
    ensures t.Generic? ==> (|s| >= 19 && s[..19] == "An error occurred: " && s[19..] == t.cause)
    ensures t.Empty? ==> s == "Value was empty. " + t.value + ", expected one of: " + DebugList(t.expected)
  {
    match t
    case Reqwest(c) => c
    case Parse(c) => c
    case Json(c) => c
    case Io(c) => c
    case Generic(c) => "An error occurred: " + c
    case Context(m, _) => m
    case Empty(v, ex) => "Value was empty. " + v + ", expected one of: " + DebugList(ex)
  }

  /** One context line. */
  function ContextLine(m: string): string
  {
    "\t- " + m + "\n"
  }

  /** One context line per message, in order. */
  function ContextLines(ms: seq<string>): string
  {
    if ms == [] then "" else ContextLine(ms[0]) + ContextLines(ms[1..])
  }

  /** `LlmErrorType::fmt_context`: one line per `Context` layer; the leaf
      writes nothing. */
  function FmtContext(t: LlmErrorType): (s: string)
    ensures s == ContextLines(Messages(t))
  {
    if t.Context? then ContextLine(t.message) + FmtContext(t.source) else ""
  }

  /** `<LlmError as Display>`. A leaf renders as one line. A chain renders
      its outermost message, then a `Context:` block with one line per layer,
      outermost first; the leaf at the bottom is not rendered. */
  function Display(e: LlmError): (s: string)
    ensures !e.errorType.Context? ==> s == "Error: " + TypeDisplay(e.errorType) + "\n"
    ensures e.errorType.Context? ==>
      s == "Error: " + e.errorType.message + "\n" + "\nContext:\n" + ContextLines(Messages(e.errorType))
  {
    var head := "Error: " + TypeDisplay(e.errorType) + "\n";
    match e.errorType
    case Context(m, source) => head + "\nContext:\n" + ContextLine(m) + FmtContext(source)
    case _ => head
  }

  lemma {:induction false} ContextLinesMention(ms: seq<string>, i: nat)
    requires i < |ms|
    ensures Contains(ContextLines(ms), ContextLine(ms[i]))
  {
    if i == 0 {
      ContainsInMiddle("", ContextLine(ms[0]), ContextLines(ms[1..]));
      assert "" + ContextLine(ms[0]) + ContextLines(ms[1..]) == ContextLines(ms);
    } else {
      ContextLinesMention(ms[1..], i - 1);
      ContainsExtend(ContextLines(ms[1..]), ContextLine(ms[i]), ContextLine(ms[0]), "");
      assert ContextLine(ms[0]) + ContextLines(ms[1..]) + "" == ContextLines(ms);
    }
  }

  /** Every layer of a chain appears as its own line in the rendered text. */
  lemma DisplayMentionsEveryLayer(e: LlmError, i: nat)
    requires e.errorType.Context? && i < |Messages(e.errorType)|
    ensures Contains(Display(e), ContextLine(Messages(e.errorType)[i]))
  {
    var ms := Messages(e.errorType);
    ContextLinesMention(ms, i);
    ContainsExtend(ContextLines(ms), ContextLine(ms[i]),
      "Error: " + e.errorType.message + "\n" + "\nContext:\n", "");
    assert "Error: " + e.errorType.message + "\n" + "\nContext:\n" + ContextLines(ms) + "" == Display(e);
  }

  // ---------------------------------------------------------------------
  // WithContext

  /** `Result<T, LlmError>::context`. */
  function ResultContext<T>(r: Result<T, LlmError>, c: string): (x: Result<T, LlmError>)
    ensures x.Ok? <==> r.Ok?
    ensures r.Ok? ==> x.value == r.value
    ensures r.Err? ==> x.error.errorType == Context(c, r.error.errorType)
  {
    r.MapErr(e => AddContext(e, c))
  }

  /** `Result<T, LlmError>::with_context`: the message comes from `f`. */
  function ResultWithContext<T>(r: Result<T, LlmError>, f: () -> string): (x: Result<T, LlmError>)
    ensures x.Ok? <==> r.Ok?
    ensures r.Ok? ==> x.value == r.value
    ensures r.Err? ==> x.error.errorType == Context(f(), r.error.errorType)
  {
    r.MapErr(e => AddContext(e, f()))
  }

  /** `Result<T, E>::context` for any `E: Into<LlmErrorType>`; the
      conversion is `into`. */
  function ForeignResultContext<T, E>(r: Result<T, E>, into: E -> LlmErrorType, c: string): (x: Result<T, LlmError>)
    ensures x.Ok? <==> r.Ok?
    ensures r.Ok? ==> x.value == r.value
    ensures r.Err? ==> x.error.errorType == Context(c, into(r.error))
  {
    r.MapErr(e => NewContext(c, into(e)))
  }

  /** `Result<T, E>::with_context` for any `E: Into<LlmErrorType>`. */
  function ForeignResultWithContext<T, E>(r: Result<T, E>, into: E -> LlmErrorType, f: () -> string): (x: Result<T, LlmError>)
    ensures x.Ok? <==> r.Ok?
    ensures r.Ok? ==> x.value == r.value
    ensures r.Err? ==> x.error.errorType == Context(f(), into(r.error))
  {
    r.MapErr(e => NewContext(f(), into(e)))
  }

  /** The error an absent value becomes: `Empty` holding the `{:?}` text of
      `None` and no expected values. */
  const NoneLeaf := Empty("None", [])

  /** `Option<T>::context`. */
  function OptionContext<T>(o: Option<T>, c: string): (x: Result<T, LlmError>)
    ensures x.Ok? <==> o.Some?
    ensures o.Some? ==> x.value == o.value
    ensures o.None? ==> x.error.errorType == Context(c, Empty("None", []))
  {
    match o
    case Some(v) => Ok(v)
    case None => Err(NewContext(c, NoneLeaf))
  }

  /** `Option<T>::with_context`. */
  function OptionWithContext<T>(o: Option<T>, f: () -> string): (x: Result<T, LlmError>)
    ensures x.Ok? <==> o.Some?
    ensures o.Some? ==> x.value == o.value
    ensures o.None? ==> x.error.errorType == Context(f(), Empty("None", []))
  {
    match o
    case Some(v) => Ok(v)
    case None => Err(NewContext(f(), NoneLeaf))
  }

  /** Annotating a leaf adds exactly one layer whatever the route. */
  lemma ContextAddsOneLayer<T>(r: Result<T, LlmError>, c: string)
    requires r.Err? && !r.error.errorType.Context?
    ensures Depth(ResultContext(r, c).error.errorType) == 1
    ensures Messages(ResultContext(r, c).error.errorType) == [c]
  {
  }

  /** The text of an absent value with context: the block lists the one
      message, and the `Empty` leaf beneath it is not rendered. */
  lemma NoneContextDisplay<T>(c: string)
    ensures Display(OptionContext<T>(None, c).error) == "Error: " + c + "\n" + "\nContext:\n" + "\t- " + c + "\n"
  {
    var e := OptionContext<T>(None, c).error;
    assert Messages(e.errorType) == [c] + Messages(NoneLeaf);
    assert ContextLines([c]) == ContextLine(c) + ContextLines([]);
  }

  // ---------------------------------------------------------------------
  // ErrorContext and the ensure! macro

  newtype u32 = x: int | 0 <= x < 0x1_0000_0000

  /** `ErrorContext`: a message with the file and line it was raised at. */
  datatype ErrorContext = ErrorContext(message: string, file: string, line: u32)

  /** A decimal numeral as `Display` writes an integer: at least one digit,
      digits only, and no leading zero unless it is the numeral `0`. */
  predicate Canonical(s: string)
  {
    s != [] && (forall i :: 0 <= i < |s| ==> '0' <= s[i] <= '9') && (|s| == 1 || s[0] != '0')
  }

  /** Decimal digits of a natural number, most significant first. */
  function Decimal(n: nat): (s: string)
    ensures Canonical(s)
    ensures n >= 1 ==> s[0] != '0'
  {
    if n < 10 then [Digit(n)] else Decimal(n / 10) + [Digit(n % 10)]
  }

  function Digit(d: nat): (c: char)
    requires d < 10
    ensures '0' <= c <= '9'
    ensures d >= 1 ==> c != '0'
  {
    ['0', '1', '2', '3', '4', '5', '6', '7', '8', '9'][d]
  }

  function DigitValue(c: char): nat
  {
    match c
    case '1' => 1 case '2' => 2 case '3' => 3 case '4' => 4 case '5' => 5
    case '6' => 6 case '7' => 7 case '8' => 8 case '9' => 9
    case _ => 0
  }

  /** The number written by a string of digits. */
  function DecimalValue(s: string): nat
  {
    if s == [] then 0 else DecimalValue(s[..|s| - 1]) * 10 + DigitValue(s[|s| - 1])
  }

  lemma DigitRoundTrip(d: nat)
    requires d < 10
    ensures DigitValue(Digit(d)) == d
  {
  }

  lemma DigitOfValue(c: char)
    requires '0' <= c <= '9'
    ensures DigitValue(c) < 10 && Digit(DigitValue(c)) == c
  {
  }

  lemma {:induction false} DecimalRoundTrip(n: nat)
    ensures DecimalValue(Decimal(n)) == n
  {
    if n >= 10 {
      DecimalRoundTrip(n / 10);
      DigitRoundTrip(n % 10);
      var s := Decimal(n / 10) + [Digit(n % 10)];
      assert s[..|s| - 1] == Decimal(n / 10);
      assert s[|s| - 1] == Digit(n % 10);
      assert n == (n / 10) * 10 + n % 10;
    } else {
      DigitRoundTrip(n);
    }
  }

  /** A numeral without a leading zero denotes a positive number. */
  lemma {:induction false} LeadingDigitPositive(s: string)
    requires Canonical(s) && s[0] != '0'
    ensures DecimalValue(s) >= 1
  {
    if |s| > 1 {
      var p := s[..|s| - 1];
      assert p[0] == s[0];
      LeadingDigitPositive(p);
    } else {
      assert s[..0] == [];
    }
  }

  lemma SplitLastDigit(a: nat, d: nat)
    requires d < 10
    ensures (a * 10 + d) / 10 == a && (a * 10 + d) % 10 == d
  {
  }

  /** Writing one more digit after a positive number's numeral. */
  lemma DecimalOfSplit(a: nat, d: nat)
    requires a >= 1 && d < 10
    ensures Decimal(a * 10 + d) == Decimal(a) + [Digit(d)]
  {
    SplitLastDigit(a, d);
  }

  /** A canonical numeral is the decimal of its value: the text of a number
      is determined by the number. */
  lemma {:induction false} CanonicalIsDecimal(s: string)
    requires Canonical(s)
    ensures Decimal(DecimalValue(s)) == s
  {
    var last := s[|s| - 1];
    DigitOfValue(last);
    if |s| == 1 {
      assert s[..0] == [];
      assert DecimalValue(s) == DigitValue(last);
      assert s == [last];
    } else {
      var p := s[..|s| - 1];
      assert Canonical(p) by {
        assert p[0] == s[0];
      }
      var a, d := DecimalValue(p), DigitValue(last);
      calc {
        Decimal(DecimalValue(s));
        Decimal(a * 10 + d);
        { LeadingDigitPositive(p); DecimalOfSplit(a, d); }
        Decimal(a) + [Digit(d)];
        { CanonicalIsDecimal(p); }
        p + [last];
        s;
      }
    }
  }

  /** `<ErrorContext as Display>`: `message (at file:line)`, the line written
      as its canonical decimal numeral. */
  function ErrorContextDisplay(c: ErrorContext): (s: string)
    ensures exists digits ::
      (s == c.message + " (at " + c.file + ":" + digits + ")" &&
       Canonical(digits) && DecimalValue(digits) == c.line as int)
  {
    var digits := Decimal(c.line as nat);
    DecimalRoundTrip(c.line as nat);
    c.message + " (at " + c.file + ":" + digits + ")"
  }

  /** The line text is unique: any canonical numeral with the line's value
      is the one `ErrorContextDisplay` writes. */
  lemma LineTextUnique(c: ErrorContext, digits: string)
    requires Canonical(digits) && DecimalValue(digits) == c.line as int
    ensures ErrorContextDisplay(c) == c.message + " (at " + c.file + ":" + digits + ")"
  {
    CanonicalIsDecimal(digits);
  }

  /** `ensure!(cond, err)`: `Err(err.into())` exactly when the condition
      fails, and nothing otherwise. */
  function Ensure<E, F>(cond: bool, err: E, into: E -> F): (r: Result<(), F>)
    ensures r.Ok? <==> cond
    ensures !cond ==> r.error == into(err)
  {
    if cond then Ok(()) else Err(into(err))
  }
}
