/**
 * The streaming wire format shared by `/api/generate` and `/api/iterate`:
 * the `data:` field lines of the server-sent events format (section 9.2.5,
 * "Parsing an event stream", of the WHATWG HTML Standard), each carrying
 * either the literal `[DONE]` or a JSON object made by `JSON.stringify`.
 */
module Sse {
  import opened Wrappers

  /** A frame the gateway enqueues. */
  datatype Frame = TextFrame(text: string) | DoneFrame | ErrorFrame(message: string)

  /** Done and error frames end a stream. */
  predicate IsTerminal(f: Frame) {
    !f.TextFrame?
  }

  const DataPrefix: string := "data: "
  const DoneMarker: string := "[DONE]"

  /** The lower-case hexadecimal digit `JSON.stringify` writes for `n`. */
  function HexDigit(n: nat): (c: char)
    requires n < 16
    ensures HexValue(c) == Some(n)
  {
    if n < 10 then ('0' as int + n) as char else ('a' as int + n - 10) as char
  }

  /** The value of a hexadecimal digit of either case. */
  function HexValue(c: char): (r: Option<nat>)
    ensures r.Some? ==> r.value < 16
  {
    if '0' <= c <= '9' then Some(c as int - '0' as int)
    else if 'a' <= c <= 'f' then Some(c as int - 'a' as int + 10)
    else if 'A' <= c <= 'F' then Some(c as int - 'A' as int + 10)
    else None
  }

  /** How `JSON.stringify` writes one character inside a string literal:
      the two-character escapes for backspace, tab, line feed, form feed,
      carriage return, quote and backslash, a `\u00XX` escape for the other
      control characters, and the character itself otherwise. */
  function EscapeChar(c: char): string {
    if c == '\U{0008}' then "\\b"
    else if c == '\t' then "\\t"
    else if c == '\n' then "\\n"
    else if c == '\U{000C}' then "\\f"
    else if c == '\r' then "\\r"
    else if c == '"' then "\\\""
    else if c == '\\' then "\\\\"
    else if c < ' ' then "\\u00" + [HexDigit(c as int / 16), HexDigit(c as int % 16)]
    else [c]
  }

  function Escape(s: string): string {
    if s == [] then "" else EscapeChar(s[0]) + Escape(s[1..])
  }

  /** `JSON.stringify` of a string. */
  function QuoteJson(s: string): string {
    "\"" + Escape(s) + "\""
  }

  /** The JSON text of a frame's `data:` payload. */
  function Payload(f: Frame): string {
    match f
    case TextFrame(t) => "{\"text\":" + QuoteJson(t) + "}"
    case DoneFrame => DoneMarker
    case ErrorFrame(m) => ErrorObject(m)
  }

  /** `JSON.stringify({ error: message })`, also the body of a JSON error response. */
  function ErrorObject(message: string): string {
    "{\"error\":" + QuoteJson(message) + "}"
  }

  /** The bytes enqueued for one frame. */
  function Wire(f: Frame): string {
    DataPrefix + Payload(f) + "\n\n"
  }

  /** Everything the controller has been given, in order. */
  function WireAll(frames: seq<Frame>): string {
    if frames == [] then "" else Wire(frames[0]) + WireAll(frames[1..])
  }

  /** The inverse of `Escape` on the escapes JSON allows in a string body;
      `None` for a raw quote or control character, a bad escape, or a
      `\u` escape naming a surrogate. */
  function Unescape(e: string): Option<string>
    decreases |e|
  {
    if e == [] then Some("")
    else if e[0] == '\\' then
      if |e| < 2 then None
      else if e[1] == 'u' then
        if |e| < 6 then None
        else match (HexValue(e[2]), HexValue(e[3]), HexValue(e[4]), HexValue(e[5]))
          case (Some(a), Some(b), Some(c), Some(d)) =>
            var v := ((a * 16 + b) * 16 + c) * 16 + d;
            if 0xD800 <= v < 0xE000 then None else Prepend(v as char, Unescape(e[6..]))
          case _ => None
      else
        var c := e[1];
        var d := if c == '"' then Some('"') else if c == '\\' then Some('\\') else if c == '/' then Some('/')
          else if c == 'b' then Some('\U{0008}') else if c == 'f' then Some('\U{000C}')
          else if c == 'n' then Some('\n') else if c == 'r' then Some('\r') else if c == 't' then Some('\t')
          else None;
        if d.None? then None else Prepend(d.value, Unescape(e[2..]))
    else if e[0] == '"' || e[0] < ' ' then None
    else Prepend(e[0], Unescape(e[1..]))
  }

  function Prepend(c: char, r: Option<string>): Option<string> {
    if r.None? then None else Some([c] + r.value)
  }

  /** The string a JSON string literal denotes. */
  function UnquoteJson(q: string): Option<string> {
    if |q| >= 2 && q[0] == '"' && q[|q| - 1] == '"' then Unescape(q[1..|q| - 1]) else None
  }

  /** Decoding one escaped character gives it back, whatever follows. */
  lemma UnescapeChar(c: char, rest: string)
    ensures Unescape(EscapeChar(c) + rest) == Prepend(c, Unescape(rest))
  {
    if c < ' ' && c != '\U{0008}' && c != '\t' && c != '\n' && c != '\U{000C}' && c != '\r' {
      UnescapeControl(c, rest);
    } else if |EscapeChar(c)| == 2 {
      var e := EscapeChar(c) + rest;
      assert e[2..] == rest;
    } else {
      var e := EscapeChar(c) + rest;
      assert e[1..] == rest;
    }
  }

  /** A `\u00XX` escape decodes to the control character it names. */
  lemma UnescapeControl(c: char, rest: string)
    requires c < ' ' && c != '\U{0008}' && c != '\t' && c != '\n' && c != '\U{000C}' && c != '\r'
    ensures Unescape(EscapeChar(c) + rest) == Prepend(c, Unescape(rest))
  {
    var hi, lo := c as int / 16, c as int % 16;
    var e := "\\u00" + [HexDigit(hi), HexDigit(lo)] + rest;
    assert EscapeChar(c) + rest == e;
    assert e[0] == '\\' && e[1] == 'u' && e[2] == '0' && e[3] == '0' && e[4] == HexDigit(hi) && e[5] == HexDigit(lo);
    assert e[6..] == rest;
    assert ((0 * 16 + 0) * 16 + hi) * 16 + lo == c as int;
  }

  /** Round trip: `JSON.stringify` of a string parses back to that string. */
  lemma {:induction false} QuoteJsonRoundTrip(s: string)
    ensures UnquoteJson(QuoteJson(s)) == Some(s)
  {
    EscapeRoundTrip(s);
    var q := QuoteJson(s);
    assert q[1..|q| - 1] == Escape(s);
  }

  lemma {:induction false} EscapeRoundTrip(s: string)
    ensures Unescape(Escape(s)) == Some(s)
    decreases |s|
  {
    if s != [] {
      EscapeRoundTrip(s[1..]);
      UnescapeChar(s[0], Escape(s[1..]));
      assert [s[0]] + s[1..] == s;
    }
  }

  /** Escaped text holds no raw control character, so in particular no
      line feed. */
  lemma {:induction false} EscapeIsPrintable(s: string)
    ensures forall i :: 0 <= i < |Escape(s)| ==> Escape(s)[i] >= ' '
    decreases |s|
  {
    if s != [] {
      EscapeIsPrintable(s[1..]);
      var h := EscapeChar(s[0]);
      assert forall i :: 0 <= i < |h| ==> h[i] >= ' ';
      assert Escape(s) == h + Escape(s[1..]);
    }
  }

  /** Every frame occupies one `data:` line followed by an empty line:
      its payload holds no line feed. */
  lemma PayloadIsOneLine(f: Frame)
    ensures '\n' !in Payload(f)
  {
    match f
    case TextFrame(t) =>
      QuotedIsOneLine(t);
      assert Payload(f) == "{\"text\":" + QuoteJson(t) + "}";
    case DoneFrame =>
    case ErrorFrame(m) =>
      QuotedIsOneLine(m);
      assert Payload(f) == "{\"error\":" + QuoteJson(m) + "}";
  }

  /** A quoted string holds no line feed. */
  lemma QuotedIsOneLine(s: string)
    ensures '\n' !in QuoteJson(s)
  {
    EscapeIsPrintable(s);
    assert '\n' !in Escape(s);
  }
}
