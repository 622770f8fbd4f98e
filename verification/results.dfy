/**
 * The outcome model of the parser-combinator engine: what every parser
 * returns, the tree of labels a failure carries, and the JSON quoting the
 * literal matchers use to build those labels.
 */
module Results {

  datatype Option<T> = None | Some(value: T)

  /** What a failed parser expected: one label, or an ordered list of sub-trees. */
  datatype Expected = Label(text: string) | Many(items: seq<Expected>)

  /**
   * `Ok(index, value)`: the parser succeeded and the next parser starts at `index`.
   * `Error(index, expected)`: the parser failed; `index` is where it gave up.
   */
  datatype Result<A> = Ok(index: nat, value: A) | Error(index: nat, expected: Expected)
  {
    /** The same failure at another value type (the source returns the very same object). */
    function Propagate<B>(): Result<B>
      requires Error?
    {
      Error(index, expected)
    }
  }

  /**
   * The test alternation and `optional` apply to a result: a success, or a
   * failure that got past the start index, is returned as it is.
   */
  predicate Commits<A>(r: Result<A>, start: nat) {
    r.Ok? || r.index > start
  }

  /** The label of a failure, and an empty list for a success (never used on one). */
  function ExpectedOf<A>(r: Result<A>): Expected {
    if r.Error? then r.expected else Many([])
  }

  /**
   * JavaScript truthiness of an optional label argument: a missing label and
   * the empty string are falsy, every array (even an empty one) is truthy.
   */
  predicate Truthy(e: Option<Expected>) {
    match e
    case None => false
    case Some(Label(s)) => s != ""
    case Some(Many(_)) => true
  }

  /** Lower-case hexadecimal digit, as JSON.stringify writes them. */
  function HexDigit(n: nat): char
    requires n < 16
  {
    "0123456789abcdef"[n]
  }

  /** A character JSON.stringify writes as itself. */
  predicate Plain(c: char) {
    c != '"' && c != '\\' && c as int >= 32
  }

  /** JSON.stringify's escape of one character inside a string literal. */
  function EscapeChar(c: char): (r: string)
    ensures Plain(c) ==> r == [c]
    ensures !Plain(c) ==> |r| >= 2 && r[0] == '\\'
  {
    if c == '"' then ['\\', '"']
    else if c == '\\' then ['\\', '\\']
    else if c as int == 8 then ['\\', 'b']
    else if c as int == 12 then ['\\', 'f']
    else if c == '\n' then ['\\', 'n']
    else if c == '\r' then ['\\', 'r']
    else if c == '\t' then ['\\', 't']
    else if c as int < 32 then ['\\', 'u', '0', '0', HexDigit(c as int / 16), HexDigit(c as int % 16)]
    else [c]
  }

  function EscapeJson(s: string): string
    decreases |s|
  {
    if s == [] then [] else EscapeChar(s[0]) + EscapeJson(s[1..])
  }

  /** `JSON.stringify(s)` for a string: the failure label of a literal. */
  function Quote(s: string): string {
    "\"" + EscapeJson(s) + "\""
  }

  /** A string without quotes, backslashes or control characters is quoted verbatim. */
  lemma {:induction false} EscapePlain(s: string)
    requires forall k :: 0 <= k < |s| ==> Plain(s[k])
    ensures EscapeJson(s) == s
    decreases |s|
  {
    if s != [] {
      EscapePlain(s[1..]);
    }
  }

  lemma QuotePlain(s: string)
    requires forall k :: 0 <= k < |s| ==> Plain(s[k])
    ensures Quote(s) == "\"" + s + "\""
  {
    EscapePlain(s);
  }

  /** The value of a hexadecimal digit of either case, as a JSON reader accepts them. */
  function HexValue(c: char): Option<nat> {
    if '0' <= c <= '9' then Some(c as int - '0' as int)
    else if 'a' <= c <= 'f' then Some(c as int - 'a' as int + 10)
    else if 'A' <= c <= 'F' then Some(c as int - 'A' as int + 10)
    else None
  }

  /** The code unit of a `\uXXXX` escape, when all four are hexadecimal digits. */
  function HexCode(a: char, b: char, c: char, d: char): Option<nat> {
    match (HexValue(a), HexValue(b), HexValue(c), HexValue(d))
    case (Some(va), Some(vb), Some(vc), Some(vd)) => Some(((va * 16 + vb) * 16 + vc) * 16 + vd)
    case _ => None
  }

  /** Prepends a character to a decoded rest, if the rest decoded. */
  function Prepend(c: char, rest: Option<string>): Option<string> {
    if rest.Some? then Some([c] + rest.value) else None
  }

  /**
   * A reader of the body of a JSON string literal (RFC 8259, section 7): a
   * bare quote or control character is invalid, a backslash starts one of the
   * escapes, anything else stands for itself. Escapes of surrogate code units
   * are not accepted, since they are not Dafny characters.
   */
  function Unescape(t: string): Option<string>
    decreases |t|
  {
    if t == [] then Some([])
    else if t[0] == '"' || t[0] as int < 32 then None
    else if t[0] != '\\' then Prepend(t[0], Unescape(t[1..]))
    else if |t| < 2 then None
    else
      var e := t[1];
      if e == '"' || e == '\\' || e == '/' then Prepend(e, Unescape(t[2..]))
      else if e == 'b' then Prepend(8 as char, Unescape(t[2..]))
      else if e == 'f' then Prepend(12 as char, Unescape(t[2..]))
      else if e == 'n' then Prepend('\n', Unescape(t[2..]))
      else if e == 'r' then Prepend('\r', Unescape(t[2..]))
      else if e == 't' then Prepend('\t', Unescape(t[2..]))
      else if e == 'u' && |t| >= 6 then
        var code := HexCode(t[2], t[3], t[4], t[5]);
        if code.Some? && (code.value < 0xD800 || 0xDFFF < code.value < 0x11_0000) then
          Prepend(code.value as char, Unescape(t[6..]))
        else None
      else None
  }

  /** A whole JSON string literal: quotes around a body that reads. */
  function JsonString(q: string): Option<string> {
    if |q| >= 2 && q[0] == '"' && q[|q| - 1] == '"' then Unescape(q[1..|q| - 1]) else None
  }

  lemma HexValueOfDigit(n: nat)
    requires n < 16
    ensures HexValue(HexDigit(n)) == Some(n)
  {
    if n < 10 {
      assert HexDigit(n) as int == '0' as int + n;
    } else {
      assert HexDigit(n) as int == 'a' as int + n - 10;
    }
  }

  /** Reading an escaped character back yields the character, and the reader goes on after it. */
  lemma UnescapeChar(c: char, rest: string)
    ensures Unescape(EscapeChar(c) + rest) == Prepend(c, Unescape(rest))
  {
    var t := EscapeChar(c) + rest;
    if Plain(c) {
      assert t[1..] == rest;
    } else if |EscapeChar(c)| == 2 {
      assert t[2..] == rest;
    } else {
      var hi, lo := c as int / 16, c as int % 16;
      HexValueOfDigit(0);
      HexValueOfDigit(hi);
      HexValueOfDigit(lo);
      assert HexCode(t[2], t[3], t[4], t[5]) == Some(c as int);
      assert t[6..] == rest;
    }
  }

  /** Reading the escaped body back yields the original string. */
  lemma {:induction false} UnescapeEscape(s: string)
    ensures Unescape(EscapeJson(s)) == Some(s)
    decreases |s|
  {
    if s != [] {
      UnescapeEscape(s[1..]);
      UnescapeChar(s[0], EscapeJson(s[1..]));
      assert [s[0]] + s[1..] == s;
    }
  }

  /** The label `JSON.stringify(s)` is one JSON string literal, and it reads back as `s`. */
  lemma QuoteRoundTrip(s: string)
    ensures JsonString(Quote(s)) == Some(s)
  {
    UnescapeEscape(s);
  }
}
