/**
 The one message the server itself writes on a socket: the identifier notice
 `JSON.stringify({type: 'id', peerId})` sent to every new peer. For strings
 of Unicode scalar values (the strings of this model; a lone UTF-16
 surrogate cannot be written) the quoting follows ECMAScript's
 QuoteJSONString, the abstract operation behind `JSON.stringify`, and a peer-side decoder shows that the notice is
 unambiguous: the peer always reads back exactly the identifier it was given.
 */
module Wire {
  import opened Wrappers

  /** Lower-case hexadecimal digit, as `JSON.stringify` writes `\u00XX` escapes. */
  function HexDigit(n: nat): (c: char)
    requires n < 16
    ensures HexValue(c) == Some(n)
  {
    if n < 10 then (48 + n) as char else (87 + n) as char
  }

  /** The value of a hexadecimal digit of either case, as a JSON reader accepts it. */
  function HexValue(c: char): (r: Option<nat>)
    ensures r.Some? ==> r.value < 16
  {
    if '0' <= c <= '9' then Some(c as int - 48)
    else if 'a' <= c <= 'f' then Some(c as int - 87)
    else if 'A' <= c <= 'F' then Some(c as int - 55)
    else None
  }

  /** The JSON text of one character inside a quoted string. */
  function EscapeChar(c: char): (e: string)
    ensures 0 < |e|
    ensures |e| == 1 <==> e == [c]
    ensures e[0] != '"'
    ensures (c as int) < 0x20 ==> e[0] == '\\'
    ensures e == [c] <==> c != '"' && c != '\\' && (c as int) >= 0x20
  {
    if c == '"' then "\\\""
    else if c == '\\' then "\\\\"
    else if c == 8 as char then "\\b"
    else if c == '\t' then "\\t"
    else if c == '\n' then "\\n"
    else if c == 12 as char then "\\f"
    else if c == '\r' then "\\r"
    else if (c as int) < 0x20 then "\\u00" + [HexDigit(c as int / 16), HexDigit(c as int % 16)]
    else [c]
  }

  /** The body of a JSON string literal for `s`, without the surrounding quotes. */
  function Escape(s: string): (e: string)
    ensures |e| >= |s|
  {
    if |s| == 0 then [] else EscapeChar(s[0]) + Escape(s[1..])
  }

  /** Decodes the escape sequence that follows a backslash; yields the character and the remaining text. */
  function DecodeEscape(s: string): (r: Option<(char, string)>)
    ensures r.Some? ==> |r.value.1| < |s|
  {
    if |s| == 0 then None
    else if s[0] == '"' then Some(('"', s[1..]))
    else if s[0] == '\\' then Some(('\\', s[1..]))
    else if s[0] == '/' then Some(('/', s[1..]))
    else if s[0] == 'b' then Some((8 as char, s[1..]))
    else if s[0] == 'f' then Some((12 as char, s[1..]))
    else if s[0] == 'n' then Some(('\n', s[1..]))
    else if s[0] == 'r' then Some(('\r', s[1..]))
    else if s[0] == 't' then Some(('\t', s[1..]))
    else if s[0] == 'u' && |s| >= 5 then
      match (HexValue(s[1]), HexValue(s[2]), HexValue(s[3]), HexValue(s[4]))
      case (Some(a), Some(b), Some(c), Some(d)) =>
        var v := 4096 * a + 256 * b + 16 * c + d;
        // a lone surrogate is not a character of this model
        if 0xD800 <= v < 0xE000 then None else Some((v as char, s[5..]))
      case _ => None
    else None
  }

  /** Prepends a decoded character to the result of decoding the rest of a string literal. */
  function Prepend(c: char, r: Option<(string, string)>): Option<(string, string)>
  {
    match r
    case Some((t, rest)) => Some(([c] + t, rest))
    case None => None
  }

  /**
   Reads the body of a JSON string literal up to and including its closing
   quote; yields the decoded text and what follows the quote.
   */
  function Unquote(s: string): (r: Option<(string, string)>)
    ensures r.Some? ==> |r.value.1| < |s|
    decreases |s|
  {
    if |s| == 0 then None
    else if s[0] == '"' then Some(([], s[1..]))
    else if s[0] == '\\' then
      match DecodeEscape(s[1..])
      case Some((c, rest)) => Prepend(c, Unquote(rest))
      case None => None
    else if (s[0] as int) < 0x20 then None
    else Prepend(s[0], Unquote(s[1..]))
  }

  /** One escaped character is decoded back to itself, whatever text follows it. */
  lemma UnquoteEscapeChar(c: char, tail: string)
    ensures Unquote(EscapeChar(c) + tail) == Prepend(c, Unquote(tail))
  {
    var e := EscapeChar(c);
    if e == [c] {
      assert (e + tail)[0] == c;
      assert (e + tail)[1..] == tail;
    } else if (c as int) < 0x20 && c != 8 as char && c != '\t' && c != '\n' && c != 12 as char && c != '\r' {
      var hi, lo := c as int / 16, c as int % 16;
      assert e == ['\\', 'u', '0', '0', HexDigit(hi), HexDigit(lo)];
      var s := e + tail;
      assert s[1..] == ['u', '0', '0', HexDigit(hi), HexDigit(lo)] + tail;
      assert s[1..][5..] == tail;
      assert 4096 * 0 + 256 * 0 + 16 * hi + lo == c as int;
    } else {
      assert |e| == 2 && e[0] == '\\';
      assert (e + tail)[1..] == [e[1]] + tail;
      assert (e + tail)[1..][1..] == tail;
    }
  }

  /** Round trip: decoding the quoted form of `x` gives back `x` and leaves the rest untouched. */
  lemma {:induction false} UnquoteEscape(x: string, rest: string)
    ensures Unquote(Escape(x) + "\"" + rest) == Some((x, rest))
  {
    if |x| == 0 {
      assert Escape(x) + "\"" + rest == ['"'] + rest;
      assert (['"'] + rest)[1..] == rest;
    } else {
      var tail := Escape(x[1..]) + "\"" + rest;
      assert Escape(x) + "\"" + rest == EscapeChar(x[0]) + tail;
      UnquoteEscape(x[1..], rest);
      UnquoteEscapeChar(x[0], tail);
      assert [x[0]] + x[1..] == x;
    }
  }

  /** The fixed opening of the identifier notice, up to the identifier's opening quote. */
  const IdNoticePrefix: string := "{\"type\":\"id\",\"peerId\":\""

  /** The text of `JSON.stringify({type: 'id', peerId: id})`. */
  function IdNotice(id: string): (d: string)
    ensures |d| >= |IdNoticePrefix| + |id| + 2
    ensures d[..|IdNoticePrefix|] == IdNoticePrefix
  {
    IdNoticePrefix + Escape(id) + "\"}"
  }

  /** The peer's reading of an identifier notice: the identifier it carries, if the text is one. */
  function ParseIdNotice(d: string): (r: Option<string>)
  {
    if |d| < |IdNoticePrefix| || d[..|IdNoticePrefix|] != IdNoticePrefix then None
    else match Unquote(d[|IdNoticePrefix|..])
      case Some((id, rest)) => if rest == "}" then Some(id) else None
      case None => None
  }

  /** A peer reads back exactly the identifier the server put in its notice. */
  lemma IdNoticeRoundTrip(id: string)
    ensures ParseIdNotice(IdNotice(id)) == Some(id)
  {
    var d := IdNotice(id);
    assert d[|IdNoticePrefix|..] == Escape(id) + "\"" + "}";
    UnquoteEscape(id, "}");
  }

  /** Distinct identifiers give distinct notices. */
  lemma IdNoticeInjective(a: string, b: string)
    ensures IdNotice(a) == IdNotice(b) <==> a == b
  {
    if IdNotice(a) == IdNotice(b) {
      IdNoticeRoundTrip(a);
      IdNoticeRoundTrip(b);
    }
  }
}
