/** `urlPathEscape`: the percent encoding that puts a push's title and body into a URL path. */
module UrlEscape {
  import opened Wrappers
  import opened Text

  /** The characters that stand for themselves: letters, digits and -._~!$&'()*+,;=:@ */
  predicate IsSafe(c: char) {
    || 'A' <= c <= 'Z' || 'a' <= c <= 'z' || '0' <= c <= ';' || '&' <= c <= '.'
    || c == '~' || c == '!' || c == '$' || c == '=' || c == '@' || c == '_'
  }

  predicate IsUnreserved(c: char) {
    'A' <= c <= 'Z' || 'a' <= c <= 'z' || '0' <= c <= '9' || c in {'-', '.', '_', '~'}
  }

  predicate IsSubDelim(c: char) {
    c in {'!', '$', '&', '\'', '(', ')', '*', '+', ',', ';', '='}
  }

  /** They are the characters a path segment may hold as they are: section 3.3 of RFC 3986. */
  lemma SafeInPaths(c: char)
    ensures IsSafe(c) <==> IsUnreserved(c) || IsSubDelim(c) || c == ':' || c == '@'
  {
  }

  const HEX := "0123456789ABCDEF"

  function Escaped(b: Byte): string {
    if IsSafe(b as char) then [b as char] else ['%', HEX[b / 16], HEX[b % 16]]
  }

  function Escape(s: seq<Byte>): string {
    if s == [] then "" else Escaped(s[0]) + Escape(s[1..])
  }

  lemma {:induction false} EscapeAppend(s: seq<Byte>, b: Byte)
    ensures Escape(s + [b]) == Escape(s) + Escaped(b)
  {
    if s == [] {
      assert [b][1..] == [] && s + [b] == [b];
    } else {
      EscapeAppend(s[1..], b);
      assert (s + [b])[1..] == s[1..] + [b];
    }
  }

  lemma ThreeCharacters(out: string, c: Byte)
    requires !IsSafe(c as char)
    ensures out + ['%'] + [HEX[c / 16]] + [HEX[c % 16]] == out + Escaped(c)
  {
  }

  method UrlPathEscape(s: seq<Byte>) returns (out: string)
    ensures out == Escape(s)
  {
    out := "";
    for i := 0 to |s|
      invariant out == Escape(s[..i])
    {
      var c := s[i];
      EscapeAppend(s[..i], c);
      assert s[..i + 1] == s[..i] + [c];
      if IsSafe(c as char) {
        out := out + [c as char];
      } else {
        ThreeCharacters(out, c);
        out := out + ['%'];
        out := out + [HEX[c / 16]];
        out := out + [HEX[c % 16]];
      }
    }
    assert s[..|s|] == s;
  }

  // ---------------- What a server reads back ----------------

  function HexValue(c: char): Option<nat> {
    if '0' <= c <= '9' then Some(c as int - 48) else if 'A' <= c <= 'F' then Some(c as int - 55) else None
  }

  /** Percent decoding (section 2.1 of RFC 3986), from the front. */
  function Unescape(t: string): Option<seq<Byte>>
    decreases |t|
  {
    if t == [] then Some([])
    else if t[0] != '%' then
      if t[0] as int >= 256 then None
      else
        match Unescape(t[1..])
        case None => None
        case Some(rest) => Some([t[0] as int] + rest)
    else if |t| < 3 || HexValue(t[1]).None? || HexValue(t[2]).None? then None
    else
      match Unescape(t[3..])
      case None => None
      case Some(rest) => Some([HexValue(t[1]).value * 16 + HexValue(t[2]).value] + rest)
  }

  lemma HexDigit(d: nat)
    requires d < 16
    ensures HexValue(HEX[d]) == Some(d)
  {
    assert HEX[d] == if d < 10 then (d + 48) as char else (d + 55) as char;
  }

  lemma EscapedShape(b: Byte)
    ensures '/' !in Escaped(b) && Escaped(b) != []
    ensures |Escaped(b)| == 1 ==> Escaped(b)[0] != '%' && Escaped(b)[0] as int == b
    ensures |Escaped(b)| != 1 ==> |Escaped(b)| == 3 && Escaped(b)[0] == '%'
    ensures |Escaped(b)| != 1 ==> HexValue(Escaped(b)[1]) == Some(b / 16) && HexValue(Escaped(b)[2]) == Some(b % 16)
  {
    HexDigit(b / 16);
    HexDigit(b % 16);
  }

  lemma UnescapeOne(b: Byte, t: string)
    requires Unescape(t).Some?
    ensures Unescape(Escaped(b) + t) == Some([b] + Unescape(t).value)
  {
    EscapedShape(b);
    var e := Escaped(b) + t;
    assert e[|Escaped(b)|..] == t;
    if |Escaped(b)| == 1 {
      assert e[0] == Escaped(b)[0];
    } else {
      assert e[0] == '%' && e[1] == Escaped(b)[1] && e[2] == Escaped(b)[2];
    }
  }

  /** Every byte string comes back. */
  lemma {:induction false} UnescapeEscape(s: seq<Byte>)
    ensures Unescape(Escape(s)) == Some(s)
  {
    if s != [] {
      UnescapeEscape(s[1..]);
      UnescapeOne(s[0], Escape(s[1..]));
      assert s == [s[0]] + s[1..];
    }
  }

  predicate IsUpperHex(c: char) {
    '0' <= c <= '9' || 'A' <= c <= 'F'
  }

  /** Characters of a path segment, or a percent sign and two hexadecimal digits. */
  ghost predicate IsSegment(t: string) {
    || t == "" || (t[0] != '%' && IsSafe(t[0]) && IsSegment(t[1..]))
    || (|t| >= 3 && t[0] == '%' && IsUpperHex(t[1]) && IsUpperHex(t[2]) && IsSegment(t[3..]))
  }

  /** What is written is a well-formed path segment; and what may stand for itself does. */
  lemma {:induction false} EscapeIsSegment(s: seq<Byte>)
    ensures IsSegment(Escape(s))
    ensures (forall i :: 0 <= i < |s| ==> IsSafe(s[i] as char)) ==> |Escape(s)| == |s|
  {
    if s != [] {
      EscapeIsSegment(s[1..]);
      EscapedShape(s[0]);
      var t := Escaped(s[0]) + Escape(s[1..]);
      assert t[|Escaped(s[0])|..] == Escape(s[1..]);
    }
  }

  lemma {:induction false} NoSlash(s: seq<Byte>)
    ensures '/' !in Escape(s)
  {
    if s != [] {
      NoSlash(s[1..]);
      EscapedShape(s[0]);
    }
  }

  /** `SendBarkPush`'s endpoint: its last two path segments give title and body back, whatever they are. */
  lemma EndpointKeepsParts(base: string, title: seq<Byte>, body: seq<Byte>)
    ensures var endpoint := base + "/" + Escape(title) + "/" + Escape(body);
      var last := LastIndex(endpoint, '/');
      var head := endpoint[..last];
      && '/' in head
      && Unescape(endpoint[last + 1..]) == Some(body)
      && Unescape(head[LastIndex(head, '/') + 1..]) == Some(title)
  {
    NoSlash(title);
    NoSlash(body);
    UnescapeEscape(title);
    UnescapeEscape(body);
    LastIndexAt(base + "/" + Escape(title), '/', Escape(body));
    LastIndexAt(base, '/', Escape(title));
    assert base + "/" + Escape(title) + "/" + Escape(body) == base + "/" + Escape(title) + ['/'] + Escape(body);
    assert base + "/" + Escape(title) == base + ['/'] + Escape(title);
  }
}
