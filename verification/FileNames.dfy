/** The names articles are stored under: url.PathEscape and url.PathUnescape,
    the percent-encoding of section 2.1 of RFC 3986 for one path segment. */
module FileNames {
  import opened ByteStrings

  /** The prefix of files that hold a post still being received. */
  const TEMP_PREFIX: Bytes := ".incoming-"

  const PLAIN_MARKS: Bytes := "-_.~$&+:=@"

  /** The bytes a path segment carries as they are. */
  predicate IsPlain(c: Byte) {
    'a' <= c <= 'z' || 'A' <= c <= 'Z' || '0' <= c <= '9' || c in PLAIN_MARKS
  }

  function UpperHex(n: int): Byte
    requires 0 <= n < 16
  {
    if n < 10 then (n + 48) as char else (n + 55) as char
  }

  function HexValue(c: Byte): (n: Option<int>)
    ensures n.Some? ==> 0 <= n.value < 16
  {
    if '0' <= c <= '9' then Some(c as int - 48)
    else if 'a' <= c <= 'f' then Some(c as int - 87)
    else if 'A' <= c <= 'F' then Some(c as int - 55)
    else None
  }

  function EscapeByte(c: Byte): Bytes {
    if IsPlain(c) then [c] else ['%', UpperHex(c as int / 16), UpperHex(c as int % 16)]
  }

  function PathEscape(s: Bytes): Bytes {
    if s == [] then [] else EscapeByte(s[0]) + PathEscape(s[1..])
  }

  function Cons(c: Byte, s: Option<Bytes>): Option<Bytes> {
    match s
    case None => None
    case Some(t) => Some([c] + t)
  }

  function PathUnescape(s: Bytes): Option<Bytes> {
    if s == [] then Some([])
    else if s[0] != '%' then Cons(s[0], PathUnescape(s[1..]))
    else if |s| < 3 then None
    else match (HexValue(s[1]), HexValue(s[2]))
      case (Some(high), Some(low)) => Cons((high * 16 + low) as char, PathUnescape(s[3..]))
      case _ => None
  }

  lemma EscapedByteDecodes(c: Byte, rest: Bytes)
    ensures PathUnescape(EscapeByte(c) + rest) == Cons(c, PathUnescape(rest))
  {
    var s := EscapeByte(c) + rest;
    if IsPlain(c) {
      assert s[1..] == rest;
      assert s[0] == c != '%';
    } else {
      assert s[3..] == rest;
      assert s[0] == '%';
      assert HexValue(s[1]) == Some(c as int / 16) && HexValue(s[2]) == Some(c as int % 16);
      assert c as int / 16 * 16 + c as int % 16 == c as int;
    }
  }

  /** Decoding undoes encoding, for every ID. */
  lemma {:induction false} UnescapeUndoesEscape(s: Bytes)
    ensures PathUnescape(PathEscape(s)) == Some(s)
  {
    if s != [] {
      EscapedByteDecodes(s[0], PathEscape(s[1..]));
      UnescapeUndoesEscape(s[1..]);
      assert [s[0]] + s[1..] == s;
    }
  }

  /** Two IDs never share a file. */
  lemma EscapeInjective(s: Bytes, t: Bytes)
    requires PathEscape(s) == PathEscape(t)
    ensures s == t
  {
    UnescapeUndoesEscape(s);
    UnescapeUndoesEscape(t);
  }

  /** An encoded name starts with some plain bytes exactly when the ID does. */
  lemma {:induction false} EscapeKeepsPlainPrefix(p: Bytes, s: Bytes)
    requires forall i :: 0 <= i < |p| ==> IsPlain(p[i])
    ensures p <= PathEscape(s) <==> p <= s
  {
    if p != [] && s != [] {
      assert PathEscape(s)[0] == if IsPlain(s[0]) then s[0] else '%';
      if s[0] == p[0] {
        EscapeKeepsPlainPrefix(p[1..], s[1..]);
        assert PathEscape(s)[1..] == PathEscape(s[1..]);
        assert p <= s <==> p[1..] <= s[1..];
        assert p <= PathEscape(s) <==> p[1..] <= PathEscape(s)[1..];
      }
    }
  }

  lemma {:induction false} EscapeOfPlain(s: Bytes)
    requires forall i :: 0 <= i < |s| ==> IsPlain(s[i])
    ensures PathEscape(s) == s
  {
    if s != [] {
      EscapeOfPlain(s[1..]);
    }
  }

  /** No encoded name contains a path separator. */
  lemma {:induction false} EscapeHasNoSlash(s: Bytes)
    ensures '/' !in PathEscape(s)
  {
    if s != [] {
      EscapeHasNoSlash(s[1..]);
      assert forall n :: 0 <= n < 16 ==> UpperHex(n) != '/';
      assert '/' !in EscapeByte(s[0]);
    }
  }

  /** Which bytes of an ID stay as they are: letters, digits and the marks a path segment may carry, the at sign of
      an ID among them; every other byte becomes a percent sign and two capital hexadecimal digits. */
  lemma EscapesExactly(c: Byte)
    ensures EscapeByte(c) == [c] <==>
            || 'a' <= c <= 'z' || 'A' <= c <= 'Z' || '0' <= c <= '9'
            || c == '-' || c == '_' || c == '.' || c == '~' || c == '$' || c == '&' || c == '+' || c == ':'
            || c == '=' || c == '@'
    ensures EscapeByte(c) != [c] ==>
              && |EscapeByte(c)| == 3 && EscapeByte(c)[0] == '%'
              && forall i :: 1 <= i < 3 ==> '0' <= EscapeByte(c)[i] <= '9' || 'A' <= EscapeByte(c)[i] <= 'F'
  {
    if !IsPlain(c) {
      assert |EscapeByte(c)| == 3;
    }
  }
}
