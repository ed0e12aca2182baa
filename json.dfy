/** The JSON text the backend writes with Python's `json.dumps` under its defaults
    (`ensure_ascii=True`, separators ", " and ": ") for flat objects whose values
    are strings, and a reader for that text: the part of `JSON.parse` that the
    client needs for the backend's payloads (RFC 8259, sections 4 and 7). */
module Json {
  import opened Events

  const HexDigits: string := "0123456789abcdef"

  function Pow16(w: nat): nat {
    if w == 0 then 1 else 16 * Pow16(w - 1)
  }

  /** `v` as `w` lowercase hex digits, most significant first. */
  function Hex(v: nat, w: nat): (s: string)
    ensures |s| == w && Printable(s)
    decreases w
  {
    if w == 0 then ""
    else
      PrintableAppend(Hex(v / 16, w - 1), [HexDigits[v % 16]]);
      Hex(v / 16, w - 1) + [HexDigits[v % 16]]
  }

  predicate IsHexDigit(c: char) {
    '0' <= c <= '9' || 'a' <= c <= 'f' || 'A' <= c <= 'F'
  }

  function DigitValue(c: char): (d: nat)
    ensures d < 16
  {
    if '0' <= c <= '9' then c as int - '0' as int
    else if 'a' <= c <= 'f' then c as int - 'a' as int + 10
    else if 'A' <= c <= 'F' then c as int - 'A' as int + 10
    else 0
  }

  /** The number that a run of hex digits spells, below 16 to the power of its length. */
  function HexValue(s: string): (v: nat)
    ensures v < Pow16(|s|)
    decreases |s|
  {
    if s == [] then 0 else 16 * HexValue(s[..|s| - 1]) + DigitValue(s[|s| - 1])
  }

  lemma DigitRoundTrip(d: nat)
    requires d < 16
    ensures IsHexDigit(HexDigits[d]) && DigitValue(HexDigits[d]) == d
  {
  }

  /** Reading back a number printed in hex gives the number. */
  lemma {:induction false} HexRoundTrip(v: nat, w: nat)
    requires v < Pow16(w)
    ensures HexValue(Hex(v, w)) == v
    ensures forall i :: 0 <= i < w ==> IsHexDigit(Hex(v, w)[i])
    decreases w
  {
    if w > 0 {
      HexRoundTrip(v / 16, w - 1);
      DigitRoundTrip(v % 16);
      var s := Hex(v, w);
      assert s[..w - 1] == Hex(v / 16, w - 1);
    }
  }

  /** Printable ASCII, space to tilde: no control character, so no line break. */
  predicate Printable(s: string) {
    forall i :: 0 <= i < |s| ==> ' ' <= s[i] <= '~'
  }

  lemma PrintableAppend(a: string, b: string)
    requires Printable(a) && Printable(b)
    ensures Printable(a + b)
  {
    assert forall i :: 0 <= i < |a + b| ==> (a + b)[i] == if i < |a| then a[i] else b[i - |a|];
  }

  /** The letter of the two-character escape that `json.dumps` uses for `c`, if any:
      quote, backslash, backspace, form feed, newline, carriage return, tab. */
  function ShortEscape(c: char): (l: Option<char>)
    ensures l.Some? ==> ' ' <= l.value <= '~'
  {
    if c == '"' then Some('"')
    else if c == '\\' then Some('\\')
    else if c as int == 8 then Some('b')
    else if c as int == 12 then Some('f')
    else if c == '\n' then Some('n')
    else if c == '\r' then Some('r')
    else if c == '\t' then Some('t')
    else None
  }

  /** The character a two-character escape letter stands for (`\/` included). */
  function ShortUnescape(l: char): Option<char> {
    if l == '"' then Some('"')
    else if l == '\\' then Some('\\')
    else if l == '/' then Some('/')
    else if l == 'b' then Some(8 as char)
    else if l == 'f' then Some(12 as char)
    else if l == 'n' then Some('\n')
    else if l == 'r' then Some('\r')
    else if l == 't' then Some('\t')
    else None
  }

  /** One character as `json.dumps` writes it inside a string: a two-character
      escape where there is one; printable ASCII as itself; any other character
      below U+10000 as a `\uXXXX` escape and any above it as a surrogate pair of
      such escapes. */
  function EscapeChar(c: char): (s: string)
    ensures |s| >= 1 && Printable(s)
  {
    match ShortEscape(c)
    case Some(l) => ['\\', l]
    case None =>
      if ' ' <= c <= '~' then [c]
      else if c as int < 0x10000 then UnicodeEscape(c as int)
      else
        var v := c as int - 0x10000;
        PrintableAppend(UnicodeEscape(0xD800 + v / 0x400), UnicodeEscape(0xDC00 + v % 0x400));
        UnicodeEscape(0xD800 + v / 0x400) + UnicodeEscape(0xDC00 + v % 0x400)
  }

  function UnicodeEscape(v: nat): (s: string)
    ensures |s| == 6 && Printable(s)
  {
    "\\u" + Hex(v, 4)
  }

  /** The body of a JSON string: printable ASCII only, so never a line break. */
  function Escape(t: string): (s: string)
    ensures Printable(s)
    decreases |t|
  {
    if t == [] then ""
    else
      PrintableAppend(EscapeChar(t[0]), Escape(t[1..]));
      EscapeChar(t[0]) + Escape(t[1..])
  }

  function Quote(t: string): (s: string)
    ensures Printable(s)
  {
    PrintableAppend("\"", Escape(t));
    PrintableAppend("\"" + Escape(t), "\"");
    "\"" + Escape(t) + "\""
  }

  /** `"k": "v"`. */
  function Member(k: string, v: string): (s: string)
    ensures Printable(s)
  {
    PrintableAppend(Quote(k), ": ");
    PrintableAppend(Quote(k) + ": ", Quote(v));
    Quote(k) + ": " + Quote(v)
  }

  /** A flat object `{"k": "v", ...}` with the members in the given order. */
  function Object(members: seq<(string, string)>): (s: string)
    requires |members| >= 1
    ensures Printable(s)
  {
    PrintableAppend("{", Members(members));
    PrintableAppend("{" + Members(members), "}");
    "{" + Members(members) + "}"
  }

  function Members(members: seq<(string, string)>): (s: string)
    requires |members| >= 1
    ensures Printable(s)
    decreases |members|
  {
    if |members| == 1 then Member(members[0].0, members[0].1)
    else
      PrintableAppend(Member(members[0].0, members[0].1), ", ");
      PrintableAppend(Member(members[0].0, members[0].1) + ", ", Members(members[1..]));
      Member(members[0].0, members[0].1) + ", " + Members(members[1..])
  }

  lemma Pow16Four()
    ensures Pow16(4) == 0x10000
  {
  }

  /** Four hex digits starting at `i`. */
  predicate HexAt(s: string, i: nat) {
    i + 4 <= |s| && forall j :: i <= j < i + 4 ==> IsHexDigit(s[j])
  }

  /** One character of a string body, raw or escaped, and how many characters of
      the text it took. Raw control characters and unpaired surrogate escapes are
      rejected. */
  function ReadChar(s: string): (r: Option<(char, nat)>)
    requires s != []
    ensures r.Some? ==> 1 <= r.value.1 <= |s|
  {
    if s[0] == '\\' then
      if |s| < 2 then None
      else if s[1] == 'u' then ReadUnicodeEscape(s)
      else
        match ShortUnescape(s[1])
        case Some(c) => Some((c, 2))
        case None => None
    else if s[0] < ' ' then None
    else Some((s[0], 1))
  }

  /** The code unit of a `\uXXXX` escape at the start of `s`. */
  function CodeUnit(s: string): (r: Option<nat>)
    ensures r.Some? ==> |s| >= 6 && r.value < 0x10000
  {
    if |s| >= 6 && s[0] == '\\' && s[1] == 'u' && HexAt(s, 2) then
      Pow16Four();
      Some(HexValue(s[2..6]))
    else None
  }

  /** The code point of a surrogate pair. */
  function Combine(hi: nat, lo: nat): (c: nat)
    requires 0xD800 <= hi < 0xDC00 && 0xDC00 <= lo < 0xE000
    ensures 0x10000 <= c <= 0x10FFFF
  {
    0x10000 + (hi - 0xD800) * 0x400 + (lo - 0xDC00)
  }

  /** A `\uXXXX` escape, or two of them forming a surrogate pair. */
  function ReadUnicodeEscape(s: string): (r: Option<(char, nat)>)
    ensures r.Some? ==> r.value.1 <= |s| && (r.value.1 == 6 || r.value.1 == 12)
  {
    match CodeUnit(s)
    case None => None
    case Some(hi) =>
      if 0xD800 <= hi < 0xDC00 then
        match CodeUnit(s[6..])
        case Some(lo) => if 0xDC00 <= lo < 0xE000 then Some((Combine(hi, lo) as char, 12)) else None
        case None => None
      else if 0xDC00 <= hi < 0xE000 then None
      else Some((hi as char, 6))
  }

  /** A string body up to its closing quote: the text it denotes and what follows
      the quote. */
  function ReadString(s: string): (r: Option<(string, string)>)
    ensures r.Some? ==> |r.value.1| < |s|
    decreases |s|
  {
    if s == [] then None
    else if s[0] == '"' then Some(("", s[1..]))
    else
      match ReadChar(s)
      case None => None
      case Some((c, n)) =>
        match ReadString(s[n..])
        case None => None
        case Some((t, rest)) => Some(([c] + t, rest))
  }

  /** One member `"k": "v"`: its key, its value and the text after the value. */
  function ReadMember(s: string): (r: Option<(string, string, string)>)
    ensures r.Some? ==> |r.value.2| < |s|
  {
    if s == [] || s[0] != '"' then None
    else
      match ReadString(s[1..])
      case None => None
      case Some((k, afterKey)) =>
        if |afterKey| < 3 || afterKey[..3] != ": \"" then None
        else
          match ReadString(afterKey[3..])
          case None => None
          case Some((v, afterValue)) => Some((k, v, afterValue))
  }

  /** The members of a flat object, from just after `{` to the closing `}`. */
  function ReadMembers(s: string): (r: Option<seq<(string, string)>>)
    ensures r.Some? ==> |r.value| >= 1
    decreases |s|
  {
    match ReadMember(s)
    case None => None
    case Some((k, v, rest)) =>
      if rest == "}" then Some([(k, v)])
      else if |rest| >= 2 && rest[..2] == ", " then
        match ReadMembers(rest[2..])
        case None => None
        case Some(ms) => Some([(k, v)] + ms)
      else None
  }

  /** `JSON.parse` of a flat object of string members: `None` where it would throw. */
  function ReadObject(s: string): (r: Option<seq<(string, string)>>)
    ensures r.Some? ==> s != [] && s[0] == '{' && |r.value| >= 1
  {
    if s != [] && s[0] == '{' then ReadMembers(s[1..]) else None
  }

  /** The two-character escapes read back as the character they were written for. */
  lemma ShortEscapeInverts(c: char)
    requires ShortEscape(c).Some?
    ensures ShortEscape(c).value != 'u' && ShortUnescape(ShortEscape(c).value) == Some(c)
  {
  }

  /** A written `\uXXXX` escape reads back as its code unit. */
  lemma ReadWrittenCodeUnit(v: nat, rest: string)
    requires v < 0x10000
    ensures CodeUnit(UnicodeEscape(v) + rest) == Some(v)
  {
    Pow16Four();
    HexRoundTrip(v, 4);
    var s := UnicodeEscape(v) + rest;
    assert s[2..6] == Hex(v, 4);
    assert HexAt(s, 2) by {
      forall j | 2 <= j < 6 ensures IsHexDigit(s[j]) {
        assert s[j] == Hex(v, 4)[j - 2];
      }
    }
  }

  /** The surrogate pair `json.dumps` writes for a character above U+FFFF. */
  lemma SurrogatesOf(c: char)
    requires c as int >= 0x10000
    ensures var v := c as int - 0x10000;
            && 0xD800 <= 0xD800 + v / 0x400 < 0xDC00
            && 0xDC00 <= 0xDC00 + v % 0x400 < 0xE000
            && Combine(0xD800 + v / 0x400, 0xDC00 + v % 0x400) == c as int
  {
  }

  /** A character above U+FFFF is written as a surrogate pair that reads back as it. */
  lemma ReadWrittenSurrogatePair(c: char, rest: string)
    requires c as int >= 0x10000
    ensures var v := c as int - 0x10000;
            var s := UnicodeEscape(0xD800 + v / 0x400) + UnicodeEscape(0xDC00 + v % 0x400) + rest;
            ReadUnicodeEscape(s) == Some((c, 12))
  {
    var v := c as int - 0x10000;
    SurrogatesOf(c);
    var hiEsc := UnicodeEscape(0xD800 + v / 0x400);
    var loEsc := UnicodeEscape(0xDC00 + v % 0x400);
    var s := hiEsc + loEsc + rest;
    assert s == hiEsc + (loEsc + rest);
    ReadWrittenCodeUnit(0xD800 + v / 0x400, loEsc + rest);
    assert s[6..] == loEsc + rest;
    ReadWrittenCodeUnit(0xDC00 + v % 0x400, rest);
  }

  /** Each written character reads back as itself, taking exactly its escape. */
  lemma ReadEscapedChar(c: char, rest: string)
    ensures (EscapeChar(c) + rest)[0] != '"'
    ensures ReadChar(EscapeChar(c) + rest) == Some((c, |EscapeChar(c)|))
  {
    var s := EscapeChar(c) + rest;
    if ShortEscape(c).Some? {
      ShortEscapeInverts(c);
    } else if ' ' <= c <= '~' {
    } else if c as int < 0x10000 {
      ReadWrittenCodeUnit(c as int, rest);
    } else {
      ReadWrittenSurrogatePair(c, rest);
    }
  }

  /** A written string body, followed by its closing quote, reads back as the text. */
  lemma {:induction false} ReadQuoted(t: string, rest: string)
    ensures ReadString(Escape(t) + "\"" + rest) == Some((t, rest))
    decreases |t|
  {
    var s := Escape(t) + "\"" + rest;
    if t == [] {
      assert s == "\"" + rest;
    } else {
      var e := EscapeChar(t[0]);
      var after := Escape(t[1..]) + "\"" + rest;
      assert s == e + after;
      ReadEscapedChar(t[0], after);
      assert s[|e|..] == after;
      ReadQuoted(t[1..], rest);
      ReadStringStep(s, t[0], |e|, t[1..], rest);
      assert [t[0]] + t[1..] == t;
    }
  }

  /** One step of `ReadString`: a character that is not the closing quote, then the
      rest of the string body. */
  lemma ReadStringStep(s: string, c: char, n: nat, t: string, rest: string)
    requires s != [] && s[0] != '"' && ReadChar(s) == Some((c, n))
    requires n <= |s| && ReadString(s[n..]) == Some((t, rest))
    ensures ReadString(s) == Some(([c] + t, rest))
  {
  }

  lemma MemberShape(k: string, v: string, tail: string)
    ensures Member(k, v) + tail == "\"" + (Escape(k) + "\"" + (": \"" + (Escape(v) + "\"" + tail)))
  {
    MemberLayout(Escape(k), Escape(v), tail);
  }

  /** The regrouping behind `MemberShape`, for any key and value text. */
  lemma MemberLayout(a: string, b: string, tail: string)
    ensures ("\"" + a + "\"") + ": " + ("\"" + b + "\"") + tail
         == "\"" + (a + "\"" + (": \"" + (b + "\"" + tail)))
  {
    assert ": " + ("\"" + b + "\"") + tail == ": \"" + (b + "\"" + tail);
  }

  /** A written member reads back as its key and value, leaving what follows it. */
  lemma ReadWrittenMember(k: string, v: string, tail: string)
    ensures ReadMember(Member(k, v) + tail) == Some((k, v, tail))
  {
    var ek, ev := Escape(k), Escape(v);
    var afterKey := ": \"" + (ev + "\"" + tail);
    var s := Member(k, v) + tail;
    MemberShape(k, v, tail);
    assert s[0] == '"' && s[1..] == ek + "\"" + afterKey;
    ReadQuoted(k, afterKey);
    assert afterKey[..3] == ": \"" && afterKey[3..] == ev + "\"" + tail;
    ReadQuoted(v, tail);
  }

  /** Reading the written members gives back the members, in order. */
  lemma {:induction false} ReadWrittenMembers(members: seq<(string, string)>)
    requires |members| >= 1
    ensures ReadMembers(Members(members) + "}") == Some(members)
    decreases |members|
  {
    var k, v := members[0].0, members[0].1;
    if |members| == 1 {
      ReadWrittenMember(k, v, "}");
      assert members == [(k, v)];
    } else {
      var others := members[1..];
      var tail := ", " + (Members(others) + "}");
      MembersLayout(Member(k, v), Members(others));
      assert Members(members) + "}" == Member(k, v) + tail;
      ReadWrittenMember(k, v, tail);
      ReadWrittenMembers(others);
      ReadMembersStep(Member(k, v) + tail, k, v, tail, others);
      assert [(k, v)] + others == members;
    }
  }

  /** The regrouping behind `ReadWrittenMembers`. */
  lemma MembersLayout(first: string, others: string)
    ensures first + ", " + others + "}" == first + (", " + (others + "}"))
  {
  }

  lemma ReadMembersStep(s: string, k: string, v: string, tail: string, others: seq<(string, string)>)
    requires ReadMember(s) == Some((k, v, tail))
    requires |tail| >= 2 && tail[..2] == ", "
    requires ReadMembers(tail[2..]) == Some(others)
    ensures ReadMembers(s) == Some([(k, v)] + others)
  {
    assert tail != "}";
  }

  /** Reading a written object gives back its members. */
  lemma ReadWrittenObject(members: seq<(string, string)>)
    requires |members| >= 1
    ensures ReadObject(Object(members)) == Some(members)
  {
    ObjectLayout(Members(members));
    ReadWrittenMembers(members);
  }

  lemma ObjectLayout(body: string)
    ensures ("{" + body + "}")[0] == '{' && ("{" + body + "}")[1..] == body + "}"
  {
  }
}
