// The unpadded base64url cursor of an event id (activity_pagination.py), with
// the alphabet of RFC 4648 section 5 and padding omitted as in section 3.2.
module ActivityPagination {
  import opened Wrappers

  type Byte = b: int | 0 <= b < 256
  type Sextet = s: int | 0 <= s < 64

  datatype CursorError = InvalidCursor

  function Symbol(s: Sextet): char {
    var n: int := s;
    if n < 26 then 'A' + n as char
    else if n < 52 then 'a' + (n - 26) as char
    else if n < 62 then '0' + (n - 52) as char
    else if n == 62 then '-' else '_'
  }

  // The decoder maps '-' and '_' onto '+' and '/', so it accepts both pairs.
  function SymbolValue(c: char): Option<Sextet> {
    if 'A' <= c <= 'Z' then Some((c as int) - ('A' as int))
    else if 'a' <= c <= 'z' then Some((c as int) - ('a' as int) + 26)
    else if '0' <= c <= '9' then Some((c as int) - ('0' as int) + 52)
    else if c == '-' || c == '+' then Some(62)
    else if c == '_' || c == '/' then Some(63)
    else None
  }

  const UPPER := "ABCDEFGHIJKLMNOPQRSTUVWXYZ"
  const LOWER := "abcdefghijklmnopqrstuvwxyz"
  const OTHERS := "0123456789-_"
  const ALPHABET := UPPER + LOWER + OTHERS

  lemma LetterHas(i: nat)
    requires i < 26
    ensures |UPPER| == |LOWER| == 26
    ensures UPPER[i] as int == 'A' as int + i && LOWER[i] as int == 'a' as int + i
  {
  }

  lemma OtherHas(i: nat)
    requires i < 12
    ensures |OTHERS| == 12
    ensures if i < 10 then OTHERS[i] as int == '0' as int + i else OTHERS[i] == if i == 10 then '-' else '_'
  {
  }

  lemma JoinedAt(first: string, second: string, third: string, i: nat)
    requires i < |first| + |second| + |third|
    ensures |first + second + third| == |first| + |second| + |third|
    ensures (first + second + third)[i] ==
              if i < |first| then first[i]
              else if i < |first| + |second| then second[i - |first|] else third[i - |first| - |second|]
  {
  }

  lemma AlphabetHas(i: nat)
    requires i < 64
    ensures |ALPHABET| == 64 && ALPHABET[i] == Symbol(i) && SymbolValue(ALPHABET[i]) == Some(i)
  {
    LetterHas(0);
    OtherHas(0);
    JoinedAt(UPPER, LOWER, OTHERS, i);
    if i < 26 {
      LetterHas(i);
    } else if i < 52 {
      LetterHas(i - 26);
    } else {
      OtherHas(i - 52);
    }
  }

  // The value of a symbol is its place in the URL alphabet; '+' and '/' count as
  // '-' and '_', and nothing else is a symbol.
  lemma SymbolTable(c: char)
    ensures |ALPHABET| == 64
    ensures SymbolValue(c).Some? <==> c in ALPHABET || c == '+' || c == '/'
    ensures SymbolValue(c).Some? ==>
              ALPHABET[SymbolValue(c).value] == if c == '+' then '-' else if c == '/' then '_' else c
  {
    AlphabetHas(0);
    if SymbolValue(c).Some? {
      AlphabetHas(SymbolValue(c).value);
    }
    if i :| 0 <= i < 64 && ALPHABET[i] == c {
      AlphabetHas(i);
    }
  }

  // How many characters are missing from a whole group of four.
  function Missing(length: nat): nat {
    (4 - length % 4) % 4
  }

  function Pad(n: nat): string {
    seq(n, _ => '=')
  }

  function Sextets(bytes: seq<Byte>): seq<Sextet> {
    if |bytes| == 0 then []
    else if |bytes| == 1 then [bytes[0] / 4, bytes[0] % 4 * 16]
    else if |bytes| == 2 then [bytes[0] / 4, bytes[0] % 4 * 16 + bytes[1] / 16, bytes[1] % 16 * 4]
    else [bytes[0] / 4, bytes[0] % 4 * 16 + bytes[1] / 16, bytes[1] % 16 * 4 + bytes[2] / 64, bytes[2] % 64]
         + Sextets(bytes[3..])
  }

  function Symbols(sextets: seq<Sextet>): string {
    seq(|sextets|, k requires 0 <= k < |sextets| => Symbol(sextets[k]))
  }

  // Standard padded encoding: the length is a multiple of four.
  function Encode(bytes: seq<Byte>): string {
    Symbols(Sextets(bytes)) + Pad((3 - |bytes| % 3) % 3)
  }

  function StripPadding(text: string): string {
    if text != [] && text[|text| - 1] == '=' then StripPadding(text[..|text| - 1]) else text
  }

  function FirstByte(a: int, b: int): Byte
    requires 0 <= a < 64 && 0 <= b < 64
  {
    a * 4 + b / 16
  }

  function SecondByte(b: int, c: int): Byte
    requires 0 <= b < 64 && 0 <= c < 64
  {
    b % 16 * 16 + c / 4
  }

  function ThirdByte(c: int, d: int): Byte
    requires 0 <= c < 64 && 0 <= d < 64
  {
    c % 4 * 64 + d
  }

  // Bits beyond the last whole byte are ignored.
  function Bytes(s: seq<Sextet>): seq<Byte>
    requires |s| % 4 != 1
  {
    if |s| == 0 then []
    else if |s| == 2 then [FirstByte(s[0], s[1])]
    else if |s| == 3 then [FirstByte(s[0], s[1]), SecondByte(s[1], s[2])]
    else [FirstByte(s[0], s[1]), SecondByte(s[1], s[2]), ThirdByte(s[2], s[3])] + Bytes(s[4..])
  }

  function Values(text: string): Option<seq<Sextet>> {
    if text == [] then Some([])
    else
      match (Values(text[..|text| - 1]), SymbolValue(text[|text| - 1]))
      case (Some(values), Some(value)) => Some(values + [value])
      case _ => None
  }

  // Validating decoder: alphabet symbols, then exactly the padding they need.
  function Decode(padded: string): Result<seq<Byte>, CursorError> {
    match Values(StripPadding(padded))
    case None => Err(InvalidCursor)
    case Some(sextets) =>
      if |sextets| % 4 == 1 || |padded| - |sextets| != Missing(|sextets|) then Err(InvalidCursor)
      else Ok(Bytes(sextets))
  }

  function DecodeUnpadded(text: string): Result<seq<Byte>, CursorError> {
    Decode(text + Pad(Missing(|text|)))
  }

  function EncodeEventCursor(eventId: seq<Byte>): string {
    StripPadding(Encode(eventId))
  }

  function DecodeEventCursor(cursor: string): Result<seq<Byte>, CursorError> {
    match DecodeUnpadded(cursor)
    case Err(e) => Err(e)
    case Ok(raw) => if |raw| != 16 then Err(InvalidCursor) else Ok(raw)
  }

  // ---------- Round trip

  lemma SymbolRoundTrip(s: Sextet)
    ensures SymbolValue(Symbol(s)) == Some(s) && Symbol(s) != '='
  {
  }

  lemma {:induction false} ValuesOfSymbols(sextets: seq<Sextet>)
    ensures Values(Symbols(sextets)) == Some(sextets)
  {
    if sextets != [] {
      var rest := sextets[..|sextets| - 1];
      ValuesOfSymbols(rest);
      SymbolRoundTrip(sextets[|sextets| - 1]);
      assert Symbols(sextets)[..|sextets| - 1] == Symbols(rest);
      assert sextets == rest + [sextets[|sextets| - 1]];
    }
  }

  lemma {:induction false} StripExact(sextets: seq<Sextet>, n: nat)
    ensures StripPadding(Symbols(sextets) + Pad(n)) == Symbols(sextets)
  {
    var text := Symbols(sextets) + Pad(n);
    if n > 0 {
      assert text[..|text| - 1] == Symbols(sextets) + Pad(n - 1);
      StripExact(sextets, n - 1);
    } else {
      assert text == Symbols(sextets);
      if sextets != [] {
        SymbolRoundTrip(sextets[|sextets| - 1]);
      }
    }
  }

  lemma TripleRoundTrip(a: Byte, b: Byte, c: Byte)
    ensures FirstByte(a / 4, a % 4 * 16 + b / 16) == a
    ensures SecondByte(a % 4 * 16 + b / 16, b % 16 * 4 + c / 64) == b
    ensures ThirdByte(b % 16 * 4 + c / 64, c % 64) == c
  {
  }

  lemma {:induction false} SextetsLength(bytes: seq<Byte>)
    ensures |Sextets(bytes)| == (4 * |bytes| + 2) / 3 && |Sextets(bytes)| % 4 != 1
  {
    if |bytes| >= 3 {
      SextetsLength(bytes[3..]);
      assert |Sextets(bytes)| == 4 + |Sextets(bytes[3..])|;
    }
  }

  lemma ShortRoundTrip(bytes: seq<Byte>)
    requires |bytes| < 3
    ensures |Sextets(bytes)| % 4 != 1 && Bytes(Sextets(bytes)) == bytes
  {
    if |bytes| == 1 {
      TripleRoundTrip(bytes[0], 0, 0);
    } else if |bytes| == 2 {
      TripleRoundTrip(bytes[0], bytes[1], 0);
    }
  }

  // A whole group in front of the others decodes on its own.
  lemma GroupRoundTrip(a: Byte, b: Byte, c: Byte, rest: seq<Sextet>)
    requires |rest| % 4 != 1
    ensures var group: seq<Sextet> := [a / 4, a % 4 * 16 + b / 16, b % 16 * 4 + c / 64, c % 64];
            |group + rest| % 4 != 1 && Bytes(group + rest) == [a, b, c] + Bytes(rest)
  {
    TripleRoundTrip(a, b, c);
    var group: seq<Sextet> := [a / 4, a % 4 * 16 + b / 16, b % 16 * 4 + c / 64, c % 64];
    assert (group + rest)[4..] == rest;
  }

  lemma OneMoreGroup(bytes: seq<Byte>)
    requires |bytes| >= 3
    requires |Sextets(bytes[3..])| % 4 != 1 && Bytes(Sextets(bytes[3..])) == bytes[3..]
    ensures |Sextets(bytes)| % 4 != 1 && Bytes(Sextets(bytes)) == bytes
  {
    GroupRoundTrip(bytes[0], bytes[1], bytes[2], Sextets(bytes[3..]));
    assert bytes == [bytes[0], bytes[1], bytes[2]] + bytes[3..];
  }

  lemma {:induction false} SextetsRoundTrip(bytes: seq<Byte>)
    ensures |Sextets(bytes)| % 4 != 1 && Bytes(Sextets(bytes)) == bytes
  {
    if |bytes| < 3 {
      ShortRoundTrip(bytes);
    } else {
      SextetsRoundTrip(bytes[3..]);
      OneMoreGroup(bytes);
    }
  }

  lemma DecodeOfSymbols(sextets: seq<Sextet>)
    requires |sextets| % 4 != 1
    ensures DecodeUnpadded(Symbols(sextets)) == Ok(Bytes(sextets))
  {
    StripExact(sextets, Missing(|sextets|));
    ValuesOfSymbols(sextets);
  }

  // Stripping the padding and adding back the missing characters loses nothing.
  lemma UnpaddedRoundTrip(bytes: seq<Byte>)
    ensures DecodeUnpadded(StripPadding(Encode(bytes))) == Ok(bytes)
    ensures |StripPadding(Encode(bytes))| == (4 * |bytes| + 2) / 3
  {
    SextetsLength(bytes);
    SextetsRoundTrip(bytes);
    StripExact(Sextets(bytes), (3 - |bytes| % 3) % 3);
    DecodeOfSymbols(Sextets(bytes));
  }

  lemma SymbolsAndPadding(n: nat)
    ensures (4 * n + 2) / 3 + (3 - n % 3) % 3 == (n + 2) / 3 * 4
  {
    var q := n / 3;
    if n % 3 == 0 {
      assert n == 3 * q;
    } else if n % 3 == 1 {
      assert n == 3 * q + 1;
    } else {
      assert n == 3 * q + 2;
    }
  }

  // The padded form fills whole groups of four symbols.
  lemma PaddedLength(bytes: seq<Byte>)
    ensures |Encode(bytes)| == (|bytes| + 2) / 3 * 4
  {
    SextetsLength(bytes);
    SymbolsAndPadding(|bytes|);
  }

  // Every id survives as a 22-character cursor, so cursors tell ids apart.
  lemma EventCursorRoundTrip(eventId: seq<Byte>)
    requires |eventId| == 16
    ensures |EncodeEventCursor(eventId)| == 22
    ensures DecodeEventCursor(EncodeEventCursor(eventId)) == Ok(eventId)
  {
    UnpaddedRoundTrip(eventId);
  }
}
