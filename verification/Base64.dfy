/** Standard base64 with padding, section 4 of RFC 4648, as Go's base64.StdEncoding reads and writes it. */
module Base64 {
  import opened Wrappers

  /** Go strings are byte sequences; a byte is a character below 256. */
  type byte = c: char | c as int < 256

  function Digit(v: int): (c: char)
    requires 0 <= v < 64
    ensures DigitValue(c) == Some(v)
    ensures c != '\n' && c != '\r' && c != '='
  {
    if v < 26 then ('A' as int + v) as char
    else if v < 52 then ('a' as int + v - 26) as char
    else if v < 62 then ('0' as int + v - 52) as char
    else if v == 62 then '+'
    else '/'
  }

  function DigitValue(c: char): (v: Option<int>)
    ensures v.Some? ==> 0 <= v.value < 64
  {
    if 'A' <= c <= 'Z' then Some(c as int - 'A' as int)
    else if 'a' <= c <= 'z' then Some(c as int - 'a' as int + 26)
    else if '0' <= c <= '9' then Some(c as int - '0' as int + 52)
    else if c == '+' then Some(62)
    else if c == '/' then Some(63)
    else None
  }

  function Encode(data: seq<byte>): string {
    if |data| == 0 then ""
    else if |data| == 1 then
      var a := data[0] as int;
      [Digit(a / 4), Digit(a % 4 * 16), '=', '=']
    else if |data| == 2 then
      var a, b := data[0] as int, data[1] as int;
      [Digit(a / 4), Digit(a % 4 * 16 + b / 16), Digit(b % 16 * 4), '=']
    else
      var a, b, c := data[0] as int, data[1] as int, data[2] as int;
      [Digit(a / 4), Digit(a % 4 * 16 + b / 16), Digit(b % 16 * 4 + c / 64), Digit(c % 64)] + Encode(data[3..])
  }

  /** Line breaks are skipped wherever they occur. */
  function DropLineBreaks(s: string): string {
    if s == "" then ""
    else (if s[0] == '\n' || s[0] == '\r' then "" else [s[0]]) + DropLineBreaks(s[1..])
  }

  /** Decodes groups of four; padding ends the text, and surplus low bits are ignored. */
  function DecodeGroups(s: string): Option<seq<byte>> {
    if s == "" then Some([])
    else if |s| < 4 then None
    else
      match (DigitValue(s[0]), DigitValue(s[1]))
      case (Some(p), Some(q)) =>
        var a := (p * 4 + q / 16) as char;
        if s[2] == '=' then
          if s[3] == '=' && |s| == 4 then Some([a]) else None
        else
          (match DigitValue(s[2])
           case None => None
           case Some(r) =>
             var b := (q % 16 * 16 + r / 4) as char;
             if s[3] == '=' then
               if |s| == 4 then Some([a, b]) else None
             else
               (match (DigitValue(s[3]), DecodeGroups(s[4..]))
                case (Some(t), Some(rest)) => Some([a, b, (r % 4 * 64 + t) as char] + rest)
                case (_, _) => None))
      case (_, _) => None
  }

  function Decode(s: string): Option<seq<byte>> {
    DecodeGroups(DropLineBreaks(s))
  }

  lemma {:induction false} EncodeHasNoLineBreaks(data: seq<byte>)
    ensures DropLineBreaks(Encode(data)) == Encode(data)
  {
    var text := Encode(data);
    if |data| >= 3 {
      EncodeHasNoLineBreaks(data[3..]);
      DropNothing(text[..4], Encode(data[3..]));
      assert text == text[..4] + Encode(data[3..]);
    } else {
      DropNothing(text, "");
      assert text == text + "";
    }
  }

  lemma {:induction false} DropNothing(kept: string, rest: string)
    requires '\n' !in kept && '\r' !in kept
    ensures DropLineBreaks(kept + rest) == kept + DropLineBreaks(rest)
  {
    if kept == "" {
      assert kept + rest == rest;
    } else {
      assert (kept + rest)[1..] == kept[1..] + rest;
      DropNothing(kept[1..], rest);
    }
  }

  /** Three bytes survive the split into four groups of six bits. */
  lemma SixBitGroups(a: int, b: int, c: int)
    requires 0 <= a < 256 && 0 <= b < 256 && 0 <= c < 256
    ensures a / 4 * 4 + (a % 4 * 16 + b / 16) / 16 == a
    ensures (a % 4 * 16 + b / 16) % 16 * 16 + (b % 16 * 4 + c / 64) / 4 == b
    ensures (b % 16 * 4 + c / 64) % 4 * 64 + c % 64 == c
  {
  }

  lemma {:induction false} DecodeGroupsEncode(data: seq<byte>)
    ensures DecodeGroups(Encode(data)) == Some(data)
  {
    if |data| < 3 {
      DecodeEncodeLast(data);
    } else {
      DecodeGroupsEncode(data[3..]);
      EncodeFullGroup(data);
      var a, b, c := data[0] as int, data[1] as int, data[2] as int;
      SixBitGroups(a, b, c);
      DecodeFullGroup(data, a / 4, a % 4 * 16 + b / 16, b % 16 * 4 + c / 64, c % 64, Encode(data[3..]));
    }
  }

  lemma DecodeEncodeLast(data: seq<byte>)
    requires |data| < 3
    ensures DecodeGroups(Encode(data)) == Some(data)
  {
    if |data| == 1 {
      EncodeLastGroup(data);
      DecodeLastGroup(data, data[0] as int / 4, data[0] as int % 4 * 16);
    } else if |data| == 2 {
      EncodeLongLastGroup(data);
      var a, b := data[0] as int, data[1] as int;
      SixBitGroups(a, b, 0);
      DecodeLongLastGroup(data, a / 4, a % 4 * 16 + b / 16, b % 16 * 4);
    }
  }

  lemma EncodeLastGroup(data: seq<byte>)
    requires |data| == 1
    ensures Encode(data) == [Digit(data[0] as int / 4), Digit(data[0] as int % 4 * 16), '=', '=']
  {
  }

  lemma EncodeLongLastGroup(data: seq<byte>)
    requires |data| == 2
    ensures var a, b := data[0] as int, data[1] as int;
            Encode(data) == [Digit(a / 4), Digit(a % 4 * 16 + b / 16), Digit(b % 16 * 4), '=']
  {
  }

  lemma EncodeFullGroup(data: seq<byte>)
    requires |data| >= 3
    ensures var a, b, c := data[0] as int, data[1] as int, data[2] as int;
            Encode(data) == [Digit(a / 4), Digit(a % 4 * 16 + b / 16), Digit(b % 16 * 4 + c / 64), Digit(c % 64)]
                            + Encode(data[3..])
  {
  }

  lemma DecodeLastGroup(data: seq<byte>, p: int, q: int)
    requires 0 <= p < 64 && 0 <= q < 64
    requires |data| == 1 && data[0] as int == p * 4 + q / 16
    ensures DecodeGroups([Digit(p), Digit(q), '=', '=']) == Some(data)
  {
    assert data == [data[0]];
  }

  lemma DecodeLongLastGroup(data: seq<byte>, p: int, q: int, r: int)
    requires 0 <= p < 64 && 0 <= q < 64 && 0 <= r < 64
    requires |data| == 2 && data[0] as int == p * 4 + q / 16 && data[1] as int == q % 16 * 16 + r / 4
    ensures DecodeGroups([Digit(p), Digit(q), Digit(r), '=']) == Some(data)
  {
    assert data == [data[0], data[1]];
  }

  lemma DecodeFullGroup(data: seq<byte>, p: int, q: int, r: int, t: int, rest: string)
    requires 0 <= p < 64 && 0 <= q < 64 && 0 <= r < 64 && 0 <= t < 64
    requires |data| >= 3 && data[0] as int == p * 4 + q / 16
    requires data[1] as int == q % 16 * 16 + r / 4 && data[2] as int == r % 4 * 64 + t
    requires DecodeGroups(rest) == Some(data[3..])
    ensures DecodeGroups([Digit(p), Digit(q), Digit(r), Digit(t)] + rest) == Some(data)
  {
    assert ([Digit(p), Digit(q), Digit(r), Digit(t)] + rest)[4..] == rest;
    assert data == [data[0], data[1], data[2]] + data[3..];
  }

  lemma DecodeEncode(data: seq<byte>)
    ensures Decode(Encode(data)) == Some(data)
  {
    EncodeHasNoLineBreaks(data);
    DecodeGroupsEncode(data);
  }

  // ----- the alphabet, and what decodes -----

  /** Table 1 of RFC 4648: capitals, small letters, digits, plus and slash. */
  lemma Alphabet(v: int)
    requires 0 <= v < 64
    ensures v < 26 ==> Digit(v) == "ABCDEFGHIJKLMNOPQRSTUVWXYZ"[v]
    ensures 26 <= v < 52 ==> Digit(v) == "abcdefghijklmnopqrstuvwxyz"[v - 26]
    ensures 52 <= v < 62 ==> Digit(v) == "0123456789"[v - 52]
    ensures Digit(62) == '+' && Digit(63) == '/'
  {
  }

  /** The digits of three bytes are those of one number of twenty-four bits, most significant first. */
  lemma GroupIsNumber(data: seq<byte>, p: int, q: int, r: int, t: int)
    requires |data| >= 3 && 0 <= p < 64 && 0 <= q < 64 && 0 <= r < 64 && 0 <= t < 64
    requires ((p * 64 + q) * 64 + r) * 64 + t == (data[0] as int * 256 + data[1] as int) * 256 + data[2] as int
    ensures Encode(data) == [Digit(p), Digit(q), Digit(r), Digit(t)] + Encode(data[3..])
  {
    var a, b, c := data[0] as int, data[1] as int, data[2] as int;
    SameNumber(a, b, c, p, q, r, t);
    EncodeFullGroup(data);
  }

  lemma SameNumber(a: int, b: int, c: int, p: int, q: int, r: int, t: int)
    requires 0 <= a < 256 && 0 <= b < 256 && 0 <= c < 256
    requires 0 <= p < 64 && 0 <= q < 64 && 0 <= r < 64 && 0 <= t < 64
    requires ((p * 64 + q) * 64 + r) * 64 + t == (a * 256 + b) * 256 + c
    ensures p == a / 4 && q == a % 4 * 16 + b / 16 && r == b % 16 * 4 + c / 64 && t == c % 64
  {
  }

  /** A short last group is filled up with zero bits, and with padding in place of whole digits. */
  lemma ShortGroups(a: byte, b: byte)
    ensures var full := Encode([a, b, 0 as char]); Encode([a, b]) == full[..3] + "="
    ensures var full := Encode([a, 0 as char, 0 as char]); Encode([a]) == full[..2] + "=="
  {
    EncodeFullGroup([a, b, 0 as char]);
    EncodeFullGroup([a, 0 as char, 0 as char]);
  }

  /** Section 10 of RFC 4648. */
  lemma Vectors()
    ensures Encode("") == "" && Encode("f") == "Zg==" && Encode("fo") == "Zm8=" && Encode("foo") == "Zm9v"
  {
    assert ("foo")[3..] == "";
  }

  /** How many padding characters end the text. */
  function Padding(s: string): (n: nat)
    ensures n <= |s| && n <= 2
  {
    if |s| >= 2 && s[|s| - 2..] == "==" then 2 else if |s| >= 1 && s[|s| - 1] == '=' then 1 else 0
  }

  /** Whole groups of four, and nothing but digits in front of at most two padding characters. */
  ghost predicate WellPadded(s: string) {
    |s| % 4 == 0 && forall i :: 0 <= i < |s| - Padding(s) ==> DigitValue(s[i]).Some?
  }

  lemma PaddingBehind(s: string)
    requires |s| >= 8
    ensures Padding(s) == Padding(s[4..])
  {
    assert s[4..][|s| - 6..] == s[|s| - 2..];
  }

  /** Exactly the well-padded texts decode. */
  lemma {:induction false} DecodesWhen(s: string)
    ensures DecodeGroups(s).Some? <==> WellPadded(s)
  {
    if |s| >= 8 {
      DecodesWhen(s[4..]);
      FirstGroupDecodes(s);
      FirstGroupPadded(s);
    } else if |s| == 4 {
      assert s[4..] == "";
      LastGroupDecodes(s);
    }
  }

  predicate FourDigits(s: string) {
    |s| >= 4 && DigitValue(s[0]).Some? && DigitValue(s[1]).Some? && DigitValue(s[2]).Some? && DigitValue(s[3]).Some?
  }

  lemma FirstGroupDecodes(s: string)
    requires |s| >= 8
    ensures DecodeGroups(s).Some? <==> FourDigits(s) && DecodeGroups(s[4..]).Some?
  {
    assert s[2] == '=' ==> DigitValue(s[2]).None?;
    assert s[3] == '=' ==> DigitValue(s[3]).None?;
  }

  lemma FirstGroupPadded(s: string)
    requires |s| >= 8
    ensures WellPadded(s) <==> FourDigits(s) && WellPadded(s[4..])
  {
    var rest := s[4..];
    PaddingBehind(s);
    assert forall i :: 0 <= i < |rest| ==> rest[i] == s[i + 4];
    assert forall i :: 4 <= i < |s| ==> s[i] == rest[i - 4];
  }

  lemma LastGroupDecodes(s: string)
    requires |s| == 4 && s[4..] == ""
    ensures DecodeGroups(s).Some? <==> WellPadded(s)
  {
    assert DigitValue('=').None?;
    assert s[2..] == [s[2], s[3]];
  }

  /** Line breaks do not matter, wherever they stand. */
  lemma {:induction false} LineBreaksDropOut(before: string, c: char, after: string)
    requires c == '\n' || c == '\r'
    ensures Decode(before + [c] + after) == Decode(before + after)
  {
    DroppedLineBreak(before, c, after);
  }

  lemma {:induction false} DroppedLineBreak(before: string, c: char, after: string)
    requires c == '\n' || c == '\r'
    ensures DropLineBreaks(before + [c] + after) == DropLineBreaks(before + after)
  {
    if before == "" {
      assert (before + [c] + after)[1..] == after == before + after;
    } else {
      assert (before + [c] + after)[1..] == before[1..] + [c] + after;
      assert (before + after)[1..] == before[1..] + after;
      DroppedLineBreak(before[1..], c, after);
    }
  }
}
