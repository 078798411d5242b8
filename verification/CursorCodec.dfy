/** Page cursors as text: base64url with the padding stripped (sections 3.2 and 5 of RFC 4648). */
module CursorCodec {
  import opened Common

  type Byte = b: int | 0 <= b < 256

  /** The URL-safe alphabet. */
  function DigitOf(v: int): (c: char)
    requires 0 <= v < 64
    ensures ValueOf(c) == Some(v)
  {
    if v < 26 then 'A' + v as char
    else if v < 52 then 'a' + (v - 26) as char
    else if v < 62 then '0' + (v - 52) as char
    else if v == 62 then '-' else '_'
  }

  function ValueOf(c: char): (r: Option<int>)
    ensures r.Some? ==> 0 <= r.value < 64
  {
    if 'A' <= c <= 'Z' then Some((c - 'A') as int)
    else if 'a' <= c <= 'z' then Some((c - 'a') as int + 26)
    else if '0' <= c <= '9' then Some((c - '0') as int + 52)
    else if c == '-' then Some(62) else if c == '_' then Some(63) else None
  }

  // One group of one, two or three bytes as four characters.
  function EncodeGroup(b: seq<Byte>): (r: string)
    requires 1 <= |b| <= 3
    ensures |r| == 4
  {
    if |b| == 1 then [DigitOf(b[0] / 4), DigitOf(b[0] % 4 * 16), '=', '=']
    else if |b| == 2 then [DigitOf(b[0] / 4), DigitOf(b[0] % 4 * 16 + b[1] / 16), DigitOf(b[1] % 16 * 4), '=']
    else [DigitOf(b[0] / 4), DigitOf(b[0] % 4 * 16 + b[1] / 16), DigitOf(b[1] % 16 * 4 + b[2] / 64), DigitOf(b[2] % 64)]
  }

  function Encode(b: seq<Byte>): string {
    if b == [] then "" else if |b| <= 3 then EncodeGroup(b) else EncodeGroup(b[..3]) + Encode(b[3..])
  }

  lemma {:induction false} EncodeLength(b: seq<Byte>)
    ensures |Encode(b)| % 4 == 0
  {
    hide EncodeGroup;
    if b == [] {
    } else if |b| > 3 {
      EncodeLength(b[3..]);
    }
  }

  function DecodeGroup(s: string): (r: Option<seq<Byte>>)
    requires |s| == 4
  {
    match (ValueOf(s[0]), ValueOf(s[1]))
    case (Some(v0), Some(v1)) =>
      if s[2] == '=' && s[3] == '=' then Some([v0 * 4 + v1 / 16])
      else (
        match ValueOf(s[2])
        case None => None
        case Some(v2) =>
          if s[3] == '=' then Some([v0 * 4 + v1 / 16, v1 % 16 * 16 + v2 / 4])
          else (
            match ValueOf(s[3])
            case None => None
            case Some(v3) => Some([v0 * 4 + v1 / 16, v1 % 16 * 16 + v2 / 4, v2 % 4 * 64 + v3])))
    case _ => None
  }

  /** Padding is allowed in the last group only. */
  function Decode(s: string): Option<seq<Byte>> {
    if s == "" then Some([])
    else if |s| < 4 then None
    else
      var first := DecodeGroup(s[..4]);
      if |s| == 4 then first
      else if first.None? || |first.value| < 3 then None
      else
        match Decode(s[4..])
        case None => None
        case Some(rest) => Some(first.value + rest)
  }

  // rstrip("=")
  function StripPadding(s: string): (r: string)
    ensures r <= s
  {
    if s != "" && s[|s| - 1] == '=' then StripPadding(s[..|s| - 1]) else s
  }

  function Pads(n: nat): string { seq(n, i => '=') }

  function EncodeCursor(b: seq<Byte>): string { StripPadding(Encode(b)) }

  // "=" * (-len % 4), with the remainder that is never negative.
  function DecodeCursor(s: string): Option<seq<Byte>> {
    Decode(s + Pads((-|s|) % 4))
  }

  lemma GroupRoundTrip(b: seq<Byte>)
    requires 1 <= |b| <= 3
    ensures DecodeGroup(EncodeGroup(b)) == Some(b)
  {
    hide ValueOf; hide DigitOf;
    assert ValueOf('=').None? by { PadIsNoDigit(); }
    assert b == if |b| == 1 then [b[0]] else if |b| == 2 then [b[0], b[1]] else [b[0], b[1], b[2]];
  }

  lemma PadIsNoDigit()
    ensures ValueOf('=').None?
  {
  }

  lemma {:induction false} PaddedRoundTrip(b: seq<Byte>)
    ensures Decode(Encode(b)) == Some(b)
  {
    if b == [] {
    } else if |b| <= 3 {
      GroupRoundTrip(b);
      var g := EncodeGroup(b);
      assert g[..4] == g;
    } else {
      GroupRoundTrip(b[..3]);
      PaddedRoundTrip(b[3..]);
      var s := Encode(b);
      assert s[..4] == EncodeGroup(b[..3]) && s[4..] == Encode(b[3..]);
      NotEmpty(b[3..]);
      assert b[..3] + b[3..] == b;
    }
  }

  lemma NotEmpty(b: seq<Byte>)
    requires b != []
    ensures |Encode(b)| >= 4
  {
  }

  // How many padding characters the encoding ends with.
  function PadCount(b: seq<Byte>): (n: nat)
    ensures n <= 2
  {
    if |b| % 3 == 1 then 2 else if |b| % 3 == 2 then 1 else 0
  }

  lemma StripPads(s: string, n: nat)
    requires n <= 2 && (s != "" ==> s[|s| - 1] != '=')
    ensures StripPadding(s + Pads(n)) == s
  {
    if n == 0 {
      assert s + Pads(0) == s;
    } else {
      var t := s + Pads(n);
      assert t[|t| - 1] == '=' && t[..|t| - 1] == s + Pads(n - 1);
      StripPads(s, n - 1);
    }
  }

  lemma GroupShape(b: seq<Byte>)
    requires 1 <= |b| <= 3
    ensures forall i | 0 <= i < 4 - PadCount(b) :: ValueOf(EncodeGroup(b)[i]).Some?
    ensures EncodeGroup(b)[4 - PadCount(b)..] == Pads(PadCount(b))
  {
    hide DigitOf; hide ValueOf;
  }

  // The encoding is some digits, followed by its padding.
  lemma {:induction false} EncodeShape(b: seq<Byte>) returns (core: string)
    ensures Encode(b) == core + Pads(PadCount(b))
    ensures forall i | 0 <= i < |core| :: ValueOf(core[i]).Some?
  {
    hide EncodeGroup; hide ValueOf;
    if b == [] {
      core := "";
    } else if |b| <= 3 {
      GroupShape(b);
      var g := EncodeGroup(b);
      core := g[..4 - PadCount(b)];
      assert g == core + g[4 - PadCount(b)..];
    } else {
      GroupShape(b[..3]);
      var rest := EncodeShape(b[3..]);
      core := EncodeGroup(b[..3]) + rest;
      assert |b[3..]| % 3 == |b| % 3;
      Associative(EncodeGroup(b[..3]), rest, Pads(PadCount(b)));
    }
  }

  /** Cursor encoding undoes itself: for every payload, stripping the padding, restoring it from
      the length alone and decoding gives the payload back. The stripped length is never one
      more than a multiple of four. */
  lemma CursorRoundTrip(b: seq<Byte>)
    ensures DecodeCursor(EncodeCursor(b)) == Some(b)
    ensures |EncodeCursor(b)| % 4 != 1
  {
    hide Encode; hide StripPadding; hide Decode;
    var core := EncodeShape(b);
    var n := PadCount(b);
    PadIsNoDigit();
    StripPads(core, n);
    assert EncodeCursor(b) == core;
    assert |core| + n == |Encode(b)|;
    EncodeLength(b);
    assert (-|core|) % 4 == n;
    PaddedRoundTrip(b);
  }

  /** A cursor needs no escaping in a URL: it holds letters, digits, - and _ only. */
  lemma CursorIsUrlSafe(b: seq<Byte>)
    ensures forall c | c in EncodeCursor(b) ::
              'A' <= c <= 'Z' || 'a' <= c <= 'z' || '0' <= c <= '9' || c == '-' || c == '_'
  {
    hide Encode; hide StripPadding;
    var core := EncodeShape(b);
    PadIsNoDigit();
    StripPads(core, PadCount(b));
  }

  /** Three of the test vectors of section 10 of RFC 4648: "f", "fo" and "foobar". */
  lemma StandardVectors()
    ensures Encode([102]) == "Zg==" && Encode([102, 111]) == "Zm8="
    ensures Encode([102, 111, 111, 98, 97, 114]) == "Zm9vYmFy"
  {
    hide EncodeGroup;
    GroupVectors();
    var b: seq<Byte> := [102, 111, 111, 98, 97, 114];
    assert b[..3] == [102, 111, 111] && b[3..] == [98, 97, 114];
    assert "Zm9v" + "YmFy" == "Zm9vYmFy";
  }

  lemma GroupVectors()
    ensures EncodeGroup([102]) == "Zg==" && EncodeGroup([102, 111]) == "Zm8="
    ensures EncodeGroup([102, 111, 111]) == "Zm9v" && EncodeGroup([98, 97, 114]) == "YmFy"
  {
    hide ValueOf;
    assert DigitOf(25) == 'Z' && DigitOf(24) == 'Y' && DigitOf(5) == 'F';
    assert DigitOf(32) == 'g' && DigitOf(38) == 'm' && DigitOf(47) == 'v' && DigitOf(50) == 'y';
    assert DigitOf(60) == '8' && DigitOf(61) == '9';
    hide DigitOf;
  }

  /** So two payloads never share a cursor. */
  lemma CursorInjective(a: seq<Byte>, b: seq<Byte>)
    requires EncodeCursor(a) == EncodeCursor(b)
    ensures a == b
  {
    CursorRoundTrip(a);
    CursorRoundTrip(b);
  }
}
