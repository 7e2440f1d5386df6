/**
  The opaque list cursor of src/orcheo/hosted_apps/data.py: base64url without padding
  (sections 3.2 and 5 of RFC 4648) of a key's UTF-8 bytes.
 */
module CursorCodec {
  import opened Common

  newtype Byte = x: int | 0 <= x < 256
  type Bytes = seq<Byte>

  // ---------------------------------------------------------------- the alphabet

  /** The 64 characters of the URL-safe alphabet, in order. */
  function Symbol(n: nat): char
    requires n < 64
  {
    if n < 26 then 'A' + n as char
    else if n < 52 then 'a' + (n - 26) as char
    else if n < 62 then '0' + (n - 52) as char
    else if n == 62 then '-' else '_'
  }

  function Value(c: char): Option<nat> {
    if 'A' <= c <= 'Z' then Some(c as int - 'A' as int)
    else if 'a' <= c <= 'z' then Some(c as int - 'a' as int + 26)
    else if '0' <= c <= '9' then Some(c as int - '0' as int + 52)
    else if c == '-' then Some(62)
    else if c == '_' then Some(63)
    else None
  }

  lemma SymbolsAreDistinct(n: nat)
    requires n < 64
    ensures Value(Symbol(n)) == Some(n) && Symbol(n) != '='
  {
  }

  // ---------------------------------------------------------------- padded groups

  /** Three bytes are 24 bits, or four symbols; a short last group is padded with zero bits. */
  function Group(a: int, b: int, c: int): string
    requires 0 <= a < 256 && 0 <= b < 256 && 0 <= c < 256
  {
    [Symbol(a / 4), Symbol(a % 4 * 16 + b / 16), Symbol(b % 16 * 4 + c / 64), Symbol(c % 64)]
  }

  function EncodePadded(bytes: Bytes): string
    decreases |bytes|
  {
    if bytes == [] then ""
    else if |bytes| == 1 then Group(bytes[0] as int, 0, 0)[..2] + "=="
    else if |bytes| == 2 then Group(bytes[0] as int, bytes[1] as int, 0)[..3] + "="
    else Group(bytes[0] as int, bytes[1] as int, bytes[2] as int) + EncodePadded(bytes[3..])
  }

  /** One group of four characters; two or one padding characters end the text. */
  function DecodeGroup(g: string): Option<Bytes>
    requires |g| == 4
  {
    var w, x := Value(g[0]), Value(g[1]);
    if w.None? || x.None? then None
    else
      var first := (w.value * 4 + x.value / 16) % 256;
      if g[2] == '=' then (if g[3] == '=' then Some([first as Byte]) else None)
      else
        var y := Value(g[2]);
        if y.None? then None
        else
          var second := (x.value % 16 * 16 + y.value / 4) % 256;
          if g[3] == '=' then Some([first as Byte, second as Byte])
          else
            var z := Value(g[3]);
            if z.None? then None
            else Some([first as Byte, second as Byte, ((y.value % 4 * 64 + z.value) % 256) as Byte])
  }

  function DecodePadded(text: string): Option<Bytes>
    decreases |text|
  {
    if text == "" then Some([])
    else if |text| < 4 then None
    else match DecodeGroup(text[..4])
      case None => None
      case Some(head) =>
        if |head| < 3 then (if |text| == 4 then Some(head) else None)
        else match DecodePadded(text[4..])
          case None => None
          case Some(tail) => Some(head + tail)
  }

  // ---------------------------------------------------------------- the cursor

  /** `rstrip("=")`. */
  function Strip(text: string): string
    decreases |text|
  {
    if text != "" && text[|text| - 1] == '=' then Strip(text[..|text| - 1]) else text
  }

  /** `-len % 4` padding characters. */
  function Pad(text: string): string {
    text + match |text| % 4 case 0 => "" case 1 => "===" case 2 => "==" case _ => "="
  }

  function EncodeCursor(key: Bytes): string { Strip(EncodePadded(key)) }

  function DecodeCursor(cursor: string): Option<Bytes> { DecodePadded(Pad(cursor)) }

  /** What four symbols, or two or three with padding, decode to. */
  lemma SymbolsDecode(w: nat, x: nat, y: nat, z: nat)
    requires w < 64 && x < 64 && y < 64 && z < 64
    ensures var a, b, c := (w * 4 + x / 16) % 256, (x % 16 * 16 + y / 4) % 256, (y % 4 * 64 + z) % 256;
            && DecodeGroup([Symbol(w), Symbol(x), Symbol(y), Symbol(z)]) == Some([a as Byte, b as Byte, c as Byte])
            && DecodeGroup([Symbol(w), Symbol(x), Symbol(y)] + "=") == Some([a as Byte, b as Byte])
            && DecodeGroup([Symbol(w), Symbol(x)] + "==") == Some([a as Byte])
  {
    hide Symbol, Value;
    SymbolsAreDistinct(w);
    SymbolsAreDistinct(x);
    SymbolsAreDistinct(y);
    SymbolsAreDistinct(z);
  }

  /** Splitting three bytes over four symbols and joining them again. */
  lemma SixBits(a: int, b: int, c: int)
    requires 0 <= a < 256 && 0 <= b < 256 && 0 <= c < 256
    ensures var w, x, y, z := a / 4, a % 4 * 16 + b / 16, b % 16 * 4 + c / 64, c % 64;
            && 0 <= w < 64 && 0 <= x < 64 && 0 <= y < 64 && 0 <= z < 64
            && (w * 4 + x / 16) % 256 == a && (x % 16 * 16 + y / 4) % 256 == b && (y % 4 * 64 + z) % 256 == c
  {
    assert (a % 4 * 16 + b / 16) / 16 == a % 4 && (a % 4 * 16 + b / 16) % 16 == b / 16;
    assert (b % 16 * 4 + c / 64) / 4 == b % 16 && (b % 16 * 4 + c / 64) % 4 == c / 64;
  }

  lemma GroupDecodes(a: int, b: int, c: int)
    requires 0 <= a < 256 && 0 <= b < 256 && 0 <= c < 256
    ensures DecodeGroup(Group(a, b, c)) == Some([a as Byte, b as Byte, c as Byte])
    ensures c == 0 ==> DecodeGroup(Group(a, b, c)[..3] + "=") == Some([a as Byte, b as Byte])
    ensures b == 0 ==> DecodeGroup(Group(a, b, c)[..2] + "==") == Some([a as Byte])
    ensures forall i :: 0 <= i < 4 ==> Group(a, b, c)[i] != '='
  {
    hide DecodeGroup, Symbol, Value;
    SixBits(a, b, c);
    var w, x, y, z := a / 4, a % 4 * 16 + b / 16, b % 16 * 4 + c / 64, c % 64;
    SymbolsDecode(w, x, y, z);
    NoPadding(w, x, y, z);
    assert Group(a, b, c) == [Symbol(w), Symbol(x), Symbol(y), Symbol(z)];
    hide Group;
    assert [Symbol(w), Symbol(x), Symbol(y), Symbol(z)][..3] == [Symbol(w), Symbol(x), Symbol(y)];
    assert [Symbol(w), Symbol(x), Symbol(y), Symbol(z)][..2] == [Symbol(w), Symbol(x)];
  }

  lemma NoPadding(w: nat, x: nat, y: nat, z: nat)
    requires w < 64 && x < 64 && y < 64 && z < 64
    ensures forall i :: 0 <= i < 4 ==> [Symbol(w), Symbol(x), Symbol(y), Symbol(z)][i] != '='
  {
    SymbolsAreDistinct(w);
    SymbolsAreDistinct(x);
    SymbolsAreDistinct(y);
    SymbolsAreDistinct(z);
    hide Symbol, Value;
  }

  /** The last group of one or two bytes. */
  lemma ShortGroups(a: Byte, b: Byte)
    ensures DecodePadded(Group(a as int, 0, 0)[..2] + "==") == Some([a])
    ensures DecodePadded(Group(a as int, b as int, 0)[..3] + "=") == Some([a, b])
  {
    GroupDecodes(a as int, 0, 0);
    GroupDecodes(a as int, b as int, 0);
    var one, two := Group(a as int, 0, 0)[..2] + "==", Group(a as int, b as int, 0)[..3] + "=";
    assert one[..4] == one && two[..4] == two;
    hide Group, DecodeGroup;
  }

  /** A full group in front of a text that decodes. */
  lemma FullGroup(a: Byte, b: Byte, c: Byte, text: string)
    requires DecodePadded(text).Some?
    ensures DecodePadded(Group(a as int, b as int, c as int) + text) == Some([a, b, c] + DecodePadded(text).value)
  {
    GroupDecodes(a as int, b as int, c as int);
    var group := Group(a as int, b as int, c as int);
    assert |group| == 4;
    hide Group, DecodeGroup;
    assert (group + text)[..4] == group && (group + text)[4..] == text;
  }

  lemma {:induction false} PaddedRoundTrip(bytes: Bytes)
    ensures DecodePadded(EncodePadded(bytes)) == Some(bytes) && |EncodePadded(bytes)| % 4 == 0
    decreases |bytes|
  {
    hide DecodePadded, EncodePadded, Group;
    EncodesAs(bytes);
    if |bytes| == 0 {
      EmptyDecodes();
    } else if |bytes| == 1 {
      ShortGroups(bytes[0], 0);
      assert bytes == [bytes[0]];
    } else if |bytes| == 2 {
      ShortGroups(bytes[0], bytes[1]);
      assert bytes == [bytes[0], bytes[1]];
    } else {
      PaddedRoundTrip(bytes[3..]);
      FullGroup(bytes[0], bytes[1], bytes[2], EncodePadded(bytes[3..]));
      assert bytes == [bytes[0], bytes[1], bytes[2]] + bytes[3..];
    }
  }

  /** The first group of an encoding, and what follows it. */
  lemma EncodesAs(bytes: Bytes)
    ensures |bytes| == 0 ==> EncodePadded(bytes) == ""
    ensures |bytes| == 1 ==> EncodePadded(bytes) == Group(bytes[0] as int, 0, 0)[..2] + "==" && |EncodePadded(bytes)| == 4
    ensures |bytes| == 2 ==> EncodePadded(bytes) == Group(bytes[0] as int, bytes[1] as int, 0)[..3] + "=" && |EncodePadded(bytes)| == 4
    ensures |bytes| >= 3 ==>
              && EncodePadded(bytes) == Group(bytes[0] as int, bytes[1] as int, bytes[2] as int) + EncodePadded(bytes[3..])
              && |EncodePadded(bytes)| == 4 + |EncodePadded(bytes[3..])|
  {
    hide Symbol;
  }

  lemma EmptyDecodes()
    ensures DecodePadded("") == Some([])
  {
  }

  lemma {:induction false} StripBehind(head: string, tail: string)
    requires head != "" && head[|head| - 1] != '='
    ensures Strip(head + tail) == head + Strip(tail)
    decreases |tail|
  {
    if tail == "" {
      assert head + tail == head;
    } else {
      var text := head + tail;
      assert text[|text| - 1] == tail[|tail| - 1];
      if tail[|tail| - 1] == '=' {
        assert text[..|text| - 1] == head + tail[..|tail| - 1];
        StripBehind(head, tail[..|tail| - 1]);
      }
    }
  }

  /** Padding restores exactly what was stripped. */
  lemma {:induction false} PadRestores(bytes: Bytes)
    ensures Pad(Strip(EncodePadded(bytes))) == EncodePadded(bytes)
    ensures bytes != [] ==> Strip(EncodePadded(bytes)) != ""
    decreases |bytes|
  {
    if |bytes| == 1 {
      var head := Group(bytes[0] as int, 0, 0)[..2];
      GroupDecodes(bytes[0] as int, 0, 0);
      StripBehind(head, "==");
      assert Strip("==") == "" by { assert "=="[..1] == "=" && "="[..0] == ""; }
    } else if |bytes| == 2 {
      var head := Group(bytes[0] as int, bytes[1] as int, 0)[..3];
      GroupDecodes(bytes[0] as int, bytes[1] as int, 0);
      StripBehind(head, "=");
      assert Strip("=") == "" by { assert "="[..0] == ""; }
    } else if |bytes| > 2 {
      var group := Group(bytes[0] as int, bytes[1] as int, bytes[2] as int);
      GroupDecodes(bytes[0] as int, bytes[1] as int, bytes[2] as int);
      StripBehind(group, EncodePadded(bytes[3..]));
      PadRestores(bytes[3..]);
      PadBehind(group, Strip(EncodePadded(bytes[3..])));
    }
  }

  lemma PadBehind(group: string, rest: string)
    requires |group| == 4
    ensures Pad(group + rest) == group + Pad(rest)
  {
    assert |group + rest| % 4 == |rest| % 4;
  }

  /** A cursor decodes to the key it was made from, and a cursor of a non-empty key is not the empty text. */
  lemma CursorRoundTrip(key: Bytes)
    ensures DecodeCursor(EncodeCursor(key)) == Some(key)
    ensures key != [] ==> EncodeCursor(key) != ""
  {
    PaddedRoundTrip(key);
    PadRestores(key);
  }
}
