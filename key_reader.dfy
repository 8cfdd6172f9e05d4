/**
 * The decoding half of the non-blocking key reader. The terminal calls
 * (kbhit, getch, select, stdin.read) are replaced by the bytes or characters
 * waiting to be read: an empty buffer is "no key available".
 */
module KeyReader {
  import opened Wrappers
  import opened StratagemCode

  newtype byte = x: int | 0 <= x < 256

  /** The first byte Windows' getch() returns for an extended key (arrows, function keys). */
  predicate IsExtendedPrefix(b: byte)
  {
    b == 0x00 || b == 0xE0
  }

  /** The arrow map for the byte after an extended prefix: H, P, K, M. */
  function ArrowKeyName(next: byte): (name: Option<string>)
    ensures name.Some? ==> name.value in {"UP", "DOWN", "LEFT", "RIGHT"}
    ensures name.Some? ==> |name.value| > 1
  {
    if next == 0x48 then Some("UP")
    else if next == 0x50 then Some("DOWN")
    else if next == 0x4B then Some("LEFT")
    else if next == 0x4D then Some("RIGHT")
    else None
  }

  /** The byte that follows the extended prefix when the arrow key for `d` is pressed. */
  function ScanCode(d: Direction): byte
  {
    match d
    case Up => 0x48
    case Down => 0x50
    case Left => 0x4B
    case Right => 0x4D
  }

  /** The arrow map names exactly the four scan codes, each with its direction's token. */
  lemma ArrowKeyNameExactly(next: byte)
    ensures ArrowKeyName(next).Some? <==> exists d :: ScanCode(d) == next
    ensures forall d :: ScanCode(d) == next ==> ArrowKeyName(next) == Some(Token(d))
  {
    if next == 0x48 { assert ScanCode(Up) == next; }
    if next == 0x50 { assert ScanCode(Down) == next; }
    if next == 0x4B { assert ScanCode(Left) == next; }
    if next == 0x4D { assert ScanCode(Right) == next; }
  }

  function HexDigit(n: int): char
    requires 0 <= n < 16
  {
    if n < 10 then ('0' as int + n) as char else ('a' as int + n - 10) as char
  }

  function HexDigitValue(ch: char): Option<int>
  {
    if '0' <= ch <= '9' then Some(ch as int - '0' as int)
    else if 'a' <= ch <= 'f' then Some(ch as int - 'a' as int + 10)
    else None
  }

  /** `bytes.hex()` of one byte: two lower-case hexadecimal digits. */
  function Hex(b: byte): (h: string)
    ensures |h| == 2
  {
    [HexDigit(b as int / 16), HexDigit(b as int % 16)]
  }

  /** Reading two hexadecimal digits back into a byte. */
  function ParseHex(h: string): Option<byte>
  {
    if |h| != 2 then None
    else
      match (HexDigitValue(h[0]), HexDigitValue(h[1]))
      case (Some(hi), Some(lo)) => Some((hi * 16 + lo) as byte)
      case _ => None
  }

  lemma HexReadsBack(b: byte)
    ensures ParseHex(Hex(b)) == Some(b)
  {
    var hi, lo := b as int / 16, b as int % 16;
    assert HexDigitValue(HexDigit(hi)) == Some(hi);
    assert HexDigitValue(HexDigit(lo)) == Some(lo);
  }

  /** The marker returned for an extended key that is not an arrow: the second byte first, the prefix last. */
  function SpecialMarker(prefix: byte, next: byte): (m: string)
    ensures |m| == 17 && m[..11] == "<SPECIAL:0x" && m[13] == ':' && m[16] == '>'
    ensures m[11..13] == Hex(next) && m[14..16] == Hex(prefix)
  {
    "<SPECIAL:0x" + Hex(next) + ":" + Hex(prefix) + ">"
  }

  /** Reading a marker back into (second byte, prefix). */
  function ParseSpecialMarker(m: string): Option<(byte, byte)>
  {
    if |m| != 17 || m[..11] != "<SPECIAL:0x" || m[13] != ':' || m[16] != '>' then None
    else
      match (ParseHex(m[11..13]), ParseHex(m[14..16]))
      case (Some(next), Some(prefix)) => Some((next, prefix))
      case _ => None
  }

  /** A marker holds both bytes of the key: it can be read back, and it is never an arrow name. */
  lemma SpecialMarkerReadsBack(prefix: byte, next: byte)
    ensures ParseSpecialMarker(SpecialMarker(prefix, next)) == Some((next, prefix))
    ensures |SpecialMarker(prefix, next)| == 17
  {
    var m := SpecialMarker(prefix, next);
    assert m[..11] == "<SPECIAL:0x";
    assert m[11..13] == Hex(next);
    assert m[14..16] == Hex(prefix);
    HexReadsBack(next);
    HexReadsBack(prefix);
  }

  /** `bytes([b]).decode('utf-8', errors='ignore')`: a lone byte is text only when it is ASCII. */
  function DecodeByte(b: byte): (text: string)
    ensures |text| <= 1
    ensures text != [] <==> b < 0x80
    ensures text != [] ==> text[0] as int == b as int
  {
    if b < 0x80 then [(b as int) as char] else ""
  }

  /** What one read_key call returns, and the input it leaves unread. */
  datatype KeyRead<T> = KeyRead(key: Option<string>, rest: seq<T>)

  /**
   * read_key on Windows. An empty buffer means kbhit() is false. An extended
   * prefix is always followed by its second byte (getch() waits for it).
   */
  function ReadKeyWindows(pending: seq<byte>): (r: KeyRead<byte>)
    requires |pending| == 1 ==> !IsExtendedPrefix(pending[0])
    ensures r.key == None <==> pending == []
    ensures pending == [] ==> r.rest == []
    ensures pending != [] ==> r.rest == pending[if IsExtendedPrefix(pending[0]) then 2 else 1..]
  {
    if pending == [] then KeyRead(None, [])
    else if IsExtendedPrefix(pending[0]) then
      var prefix, next := pending[0], pending[1];
      match ArrowKeyName(next)
      case Some(name) => KeyRead(Some(name), pending[2..])
      case None => KeyRead(Some(SpecialMarker(prefix, next)), pending[2..])
    else KeyRead(Some(DecodeByte(pending[0])), pending[1..])
  }

  /** An arrow key, sent with either prefix, reads as its direction's token. */
  lemma WindowsArrowKey(prefix: byte, d: Direction, rest: seq<byte>)
    requires IsExtendedPrefix(prefix)
    ensures ReadKeyWindows([prefix, ScanCode(d)] + rest) == KeyRead(Some(Token(d)), rest)
  {
    assert ([prefix, ScanCode(d)] + rest)[2..] == rest;
  }

  /** Any other extended key reads as a marker that keeps both bytes. */
  lemma WindowsSpecialKey(prefix: byte, next: byte, rest: seq<byte>)
    requires IsExtendedPrefix(prefix) && ArrowKeyName(next) == None
    ensures var r := ReadKeyWindows([prefix, next] + rest);
      r.rest == rest && r.key.Some? && ParseSpecialMarker(r.key.value) == Some((next, prefix))
  {
    assert ([prefix, next] + rest)[2..] == rest;
    SpecialMarkerReadsBack(prefix, next);
  }

  /** A plain byte reads as itself when ASCII and as the empty (falsy) string otherwise. */
  lemma WindowsPlainByte(b: byte, rest: seq<byte>)
    requires !IsExtendedPrefix(b)
    ensures var r := ReadKeyWindows([b] + rest);
      r.rest == rest && r.key.Some? && (r.key.value == "" <==> b >= 0x80)
      && (b < 0x80 ==> r.key.value == [(b as int) as char])
  {
    assert ([b] + rest)[1..] == rest;
  }

  /** read_key on Linux: one character of standard input, or None when nothing is waiting. */
  function ReadKeyLinux(pending: string): (r: KeyRead<char>)
    ensures r.key == None <==> pending == []
    ensures r.key.Some? ==> |r.key.value| == 1 && r.key.value[0] == pending[0] && r.rest == pending[1..]
  {
    if pending == [] then KeyRead(None, []) else KeyRead(Some([pending[0]]), pending[1..])
  }

  /** A buffer in which no extended prefix is missing its second byte. */
  predicate WholeKeys(pending: seq<byte>)
    decreases |pending|
  {
    pending == []
    || (IsExtendedPrefix(pending[0]) && |pending| >= 2 && WholeKeys(pending[2..]))
    || (!IsExtendedPrefix(pending[0]) && WholeKeys(pending[1..]))
  }

  /** Calling read_key on Windows until the buffer is drained: the keys, in order. */
  function ReadAllWindows(pending: seq<byte>): seq<Option<string>>
    requires WholeKeys(pending)
    decreases |pending|
  {
    if pending == [] then []
    else
      var r := ReadKeyWindows(pending);
      [r.key] + ReadAllWindows(r.rest)
  }

  /** Calling read_key on Linux until the buffer is drained. */
  function ReadAllLinux(pending: string): (keys: seq<Option<string>>)
    ensures |keys| == |pending|
    decreases |pending|
  {
    if pending == [] then []
    else
      var r := ReadKeyLinux(pending);
      [r.key] + ReadAllLinux(r.rest)
  }

  /** The bytes Windows delivers when the arrow keys for `ds` are pressed in order. */
  function ArrowKeystrokes(ds: seq<Direction>): (bytes: seq<byte>)
    ensures WholeKeys(bytes)
  {
    if ds == [] then [] else [0xE0, ScanCode(ds[0])] + ArrowKeystrokes(ds[1..])
  }

  /** Pressing arrow keys on Windows reads back as one token per key, in order. */
  lemma {:induction false} ArrowKeystrokesRead(ds: seq<Direction>)
    ensures |ReadAllWindows(ArrowKeystrokes(ds))| == |ds|
    ensures forall i :: 0 <= i < |ds| ==> ReadAllWindows(ArrowKeystrokes(ds))[i] == Some(Token(ds[i]))
    decreases |ds|
  {
    if ds != [] {
      var bytes := ArrowKeystrokes(ds);
      ArrowKeystrokesRead(ds[1..]);
      WindowsArrowKey(0xE0, ds[0], ArrowKeystrokes(ds[1..]));
      assert bytes[2..] == ArrowKeystrokes(ds[1..]);
    }
  }

  /** Each character on Linux is read as a key of its own. */
  lemma {:induction false} LinuxReadsCharacters(text: string)
    ensures forall i :: 0 <= i < |text| ==> ReadAllLinux(text)[i] == Some([text[i]])
    decreases |text|
  {
    if text != [] {
      LinuxReadsCharacters(text[1..]);
    }
  }
}
