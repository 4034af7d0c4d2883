/**
 * The file-name logic the two image-upload handlers share: the extension is the second
 * dot-separated segment of the client's file name and must be exactly "png" or "jpg"; the
 * stored name is twenty random lower-case hex characters, a dot and that extension.
 */
module Uploads {
  import opened Outcomes

  const AllowedExtensions: seq<string> := ["png", "jpg"]
  const ExtensionRefused: string := "File extension not allowed"

  /** Python's `s.split(sep)` for a one-character separator: every separator cuts, so the
      result has one more segment than `s` has separators, and no segment holds one. */
  function Split(s: string, sep: char): (parts: seq<string>)
    ensures |parts| >= 1
    ensures |parts| == 1 <==> sep !in s
    ensures forall i :: 0 <= i < |parts| ==> sep !in parts[i]
  {
    if s == [] then [""]
    else
      var rest := Split(s[1..], sep);
      if s[0] == sep then [""] + rest
      else [[s[0]] + rest[0]] + rest[1..]
  }

  /** Python's `sep.join(parts)`. */
  function Join(parts: seq<string>, sep: char): string {
    if |parts| == 0 then ""
    else if |parts| == 1 then parts[0]
    else parts[0] + [sep] + Join(parts[1..], sep)
  }

  /** Joining the segments back with the separator gives the original string. */
  lemma {:induction false} JoinSplit(s: string, sep: char)
    ensures Join(Split(s, sep), sep) == s
  {
    if s != [] {
      var rest := Split(s[1..], sep);
      JoinSplit(s[1..], sep);
      if s[0] != sep && |rest| > 1 {
        assert Join(rest, sep) == rest[0] + [sep] + Join(rest[1..], sep);
        assert Split(s, sep)[1..] == rest[1..];
      }
    }
  }

  /** A string without the separator is a single segment. */
  lemma {:induction false} SplitNoSeparator(w: string, sep: char)
    requires sep !in w
    ensures Split(w, sep) == [w]
  {
    if w != [] {
      SplitNoSeparator(w[1..], sep);
      assert [w[0]] + w[1..] == w;
    }
  }

  /** Splitting at the first separator: the part before it is the first segment. */
  lemma {:induction false} SplitAtFirst(w: string, tail: string, sep: char)
    requires sep !in w
    ensures Split(w + [sep] + tail, sep) == [w] + Split(tail, sep)
  {
    var s := w + [sep] + tail;
    if w == [] {
      assert s[1..] == tail;
    } else {
      assert s[1..] == w[1..] + [sep] + tail;
      SplitAtFirst(w[1..], tail, sep);
      assert [w[0]] + w[1..] == w;
    }
  }

  /** Splitting a join of separator-free segments gives the segments back. */
  lemma {:induction false} SplitJoin(parts: seq<string>, sep: char)
    requires |parts| >= 1
    requires forall i :: 0 <= i < |parts| ==> sep !in parts[i]
    ensures Split(Join(parts, sep), sep) == parts
  {
    if |parts| == 1 {
      SplitNoSeparator(parts[0], sep);
    } else {
      SplitJoin(parts[1..], sep);
      SplitAtFirst(parts[0], Join(parts[1..], sep), sep);
      assert [parts[0]] + parts[1..] == parts;
    }
  }

  /** The first segment is everything up to the first separator, or the whole string. */
  lemma SplitHead(t: string, j: nat, sep: char)
    requires j <= |t| && sep !in t[..j]
    requires j == |t| || t[j] == sep
    ensures Split(t, sep)[0] == t[..j]
  {
    if j == |t| {
      assert t[..j] == t;
      SplitNoSeparator(t, sep);
    } else {
      assert t == t[..j] + [sep] + t[j + 1..];
      SplitAtFirst(t[..j], t[j + 1..], sep);
    }
  }

  /** The extension check of both upload handlers: `filename.split(".")[1]` must be one of the
      allowed extensions. A name without a dot has no second segment and the indexing raises. */
  function UploadExtension(filename: string): (r: Reply<string>)
    ensures r.Crash? <==> '.' !in filename
    ensures r.Ok? ==> r.data in AllowedExtensions && r.data == Split(filename, '.')[1]
    ensures r.Ok? || r.Crash? || r == StatusError(Some(ExtensionRefused))
  {
    var parts := Split(filename, '.');
    if |parts| < 2 then Crash
    else if parts[1] in AllowedExtensions then Ok(parts[1])
    else StatusError(Some(ExtensionRefused))
  }

  /** The extension is exactly the text between the first dot and the next dot (or the end of
      the name); it is accepted exactly when that text is "png" or "jpg". Anything after a
      second dot is ignored. */
  lemma ExtensionIsSecondSegment(filename: string, i: nat, j: nat)
    requires i < j <= |filename| && filename[i] == '.' && '.' !in filename[..i]
    requires '.' !in filename[i + 1..j] && (j == |filename| || filename[j] == '.')
    ensures UploadExtension(filename) ==
      if filename[i + 1..j] in AllowedExtensions then Ok(filename[i + 1..j])
      else StatusError(Some(ExtensionRefused))
  {
    var tail := filename[i + 1..];
    assert filename == filename[..i] + ['.'] + tail;
    SplitAtFirst(filename[..i], tail, '.');
    assert tail[..j - i - 1] == filename[i + 1..j];
    SplitHead(tail, j - i - 1, '.');
  }

  /** A name of the form `w.ext.rest`, with no dot in `w` or `ext`, is checked on `ext` alone. */
  lemma ExtensionBetweenDots(w: string, ext: string, rest: string)
    requires '.' !in w && '.' !in ext
    ensures UploadExtension(w + "." + ext + "." + rest) ==
      if ext in AllowedExtensions then Ok(ext) else StatusError(Some(ExtensionRefused))
  {
    var f := w + "." + ext + "." + rest;
    assert f[..|w|] == w;
    assert f[|w| + 1..|w| + 1 + |ext|] == ext;
    ExtensionIsSecondSegment(f, |w|, |w| + 1 + |ext|);
  }

  /** "a.png.exe" passes as "png": anything after a second dot is ignored. */
  lemma ExtensionIgnoresLaterDots()
    ensures UploadExtension("a.png.exe") == Ok("png")
  {
    assert "a.png.exe" == "a" + "." + "png" + "." + "exe";
    ExtensionBetweenDots("a", "png", "exe");
  }

  /** "a.PNG" is refused: the comparison is case-sensitive. */
  lemma ExtensionIsCaseSensitive()
    ensures UploadExtension("a.PNG") == StatusError(Some(ExtensionRefused))
  {
    var f := "a.PNG";
    assert f[..1] == "a" && f[2..5] == "PNG";
    assert "PNG" != "png" && "PNG" != "jpg";
    ExtensionIsSecondSegment(f, 1, 5);
  }

  /** A byte drawn by `secrets.token_hex`. */
  type Byte = x: int | 0 <= x < 256

  /** A lower-case hex digit, as `token_hex` writes them. */
  predicate IsHexDigit(c: char) {
    '0' <= c <= '9' || 'a' <= c <= 'f'
  }

  /** The value of one hex digit. */
  function HexValue(c: char): (v: nat)
    requires IsHexDigit(c)
    ensures v < 16
  {
    if c <= '9' then (c as int - '0' as int) as nat else (c as int - 'a' as int + 10) as nat
  }

  /** The digit that writes a value below sixteen; reading it back gives the value. */
  function HexDigit(v: nat): (c: char)
    requires v < 16
    ensures IsHexDigit(c) && HexValue(c) == v
  {
    if v < 10 then ('0' as int + v) as char else ('a' as int + v - 10) as char
  }

  /** `bytes.hex()`: two lower-case hex digits per byte, high half first. */
  function TokenHex(bytes: seq<Byte>): (hex: string)
    ensures |hex| == 2 * |bytes|
    ensures forall i :: 0 <= i < |hex| ==> IsHexDigit(hex[i])
  {
    if bytes == [] then ""
    else [HexDigit(bytes[0] / 16), HexDigit(bytes[0] % 16)] + TokenHex(bytes[1..])
  }

  /** Reads hex text back into bytes. */
  function HexDecode(hex: string): seq<Byte>
    requires |hex| % 2 == 0
    requires forall i :: 0 <= i < |hex| ==> IsHexDigit(hex[i])
  {
    if hex == [] then []
    else [HexValue(hex[0]) * 16 + HexValue(hex[1])] + HexDecode(hex[2..])
  }

  /** The hex text determines the bytes it was made from. */
  lemma {:induction false} HexRoundTrip(bytes: seq<Byte>)
    ensures HexDecode(TokenHex(bytes)) == bytes
  {
    if bytes != [] {
      var b := bytes[0];
      var hi, lo := b / 16, b % 16;
      assert hi * 16 + lo == b;
      var hex := TokenHex(bytes);
      assert hex[2..] == TokenHex(bytes[1..]);
      HexRoundTrip(bytes[1..]);
      assert HexDecode(hex) == [b] + bytes[1..];
    }
  }

  /** `secrets.token_hex(10) + "." + extension`, from the ten random bytes the call draws. */
  function StoredName(random: seq<Byte>, ext: string): (name: string)
    requires |random| == 10
    ensures |name| == 21 + |ext| && name[20] == '.' && name[21..] == ext
    ensures forall i :: 0 <= i < 20 ==> IsHexDigit(name[i])
  {
    TokenHex(random) + "." + ext
  }

  /** The stored name passes the same extension check with the same extension, and its first
      twenty characters are the hex text of the random bytes. */
  lemma StoredNameRoundTrip(random: seq<Byte>, ext: string)
    requires |random| == 10 && ext in AllowedExtensions
    ensures UploadExtension(StoredName(random, ext)) == Ok(ext)
    ensures HexDecode(StoredName(random, ext)[..20]) == random
  {
    var name := StoredName(random, ext);
    assert '.' !in ext;
    assert '.' !in name[..20];
    assert name[21..|name|] == ext;
    ExtensionIsSecondSegment(name, 20, |name|);
    assert name[..20] == TokenHex(random);
    HexRoundTrip(random);
  }
}
