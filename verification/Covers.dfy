/** Cover art addresses: percent-encoding of a path segment, section 2.1 of RFC 3986. */
module Covers {
  import opened Base

  const THUMBNAIL_BASE := "https://thumbnails.libretro.com"

  /** Section 2.3 of RFC 3986. */
  predicate Unreserved(c: char) {
    'A' <= c <= 'Z' || 'a' <= c <= 'z' || '0' <= c <= '9' || c == '-' || c == '_' || c == '.' || c == '~'
  }

  function Hex(d: int): char
    requires 0 <= d < 16
  {
    if d < 10 then ('0' as int + d) as char else ('A' as int + d - 10) as char
  }

  predicate IsHex(c: char) { '0' <= c <= '9' || 'A' <= c <= 'F' }

  function Triplet(b: Byte): string { ['%', Hex(b / 16), Hex(b % 16)] }

  function EncodedByte(b: Byte): string { if Unreserved(b as char) then [b as char] else Triplet(b) }

  function Encoded(s: Bytes): string { if s == [] then "" else EncodedByte(s[0]) + Encoded(s[1..]) }

  function HexValue(c: char): Option<int> {
    if '0' <= c <= '9' then Some(c as int - '0' as int)
    else if 'A' <= c <= 'F' then Some(c as int - 'A' as int + 10)
    else if 'a' <= c <= 'f' then Some(c as int - 'a' as int + 10)
    else None
  }

  /** The reader's side: what a server makes of a path segment. */
  function Decoded(s: string): Option<Bytes> {
    if s == "" then Some([])
    else if s[0] == '%' then
      if |s| >= 3 && HexValue(s[1]).Some? && HexValue(s[2]).Some? then
        var rest := Decoded(s[3..]);
        if rest.Some? then Some([HexValue(s[1]).value * 16 + HexValue(s[2]).value] + rest.value) else None
      else None
    else if s[0] as int < 256 then
      var rest := Decoded(s[1..]);
      if rest.Some? then Some([s[0] as int] + rest.value) else None
    else None
  }

  /** Normal form: only unreserved characters and upper-case triplets of other bytes. */
  predicate Normal(s: string) {
    if s == "" then true
    else if s[0] == '%' then
      && |s| >= 3 && IsHex(s[1]) && IsHex(s[2])
      && !Unreserved((HexValue(s[1]).value * 16 + HexValue(s[2]).value) as char)
      && Normal(s[3..])
    else Unreserved(s[0]) && Normal(s[1..])
  }

  lemma HexReadsBack(d: int)
    requires 0 <= d < 16
    ensures HexValue(Hex(d)) == Some(d) && IsHex(Hex(d)) && Hex(d) != '%'
  {
  }

  lemma ReadsPlain(c: char, rest: string)
    requires Unreserved(c) && Decoded(rest).Some? && Normal(rest)
    ensures Decoded([c] + rest) == Some([c as int] + Decoded(rest).value) && Normal([c] + rest)
  {
    var s := [c] + rest;
    assert s[0] == c && s[1..] == rest;
  }

  lemma ReadsTriplet(hi: int, lo: int, rest: string)
    requires 0 <= hi < 16 && 0 <= lo < 16 && !Unreserved((hi * 16 + lo) as char)
    requires Decoded(rest).Some? && Normal(rest)
    ensures var s := ['%', Hex(hi), Hex(lo)] + rest;
      Decoded(s) == Some([hi * 16 + lo] + Decoded(rest).value) && Normal(s)
  {
    var s := ['%', Hex(hi), Hex(lo)] + rest;
    HexReadsBack(hi);
    HexReadsBack(lo);
    assert s[0] == '%' && s[1] == Hex(hi) && s[2] == Hex(lo) && s[3..] == rest;
  }

  /** Reading one encoded byte off the front of a text. */
  lemma ReadsByte(b: Byte, rest: string)
    requires Decoded(rest).Some? && Normal(rest)
    ensures Decoded(EncodedByte(b) + rest) == Some([b] + Decoded(rest).value)
    ensures Normal(EncodedByte(b) + rest)
  {
    if Unreserved(b as char) {
      ReadsPlain(b as char, rest);
    } else {
      assert b / 16 * 16 + b % 16 == b;
      ReadsTriplet(b / 16, b % 16, rest);
    }
  }

  /** Encoding loses nothing, whatever the bytes, and its output is in normal form. */
  lemma {:induction false} RoundTrip(s: Bytes)
    ensures Decoded(Encoded(s)) == Some(s)
    ensures Normal(Encoded(s))
  {
    if s != [] {
      RoundTrip(s[1..]);
      ReadsByte(s[0], Encoded(s[1..]));
      assert s == [s[0]] + s[1..];
    }
  }

  /** The bytes a nonempty normal text starts with, and the text after their encoding. */
  lemma NormalHead(s: string) returns (b: Byte, rest: string)
    requires Normal(s) && s != ""
    ensures s == EncodedByte(b) + rest && |rest| < |s| && Normal(rest)
  {
    if s[0] == '%' {
      var hi, lo := HexValue(s[1]).value, HexValue(s[2]).value;
      b, rest := hi * 16 + lo, s[3..];
      assert b / 16 == hi && b % 16 == lo;
      assert EncodedByte(b) == [s[0], s[1], s[2]];
    } else {
      b, rest := s[0] as int, s[1..];
    }
  }

  /** Each normal text is the encoding of what it decodes to: nothing else encodes those bytes. */
  lemma {:induction false} NormalIsEncoded(s: string)
    requires Normal(s)
    ensures Decoded(s).Some? && Encoded(Decoded(s).value) == s
    decreases |s|
  {
    if s != "" {
      var b, rest := NormalHead(s);
      NormalIsEncoded(rest);
      ReadsByte(b, rest);
      var bytes := Decoded(rest).value;
      assert ([b] + bytes)[1..] == bytes;
    }
  }

  /** No encoded text contains a path separator. */
  lemma {:induction false} NoSlash(s: Bytes)
    ensures '/' !in Encoded(s)
  {
    if s != [] {
      NoSlash(s[1..]);
    }
  }

  /** One arm of the encoder for each byte it lists. */
  method EncodeByte(byte: Byte) returns (piece: string)
    ensures piece == EncodedByte(byte)
  {
    var c := byte as char;
    if c == ' ' { piece := "%20"; }
    else if c == '(' { piece := "%28"; }
    else if c == ')' { piece := "%29"; }
    else if c == '&' { piece := "%26"; }
    else if c == '\'' { piece := "%27"; }
    else if c == '#' { piece := "%23"; }
    else if c == '+' { piece := "%2B"; }
    else if c == ',' { piece := "%2C"; }
    else if c == ':' { piece := "%3A"; }
    else if c == '!' { piece := "%21"; }
    else if 'A' <= c <= 'Z' || 'a' <= c <= 'z' || '0' <= c <= '9' || c == '-' || c == '_' || c == '.' || c == '~' {
      piece := [c];
    } else {
      piece := ['%', Hex(byte / 16), Hex(byte % 16)];
    }
  }

  method UrlEncoding(s: Bytes) returns (out: string)
    ensures out == Encoded(s)
  {
    out := "";
    var i := 0;
    while i < |s|
      invariant 0 <= i <= |s|
      invariant out + Encoded(s[i..]) == Encoded(s)
    {
      var piece := EncodeByte(s[i]);
      assert s[i..][1..] == s[i + 1..];
      assert out + (piece + Encoded(s[i + 1..])) == (out + piece) + Encoded(s[i + 1..]);
      out := out + piece;
      i := i + 1;
    }
  }

  function ThumbnailPath(name: Bytes): string { "Named_Boxarts/" + Encoded(name) + ".png" }

  function ThumbnailUrl(folder: Bytes, name: Bytes): string {
    THUMBNAIL_BASE + "/" + Encoded(folder) + "/" + ThumbnailPath(name)
  }

  /** `folder` is the platform's folder, already looked up. */
  method BuildThumbnailUrl(folder: Bytes, name: Bytes) returns (url: string)
    ensures url == ThumbnailUrl(folder, name)
  {
    var platform := UrlEncoding(folder);
    var encoded := UrlEncoding(name);
    url := THUMBNAIL_BASE + "/" + platform + "/" + ("Named_Boxarts/" + encoded + ".png");
  }

  lemma FirstSlash(x: string, p: string, y: string, q: string)
    requires '/' !in x && '/' !in y && x + "/" + p == y + "/" + q
    ensures x == y && p == q
  {
    var s := x + "/" + p;
    assert s[|x|] == '/';
    assert s == y + "/" + q && s[|y|] == '/';
    assert forall i :: 0 <= i < |x| ==> s[i] == x[i];
    assert forall i :: 0 <= i < |y| ==> s[i] == y[i];
    assert x == s[..|x|] && y == s[..|y|];
    assert p == s[|x| + 1..] && q == s[|y| + 1..];
  }

  lemma Inner(before: string, x: string, y: string, after: string)
    requires before + x + after == before + y + after
    ensures x == y
  {
    var s, n := before + x + after, |before|;
    assert |x| == |y|;
    assert x == s[n..n + |x|];
    assert y == (before + y + after)[n..n + |x|];
  }

  lemma After(before: string, x: string, y: string)
    requires before + x == before + y
    ensures x == y
  {
    assert x == (before + x)[|before|..];
    assert y == (before + y)[|before|..];
  }

  lemma EncodedIsInjective(s: Bytes, t: Bytes)
    requires Encoded(s) == Encoded(t)
    ensures s == t
  {
    RoundTrip(s);
    RoundTrip(t);
  }

  lemma SplitUrl(base: string, x: string, p: string, y: string, q: string, folder: Bytes, folder': Bytes)
    requires x == Encoded(folder) && y == Encoded(folder')
    requires base + "/" + x + "/" + p == base + "/" + y + "/" + q
    ensures x == y && p == q
  {
    assert base + "/" + x + "/" + p == base + "/" + (x + "/" + p);
    assert base + "/" + y + "/" + q == base + "/" + (y + "/" + q);
    After(base + "/", x + "/" + p, y + "/" + q);
    NoSlash(folder);
    NoSlash(folder');
    FirstSlash(x, p, y, q);
  }

  /** Different folders or names never share an address. */
  lemma UrlsAreDistinct(folder: Bytes, name: Bytes, folder': Bytes, name': Bytes)
    requires ThumbnailUrl(folder, name) == ThumbnailUrl(folder', name')
    ensures folder == folder' && name == name'
  {
    SplitUrl(THUMBNAIL_BASE, Encoded(folder), ThumbnailPath(name), Encoded(folder'), ThumbnailPath(name'),
             folder, folder');
    Inner("Named_Boxarts/", Encoded(name), Encoded(name'), ".png");
    EncodedIsInjective(folder, folder');
    EncodedIsInjective(name, name');
  }

  // ── Reading an address ─────────────────────────────────────────────

  /** The text up to the first slash, and the rest after it. */
  function FirstSegment(s: string): string {
    if s == "" || s[0] == '/' then "" else [s[0]] + FirstSegment(s[1..])
  }

  lemma {:induction false} SegmentEnds(x: string, rest: string)
    requires '/' !in x
    ensures FirstSegment(x + "/" + rest) == x
  {
    if x == "" {
      assert x + "/" + rest == "/" + rest;
    } else {
      assert (x + "/" + rest)[0] == x[0];
      assert (x + "/" + rest)[1..] == x[1..] + "/" + rest;
      SegmentEnds(x[1..], rest);
    }
  }

  /** A server that splits the path after the base finds the folder, the directory of box arts
      and the file, in this order, and decodes folder and name to the bytes given. */
  lemma AddressReadsBack(folder: Bytes, name: Bytes)
    ensures |THUMBNAIL_BASE| + 1 <= |ThumbnailUrl(folder, name)|
    ensures var path := ThumbnailUrl(folder, name)[|THUMBNAIL_BASE| + 1..];
      var first := FirstSegment(path);
      && Decoded(first) == Some(folder) && |first| + 1 <= |path|
      && var rest := path[|first| + 1..];
      && FirstSegment(rest) == "Named_Boxarts" && |rest| >= 18
      && var file := rest[14..];
      && '/' !in file && file[|file| - 4..] == ".png" && Decoded(file[..|file| - 4]) == Some(name)
  {
    var x, y := Encoded(folder), Encoded(name);
    NoSlash(folder);
    NoSlash(name);
    RoundTrip(folder);
    RoundTrip(name);
    PathAfterBase(THUMBNAIL_BASE, x, ThumbnailPath(name));
    SegmentEnds(x, ThumbnailPath(name));
    FilePart(y);
  }

  lemma PathAfterBase(base: string, x: string, p: string)
    ensures (base + "/" + x + "/" + p)[|base| + 1..] == x + "/" + p
    ensures (x + "/" + p)[|x| + 1..] == p
  {
  }

  lemma FilePart(y: string)
    requires '/' !in y
    ensures var rest := "Named_Boxarts/" + y + ".png";
      && FirstSegment(rest) == "Named_Boxarts" && |rest| == |y| + 18
      && rest[14..] == y + ".png" && '/' !in y + ".png"
      && (y + ".png")[|y|..] == ".png" && (y + ".png")[..|y|] == y
  {
    var dir := "Named_Boxarts";
    SegmentEnds(dir, y + ".png");
    assert "Named_Boxarts/" + y + ".png" == dir + "/" + (y + ".png");
  }
}
