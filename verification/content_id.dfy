// Content ids: how a digest and a page become one string, and how the string is read back
// (src/cache_reader.cpp, src/store.cpp and the key printers of src/uri.cpp).
module ContentId {
  import opened Wrappers
  import opened Decimals

  // ---- Digests in hex ----

  function HexChar(n: nat): (c: char)
    requires n < 16
    ensures HexNibble(c) == n
  {
    "0123456789abcdef"[n]
  }

  predicate AllHex(s: string) { forall k :: 0 <= k < |s| ==> HexNibble(s[k]) >= 0 }

  function Hex(d: seq<Byte>): (s: string)
    ensures |s| == 2 * |d|
  {
    if d == [] then "" else Hex(d[..|d| - 1]) + [HexChar(d[|d| - 1] / 16), HexChar(d[|d| - 1] % 16)]
  }

  method FormatHex(d: seq<Byte>) returns (s: string)
    ensures s == Hex(d)
  {
    s := "";
    for i := 0 to |d|
      invariant s == Hex(d[..i])
    {
      assert d[..i + 1][..i] == d[..i];
      s := s + [HexChar(d[i] / 16)] + [HexChar(d[i] % 16)];
    }
    assert d[..|d|] == d;
  }

  /** The bytes of an even number of hex digits. */
  function Unhex(s: string): (d: seq<Byte>)
    requires AllHex(s) && |s| % 2 == 0
    ensures |d| == |s| / 2
  {
    if s == "" then [] else Unhex(s[..|s| - 2]) + [HexNibble(s[|s| - 2]) * 16 + HexNibble(s[|s| - 1])]
  }

  lemma {:induction false} UnhexOfHex(d: seq<Byte>)
    ensures AllHex(Hex(d)) && Unhex(Hex(d)) == d
  {
    if d != [] {
      var front, last := d[..|d| - 1], d[|d| - 1];
      UnhexOfHex(front);
      HexStep(d, front, last);
      UnhexLast(Hex(front), front, last);
    }
  }

  lemma UnhexLast(hex: string, front: seq<Byte>, last: Byte)
    requires |hex| == 2 * |front| && AllHex(hex) && Unhex(hex) == front
    ensures var s := hex + [HexChar(last / 16), HexChar(last % 16)];
      AllHex(s) && Unhex(s) == front + [last]
  {
    UnhexTwo(hex, HexChar(last / 16), HexChar(last % 16));
    TwoNibbles(last);
  }

  lemma TwoNibbles(b: Byte)
    ensures HexNibble(HexChar(b / 16)) * 16 + HexNibble(HexChar(b % 16)) == b
  {
  }

  lemma HexStep(d: seq<Byte>, front: seq<Byte>, last: Byte)
    requires d != [] && front == d[..|d| - 1] && last == d[|d| - 1]
    ensures d == front + [last] && Hex(d) == Hex(front) + [HexChar(last / 16), HexChar(last % 16)]
  {
  }

  lemma UnhexTwo(s: string, a: char, b: char)
    requires AllHex(s) && |s| % 2 == 0 && HexNibble(a) >= 0 && HexNibble(b) >= 0
    ensures AllHex(s + [a, b]) && Unhex(s + [a, b]) == Unhex(s) + [HexNibble(a) * 16 + HexNibble(b)]
  {
    var t := s + [a, b];
    assert t[..|t| - 2] == s && t[|t| - 2] == a && t[|t| - 1] == b;
    forall k | 0 <= k < |t| ensures HexNibble(t[k]) >= 0 {
      assert k < |s| ==> t[k] == s[k];
    }
    UnhexStep(t, s, a, b);
  }

  lemma UnhexStep(t: string, s: string, a: char, b: char)
    requires AllHex(t) && AllHex(s) && |t| == |s| + 2 && |s| % 2 == 0
    requires t[..|t| - 2] == s && t[|t| - 2] == a && t[|t| - 1] == b
    ensures HexNibble(a) >= 0 && HexNibble(b) >= 0
    ensures Unhex(t) == Unhex(s) + [HexNibble(a) * 16 + HexNibble(b)]
  {
  }

  predicate StartsWith(s: string, prefix: string) { |prefix| <= |s| && s[..|prefix|] == prefix }

  function StripRef(s: string): string {
    if StartsWith(s, "blob:sha256:") then s[12..] else if StartsWith(s, "sha256:") then s[7..] else s
  }

  /** Store::parse_sha256_digest. */
  function ParseDigest(ref: string): Option<seq<Byte>> {
    var hex := StripRef(ref);
    if |hex| == 64 && AllHex(hex) then Some(Unhex(hex)) else None
  }

  method ReadDigest(ref: string) returns (r: Option<seq<Byte>>)
    ensures r == ParseDigest(ref)
  {
    var hex := ref;
    if StartsWith(ref, "blob:sha256:") {
      hex := ref[12..];
    } else if StartsWith(ref, "sha256:") {
      hex := ref[7..];
    }
    if |hex| != 64 {
      return None;
    }
    r := ReadHex(hex);
  }

  method ReadHex(hex: string) returns (r: Option<seq<Byte>>)
    requires |hex| == 64
    ensures r == if AllHex(hex) then Some(Unhex(hex)) else None
  {
    var out: seq<Byte> := [];
    for i := 0 to 32
      invariant AllHex(hex[..2 * i]) && out == Unhex(hex[..2 * i])
    {
      var hi, lo := HexNibble(hex[2 * i]), HexNibble(hex[2 * i + 1]);
      if hi < 0 || lo < 0 {
        return None;
      }
      UnhexPrefix(hex, i);
      out := out + [hi * 16 + lo];
    }
    assert hex[..64] == hex;
    r := Some(out);
  }

  lemma UnhexPrefix(hex: string, i: nat)
    requires 2 * i + 1 < |hex| && AllHex(hex[..2 * i])
    requires HexNibble(hex[2 * i]) >= 0 && HexNibble(hex[2 * i + 1]) >= 0
    ensures AllHex(hex[..2 * (i + 1)])
    ensures Unhex(hex[..2 * (i + 1)]) == Unhex(hex[..2 * i]) + [HexNibble(hex[2 * i]) * 16 + HexNibble(hex[2 * i + 1])]
  {
    assert hex[..2 * (i + 1)] == hex[..2 * i] + [hex[2 * i], hex[2 * i + 1]];
    UnhexTwo(hex[..2 * i], hex[2 * i], hex[2 * i + 1]);
  }

  // ---- What an id addresses ----

  /** An empty layout is a PDF or DjVu page. */
  datatype Target = Whole | PageOf(page: int, layout: string) | ImageOf(image: int)

  datatype Parts = Parts(page: Option<int>, layout: Option<string>, image: Option<int>, regionKey: string)

  const NOTHING := Parts(None, None, None, "")

  /** epub_page_region_key. */
  function RegionKey(page: int, layout: string): string {
    ToString(page) + (if layout != "" then "|" + layout else "")
  }

  /** epub_content_id_page_suffix and the suffixes that meta appends. */
  function Suffix(t: Target): string {
    match t
    case Whole => ""
    case PageOf(n, layout) => ":page:" + ToString(n) + (if layout != "" then ":epub:" + layout else "")
    case ImageOf(n) => ":pdfimage:" + ToString(n)
  }

  function PartsOf(t: Target): Parts {
    match t
    case Whole => NOTHING
    case PageOf(n, layout) => Parts(Some(n), if layout == "" then None else Some(layout), None, RegionKey(n, layout))
    case ImageOf(n) => Parts(None, None, Some(n), "")
  }

  /** How many digits the string starts with. */
  function Digits(s: string): (n: nat)
    ensures n <= |s| && AllDigits(s[..n]) && (n < |s| ==> !IsDigit(s[n]))
  {
    if s == "" || !IsDigit(s[0]) then 0
    else
      var n := Digits(s[1..]);
      assert s[..n + 1] == [s[0]] + s[1..][..n];
      n + 1
  }

  predicate IsSpace(c: char) { c == ' ' || '\t' <= c <= '\r' }

  function SkipSpace(s: string): string {
    if s != "" && IsSpace(s[0]) then SkipSpace(s[1..]) else s
  }

  /** std::stoi: blanks, a sign, digits, and whatever follows; None when it throws. */
  function Stoi(text: string): Option<int> {
    var s := SkipSpace(text);
    var minus := s != "" && s[0] == '-';
    var t := if s != "" && (s[0] == '-' || s[0] == '+') then s[1..] else s;
    var n := Digits(t);
    if n == 0 then None
    else
      var magnitude: int := Value(t[..n]);
      var v := if minus then -magnitude else magnitude;
      if -TWO31 <= v < TWO31 then Some(v) else None
  }

  function ParsePage(after: string): Option<Parts> {
    var n := Digits(after);
    if n == 0 || Stoi(after[..n]).None? || Stoi(after[..n]).value < 1 then None
    else
      var page := Stoi(after[..n]).value;
      var tail := after[n..];
      if StartsWith(tail, ":epub:") then
        if tail[6..] == "" then None
        else Some(Parts(Some(page), Some(tail[6..]), None, RegionKey(page, tail[6..])))
      else if tail != "" then None
      else Some(Parts(Some(page), None, None, ToString(page)))
  }

  /** parse_content_id_suffix. */
  function ParseSuffix(s: string): Option<Parts> {
    if s == "" then Some(NOTHING)
    else if |s| > 6 && StartsWith(s, ":page:") then ParsePage(s[6..])
    else if |s| > 10 && StartsWith(s, ":pdfimage:") then
      var image := Stoi(s[10..]);
      if image.None? || image.value < 1 then None else Some(Parts(None, None, image, ""))
    else None
  }

  /** The digit loop of the page number. */
  method CountDigits(s: string) returns (end: nat)
    ensures end == Digits(s)
  {
    end := 0;
    assert s[0..] == s;
    while end < |s| && IsDigit(s[end])
      invariant end <= |s| && Digits(s) == end + Digits(s[end..])
    {
      assert s[end..][1..] == s[end + 1..];
      end := end + 1;
    }
  }

  /** The branches of parse_content_id_suffix. */
  method ReadSuffix(s: string) returns (r: Option<Parts>)
    ensures r == ParseSuffix(s)
  {
    if s == "" {
      return Some(NOTHING);
    }
    if |s| > 6 && StartsWith(s, ":page:") {
      r := ReadPage(s[6..]);
      return;
    }
    if |s| > 10 && StartsWith(s, ":pdfimage:") {
      var image := Stoi(s[10..]);
      if image.Some? && image.value >= 1 {
        return Some(Parts(None, None, image, ""));
      }
    }
    r := None;
  }

  method ReadPage(after: string) returns (r: Option<Parts>)
    ensures r == ParsePage(after)
  {
    var end := CountDigits(after);
    if end == 0 {
      return None;
    }
    var page := Stoi(after[..end]);
    if page.None? || page.value < 1 {
      return None;
    }
    var tail := after[end..];
    if StartsWith(tail, ":epub:") {
      var layout := tail[6..];
      if layout == "" {
        return None;
      }
      return Some(Parts(page, Some(layout), None, RegionKey(page.value, layout)));
    }
    r := if tail != "" then None else Some(Parts(page, None, None, ToString(page.value)));
  }

  lemma {:induction false} AllAreDigits(s: string, rest: string)
    requires AllDigits(s) && (rest == "" || !IsDigit(rest[0]))
    ensures Digits(s + rest) == |s|
  {
    if s == "" {
      assert s + rest == rest;
    } else {
      assert (s + rest)[0] == s[0] && (s + rest)[1..] == s[1..] + rest;
      AllAreDigits(s[1..], rest);
    }
  }

  lemma StoiOfNumber(n: int)
    ensures Stoi(ToString(n)) == if -TWO31 <= n < TWO31 then Some(n) else None
  {
    var k: nat := if n < 0 then -n else n;
    ValueOfDec(k);
    AllAreDigits(Dec(k), "");
    assert Dec(k) + "" == Dec(k);
    assert SkipSpace(ToString(n)) == ToString(n);
    if n < 0 {
      assert ToString(n)[1..] == Dec(k);
    }
    assert Dec(k)[..|Dec(k)|] == Dec(k);
  }

  predicate Addressable(t: Target) {
    match t
    case Whole => true
    case PageOf(n, _) => 1 <= n < TWO31
    case ImageOf(n) => 1 <= n < TWO31
  }

  lemma PageParses(n: int, layout: string)
    ensures ParseSuffix(Suffix(PageOf(n, layout))) == if 1 <= n < TWO31 then Some(PartsOf(PageOf(n, layout))) else None
  {
    var tail := if layout != "" then ":epub:" + layout else "";
    var s := Suffix(PageOf(n, layout));
    assert s == ":page:" + (ToString(n) + tail);
    assert s[..6] == ":page:" && s[6..] == ToString(n) + tail;
    StoiOfNumber(n);
    if n < 0 {
      assert (ToString(n) + tail)[0] == '-';
    } else {
      AllAreDigits(Dec(n), tail);
      assert (Dec(n) + tail)[..|Dec(n)|] == Dec(n) && (Dec(n) + tail)[|Dec(n)|..] == tail;
      assert layout != "" ==> tail[..6] == ":epub:" && tail[6..] == layout;
      assert ToString(n) + "" == ToString(n);
    }
  }

  lemma ImageParses(n: int)
    ensures ParseSuffix(Suffix(ImageOf(n))) == if 1 <= n < TWO31 then Some(PartsOf(ImageOf(n))) else None
  {
    var s := Suffix(ImageOf(n));
    assert s[..10] == ":pdfimage:" && s[10..] == ToString(n);
    assert s[..6] != ":page:" by { assert s[2] == 'd' && ":page:"[2] == 'a'; }
    StoiOfNumber(n);
  }

  /** A printed suffix is read back exactly when its page or image number is a positive int. */
  lemma SuffixIff(t: Target)
    ensures ParseSuffix(Suffix(t)) == if Addressable(t) then Some(PartsOf(t)) else None
  {
    match t {
      case Whole =>
      case PageOf(n, layout) => PageParses(n, layout);
      case ImageOf(n) => ImageParses(n);
    }
  }

  // ---- Whole ids ----

  datatype Id = Id(digest: seq<Byte>, parts: Parts)

  function Print(digest: seq<Byte>, t: Target): string { "sha256:" + Hex(digest) + Suffix(t) }

  /** parse_content_id. */
  function Parse(s: string): Option<Id> {
    if !StartsWith(s, "sha256:") || |s| < 71 || !AllHex(s[7..71]) then None
    else
      var parts := ParseSuffix(s[71..]);
      var digest := ParseDigest(s[7..71]);
      if parts.None? || digest.None? then None else Some(Id(digest.value, parts.value))
  }

  lemma NotPrefix(s: string, prefix: string, i: nat)
    requires i < |prefix| && i < |s| && s[i] != prefix[i]
    ensures !StartsWith(s, prefix)
  {
    assert |prefix| <= |s| ==> s[..|prefix|][i] == s[i];
  }

  lemma DigestOfHex(digest: seq<Byte>)
    requires |digest| == 32
    ensures ParseDigest(Hex(digest)) == Some(digest)
    ensures ParseDigest("blob:sha256:" + Hex(digest)) == Some(digest)
  {
    UnhexOfHex(digest);
    var hex := Hex(digest);
    assert HexNibble("blob:sha256:"[1]) < 0 && HexNibble("sha256:"[0]) < 0;
    NotPrefix(hex, "blob:sha256:", 1);
    NotPrefix(hex, "sha256:", 0);
    var ref := "blob:sha256:" + hex;
    assert ref[..12] == "blob:sha256:" && ref[12..] == hex;
  }

  lemma PrintSlices(digest: seq<Byte>, t: Target)
    requires |digest| == 32
    ensures var s := Print(digest, t);
      |s| >= 71 && StartsWith(s, "sha256:") && s[7..71] == Hex(digest) && s[71..] == Suffix(t)
  {
    var s := Print(digest, t);
    assert s[..7] == "sha256:";
  }

  /** An id names its digest and its page or image, and is read back exactly when those fit. */
  lemma PrintParsesIff(digest: seq<Byte>, t: Target)
    requires |digest| == 32
    ensures Parse(Print(digest, t)) == if Addressable(t) then Some(Id(digest, PartsOf(t))) else None
  {
    PrintSlices(digest, t);
    SuffixIff(t);
    DigestOfHex(digest);
    UnhexOfHex(digest);
  }

  /** Two addressable targets never share an id. */
  lemma IdsAreInjective(d: seq<Byte>, t: Target, e: seq<Byte>, u: Target)
    requires |d| == 32 && |e| == 32 && Addressable(t) && Addressable(u)
    requires Print(d, t) == Print(e, u)
    ensures d == e && t == u
  {
    PrintParsesIff(d, t);
    PrintParsesIff(e, u);
  }

  predicate WellFormed(id: Id) {
    && |id.digest| == 32
    && (id.parts.page.Some? ==> 1 <= id.parts.page.value < TWO31 && id.parts.regionKey != "" && id.parts.image.None?)
    && (id.parts.image.Some? ==> 1 <= id.parts.image.value < TWO31)
    && (id.parts.page.None? && id.parts.image.None? ==> id.parts == NOTHING)
  }

  /** Whatever is read names a digest of 32 bytes and at most one positive page or image number. */
  lemma ParsedIsWellFormed(s: string)
    requires Parse(s).Some?
    ensures WellFormed(Parse(s).value)
  {
  }
}
