/** NAR URLs: their hashes, their compression extensions, and how they are read and written. */
module NarUrl {
  import opened Collections

  // ---------------------------------------------------------------- hash patterns

  /** The part of the regular-expression language that the hash patterns are written in. */
  datatype Pattern =
    | Chars(ranges: seq<(char, char)>, count: nat)
    | AnyText
    | Either(left: Pattern, right: Pattern)
    | Optional(inner: Pattern)
    | Then(first: Pattern, rest: Pattern)

  predicate InClass(c: char, ranges: seq<(char, char)>) {
    exists i :: 0 <= i < |ranges| && ranges[i].0 <= c <= ranges[i].1
  }

  /** A pattern anchored at both ends matches a string. */
  predicate Matches(p: Pattern, s: string) {
    match p
    case Chars(ranges, count) => |s| == count && forall i :: 0 <= i < |s| ==> InClass(s[i], ranges)
    case AnyText => |s| > 0 && '\n' !in s
    case Either(left, right) => Matches(left, s) || Matches(right, s)
    case Optional(inner) => s == "" || Matches(inner, s)
    case Then(first, rest) => exists k :: 0 <= k <= |s| && Matches(first, s[..k]) && Matches(rest, s[k..])
  }

  const NIX32: seq<(char, char)> := [('0', '9'), ('a', 'd'), ('f', 'n'), ('p', 's'), ('v', 'z')]
  const HEX: seq<(char, char)> := [('0', '9'), ('a', 'f')]
  const SEPARATOR: seq<(char, char)> := [('-', '-'), ('_', '_')]

  const NormalizedHashPattern: Pattern := Either(Chars(NIX32, 52), Chars(HEX, 64))
  const PrefixPattern: Pattern := Then(Chars(NIX32, 32), Chars(SEPARATOR, 1))
  const HashPattern: Pattern := Then(Optional(PrefixPattern), NormalizedHashPattern)
  const HashPatternLenient: Pattern := Then(Optional(PrefixPattern), AnyText)

  predicate ValidHash(hash: string) { Matches(HashPattern, hash) }

  predicate HasPrefix(hash: string) { |hash| >= 33 && Matches(PrefixPattern, hash[..33]) }

  /** What the lenient pattern captures after its optional prefix, which it takes whenever it can. */
  function LenientRest(hash: string): Option<string> {
    if HasPrefix(hash) && Matches(AnyText, hash[33..]) then Some(hash[33..])
    else if Matches(AnyText, hash) then Some(hash)
    else None
  }

  predicate IsSeparator(c: char) { c == '-' || c == '_' }

  /** The characters of the two encodings, and of what separates a prefix from the hash. */
  lemma Alphabets(c: char)
    ensures InClass(c, NIX32) <==> c in "0123456789abcdfghijklmnpqrsvwxyz"
    ensures InClass(c, HEX) <==> c in "0123456789abcdef"
    ensures InClass(c, SEPARATOR) <==> c == '-' || c == '_'
  {
    assert NIX32[0] == ('0', '9') && NIX32[1] == ('a', 'd') && NIX32[2] == ('f', 'n') && NIX32[3] == ('p', 's') && NIX32[4] == ('v', 'z');
    assert HEX[0] == ('0', '9') && HEX[1] == ('a', 'f');
    assert SEPARATOR[0] == ('-', '-') && SEPARATOR[1] == ('_', '_');
  }

  /** 52 characters of the one encoding or 64 of the other. */
  predicate Encoded(s: string) {
    || (|s| == 52 && forall c :: c in s ==> c in "0123456789abcdfghijklmnpqrsvwxyz")
    || (|s| == 64 && forall c :: c in s ==> c in "0123456789abcdef")
  }

  predicate Prefixed(s: string) {
    && |s| >= 33 && (forall c :: c in s[..32] ==> c in "0123456789abcdfghijklmnpqrsvwxyz")
    && (s[32] == '-' || s[32] == '_')
  }

  lemma {:induction false} CharsIff(ranges: seq<(char, char)>, alphabet: string, count: nat, s: string)
    requires forall c :: InClass(c, ranges) <==> c in alphabet
    ensures Matches(Chars(ranges, count), s) <==> |s| == count && forall c :: c in s ==> c in alphabet
  {
    if Matches(Chars(ranges, count), s) {
      forall c | c in s
        ensures c in alphabet
      {
        var i :| 0 <= i < |s| && s[i] == c;
        assert InClass(s[i], ranges);
      }
    } else if |s| == count {
      var i :| 0 <= i < |s| && !InClass(s[i], ranges);
      assert s[i] in s;
    }
  }

  lemma EncodedIff(s: string)
    ensures Matches(NormalizedHashPattern, s) <==> Encoded(s)
  {
    forall c {
      Alphabets(c);
    }
    CharsIff(NIX32, "0123456789abcdfghijklmnpqrsvwxyz", 52, s);
    CharsIff(HEX, "0123456789abcdef", 64, s);
  }

  lemma PrefixedIff(s: string)
    ensures HasPrefix(s) <==> Prefixed(s)
  {
    forall c {
      Alphabets(c);
    }
    if |s| >= 33 {
      var p := s[..33];
      assert p[..32] == s[..32] && p[32..] == [s[32]];
      CharsIff(NIX32, "0123456789abcdfghijklmnpqrsvwxyz", 32, p[..32]);
      CharsIff(SEPARATOR, "-_", 1, p[32..]);
      if HasPrefix(s) {
        var k :| 0 <= k <= |p| && Matches(Chars(NIX32, 32), p[..k]) && Matches(Chars(SEPARATOR, 1), p[k..]);
        assert k == 32;
      }
    }
  }

  /** On the characters: which strings are valid hashes. */
  lemma ValidHashIff(hash: string)
    ensures ValidHash(hash) <==> Encoded(hash) || (Prefixed(hash) && Encoded(hash[33..]))
  {
    ValidHashForms(hash);
    PrefixedIff(hash);
    EncodedIff(hash);
    if Prefixed(hash) {
      EncodedIff(hash[33..]);
      PrefixedIsNotNormalized(hash);
    }
  }

  /** The characters of hashes: no dot, slash, question mark or newline. */
  predicate HashChar(c: char) { '0' <= c <= '9' || 'a' <= c <= 'z' || IsSeparator(c) }

  lemma PrefixShape(s: string)
    requires Matches(PrefixPattern, s)
    ensures |s| == 33 && IsSeparator(s[32])
    ensures forall c :: c in s ==> HashChar(c)
  {
    var k :| 0 <= k <= |s| && Matches(Chars(NIX32, 32), s[..k]) && Matches(Chars(SEPARATOR, 1), s[k..]);
    assert s == s[..k] + s[k..];
    assert InClass(s[k..][0], SEPARATOR);
  }

  lemma NormalizedShape(s: string)
    requires Matches(NormalizedHashPattern, s)
    ensures |s| == 52 || |s| == 64
    ensures forall i :: 0 <= i < |s| ==> HashChar(s[i]) && !IsSeparator(s[i])
  {
    assert Matches(Chars(NIX32, 52), s) || Matches(Chars(HEX, 64), s);
  }

  lemma SeparatedIsNotNormalized(s: string, i: nat)
    requires i < |s| && IsSeparator(s[i])
    ensures !Matches(NormalizedHashPattern, s)
  {
    assert !InClass(s[i], NIX32) && !InClass(s[i], HEX);
  }

  lemma PrefixedIsNotNormalized(s: string)
    requires HasPrefix(s)
    ensures !Matches(NormalizedHashPattern, s)
  {
    PrefixShape(s[..33]);
    SeparatedIsNotNormalized(s, 32);
  }

  /** ValidateHash accepts a normalized hash, a normalized hash after a 33-character prefix, and nothing else. */
  lemma ValidHashForms(hash: string)
    ensures ValidHash(hash) <==>
      Matches(NormalizedHashPattern, if HasPrefix(hash) then hash[33..] else hash)
  {
    assert hash[..0] == "" && hash[0..] == hash;
    if HasPrefix(hash) {
      PrefixedIsNotNormalized(hash);
    }
    if ValidHash(hash) {
      var k :| 0 <= k <= |hash| && Matches(Optional(PrefixPattern), hash[..k]) && Matches(NormalizedHashPattern, hash[k..]);
      if k != 0 {
        PrefixShape(hash[..k]);
      }
    }
    var k := if HasPrefix(hash) then 33 else 0;
    if Matches(NormalizedHashPattern, hash[k..]) {
      assert Matches(Optional(PrefixPattern), hash[..k]);
    }
  }

  lemma ValidHashChars(hash: string)
    requires ValidHash(hash)
    ensures 52 <= |hash| && forall c :: c in hash ==> HashChar(c)
  {
    ValidHashForms(hash);
    if HasPrefix(hash) {
      PrefixShape(hash[..33]);
      NormalizedShape(hash[33..]);
      assert hash == hash[..33] + hash[33..];
    } else {
      NormalizedShape(hash);
    }
  }

  /** The capture exists exactly when the lenient pattern matches, and strips the prefix it finds. */
  lemma LenientMatches(hash: string)
    ensures LenientRest(hash).Some? <==> Matches(HashPatternLenient, hash)
  {
    assert hash[..0] == "" && hash[0..] == hash;
    if Matches(HashPatternLenient, hash) {
      var k :| 0 <= k <= |hash| && Matches(Optional(PrefixPattern), hash[..k]) && Matches(AnyText, hash[k..]);
      if k != 0 {
        PrefixShape(hash[..k]);
      }
    }
    if LenientRest(hash).Some? {
      var k := if HasPrefix(hash) && Matches(AnyText, hash[33..]) then 33 else 0;
      assert Matches(Optional(PrefixPattern), hash[..k]) && Matches(AnyText, hash[k..]);
    }
  }

  // ---------------------------------------------------------------- URLs

  datatype Error = InvalidURL | InvalidHash | UnknownFileExtension | InvalidQuery
  datatype Result<+T> = Ok(value: T) | Err(error: Error)

  /** A compression type is a string in the source, so any string can be one. */
  datatype URL<Q> = URL(hash: string, compression: string, query: Q, transparentZstd: bool)

  /** url.ParseQuery and url.Values.Encode, from the Go library. */
  datatype Codec<!Q> = Codec(parse: string -> Result<Q>, encode: Q -> string)

  function FromExtension(ext: string): Result<string> {
    match ext
    case "" => Ok("none")
    case "none" => Ok("none")
    case "bz2" => Ok("bzip2")
    case "zst" => Ok("zstd")
    case "lzip" => Ok("lzip")
    case "lz4" => Ok("lz4")
    case "br" => Ok("br")
    case "xz" => Ok("xz")
    case _ => Err(UnknownFileExtension)
  }

  /** None where the source panics. */
  function ToFileExtension(compression: string): Option<string> {
    match compression
    case "" => Some("")
    case "none" => Some("")
    case "bzip2" => Some("bz2")
    case "zstd" => Some("zst")
    case "lzip" => Some("lzip")
    case "lz4" => Some("lz4")
    case "br" => Some("br")
    case "xz" => Some("xz")
    case _ => None
  }

  const COMPRESSIONS: set<string> := {"none", "bzip2", "zstd", "lzip", "lz4", "br", "xz"}

  /** Reading back an extension undoes writing it, exactly for the named compression types. */
  lemma ExtensionRoundTrip(compression: string)
    ensures ToFileExtension(compression).Some? <==> compression in COMPRESSIONS || compression == ""
    ensures compression in COMPRESSIONS <==>
      ToFileExtension(compression).Some? && FromExtension(ToFileExtension(compression).value) == Ok(compression)
  {
    if ToFileExtension(compression).Some? {
      assert FromExtension("") == Ok("none") && FromExtension("bz2") == Ok("bzip2") && FromExtension("zst") == Ok("zstd");
    }
  }

  /** Which extension names which compression, both ways; no other extension is known. */
  lemma ExtensionTable(ext: string, compression: string)
    ensures FromExtension(ext) == Ok(compression) <==>
      (ext, compression) in {("", "none"), ("none", "none"), ("bz2", "bzip2"), ("zst", "zstd"), ("lzip", "lzip"), ("lz4", "lz4"),
                             ("br", "br"), ("xz", "xz")}
    ensures ToFileExtension(compression) == Some(ext) <==>
      (ext, compression) in {("", ""), ("", "none"), ("bz2", "bzip2"), ("zst", "zstd"), ("lzip", "lzip"), ("lz4", "lz4"),
                             ("br", "br"), ("xz", "xz")}
    ensures FromExtension(ext).Err? ==> FromExtension(ext).error == UnknownFileExtension
  {}

  lemma ExtensionsAreNames(ext: string)
    requires FromExtension(ext).Ok?
    ensures FromExtension(ext).value in COMPRESSIONS
    ensures '/' !in ext && '?' !in ext
  {}

  function Cut(s: string, sep: string): (string, string, bool)
    requires sep != ""
  {
    if s == "" then ("", "", false)
    else if sep <= s then ("", s[|sep|..], true)
    else
      var (before, after, found) := Cut(s[1..], sep);
      if found then ([s[0]] + before, after, true) else (s, "", false)
  }

  function WithoutTrailingSlashes(path: string): string {
    if path != "" && path[|path| - 1] == '/' then WithoutTrailingSlashes(path[..|path| - 1]) else path
  }

  function LastElement(path: string): string {
    if path == "" || path[|path| - 1] == '/' then "" else LastElement(path[..|path| - 1]) + [path[|path| - 1]]
  }

  /** filepath.Base */
  function Base(path: string): string {
    if path == "" then "." else
      var name := LastElement(WithoutTrailingSlashes(path));
      if name == "" then "/" else name
  }

  function ParseURL<Q>(codec: Codec<Q>, s: string): Result<URL<Q>> {
    if s == "" then Err(InvalidURL) else
      var (pathPart, rawQuery, _) := Cut(s, "?");
      var filename := Base(pathPart);
      if filename == "" || filename == "." then Err(InvalidURL) else
        var (hash, afterNar, found) := Cut(filename, ".nar");
        if !found || hash == "" then Err(InvalidURL)
        else if !ValidHash(hash) then Err(InvalidHash)
        else if afterNar != "" && afterNar[0] != '.' then Err(InvalidURL)
        else
          match FromExtension(if afterNar == "" then "" else afterNar[1..])
          case Err(e) => Err(e)
          case Ok(compression) =>
            match codec.parse(rawQuery)
            case Err(e) => Err(InvalidQuery)
            case Ok(query) => Ok(URL(hash, compression, query, false))
  }

  function PathWithCompression<Q>(u: URL<Q>): Option<string> {
    match ToFileExtension(u.compression)
    case None => None
    case Some(ext) => Some("nar/" + u.hash + ".nar" + if ext != "" then "." + ext else "")
  }

  function ToString<Q>(codec: Codec<Q>, u: URL<Q>): Option<string> {
    match PathWithCompression(u)
    case None => None
    case Some(p) =>
      var q := codec.encode(u.query);
      Some(if q != "" then p + "?" + q else p)
  }

  function Normalize<Q>(u: URL<Q>): Result<URL<Q>> {
    match LenientRest(u.hash)
    case None => Err(InvalidHash)
    case Some(rest) =>
      if Matches(NormalizedHashPattern, rest) then Ok(URL(rest, u.compression, u.query, false)) else Err(InvalidHash)
  }

  // ---------------------------------------------------------------- the accepted strings

  predicate AllSlashes(s: string) { forall i :: 0 <= i < |s| ==> s[i] == '/' }

  /** The grammar [dir/]hash.nar[.ext][/...][?query], written out with all its parts. */
  ghost predicate SpellsAs<Q>(codec: Codec<Q>, s: string, u: URL<Q>, dir: string, suffix: string, slashes: string, tail: string) {
    && s == dir + (u.hash + ".nar" + suffix) + slashes + tail
    && (dir == "" || dir[|dir| - 1] == '/') && '?' !in dir
    && ValidHash(u.hash)
    && (suffix == "" || suffix[0] == '.') && FromExtension(if suffix == "" then "" else suffix[1..]) == Ok(u.compression)
    && AllSlashes(slashes)
    && (tail == "" || tail[0] == '?') && codec.parse(if tail == "" then "" else tail[1..]) == Ok(u.query)
    && !u.transparentZstd
  }

  ghost predicate Spells<Q>(codec: Codec<Q>, s: string, u: URL<Q>) {
    exists dir, suffix, slashes, tail :: SpellsAs(codec, s, u, dir, suffix, slashes, tail)
  }

  lemma {:induction false} CutAtFirst(a: string, sep: string, b: string)
    requires sep != "" && sep[0] !in a
    ensures Cut(a + sep + b, sep) == (a, b, true)
  {
    var s := a + sep + b;
    if a == "" {
      assert sep <= s && s[|sep|..] == b;
    } else {
      assert s[0] == a[0] && a[0] in a;
      assert s[1..] == a[1..] + sep + b;
      CutAtFirst(a[1..], sep, b);
      assert [a[0]] + a[1..] == a;
    }
  }

  lemma {:induction false} CutAbsent(s: string, sep: string)
    requires sep != "" && sep[0] !in s
    ensures Cut(s, sep) == (s, "", false)
  {
    if s != "" {
      assert s[0] in s;
      CutAbsent(s[1..], sep);
    }
  }

  lemma {:induction false} CutSplits(s: string, sep: string)
    requires sep != ""
    ensures var (before, after, found) := Cut(s, sep);
      && (found ==> s == before + sep + after)
      && (!found ==> before == s && after == "")
      && (|sep| == 1 ==> sep[0] !in before)
  {
    if s != "" && !(sep <= s) {
      CutSplits(s[1..], sep);
      assert s == [s[0]] + s[1..];
    }
  }

  lemma {:induction false} BaseSplits(path: string) returns (dir: string, slashes: string)
    ensures Base(path) != "." && Base(path) != "/" ==>
      path == dir + Base(path) + slashes && (dir == "" || dir[|dir| - 1] == '/') && AllSlashes(slashes)
    ensures '/' in Base(path) ==> Base(path) == "/"
  {
    slashes := WithoutSplits(path);
    dir := LastElementSplits(WithoutTrailingSlashes(path));
  }

  lemma {:induction false} WithoutSplits(path: string) returns (slashes: string)
    ensures path == WithoutTrailingSlashes(path) + slashes && AllSlashes(slashes)
  {
    slashes := "";
    if path != "" && path[|path| - 1] == '/' {
      slashes := WithoutSplits(path[..|path| - 1]);
      slashes := slashes + "/";
      assert path == path[..|path| - 1] + "/";
    }
  }

  lemma {:induction false} LastElementSplits(path: string) returns (dir: string)
    ensures path == dir + LastElement(path) && (dir == "" || dir[|dir| - 1] == '/')
    ensures '/' !in LastElement(path)
  {
    dir := path;
    if path != "" && path[|path| - 1] != '/' {
      dir := LastElementSplits(path[..|path| - 1]);
      assert path == path[..|path| - 1] + [path[|path| - 1]];
    }
  }

  lemma {:induction false} WithoutSlashesOf(path: string, slashes: string)
    requires path != "" && path[|path| - 1] != '/' && AllSlashes(slashes)
    ensures WithoutTrailingSlashes(path + slashes) == path
  {
    if slashes == "" {
      assert path + slashes == path;
    } else {
      var n := |slashes| - 1;
      assert (path + slashes)[..|path| + n] == path + slashes[..n];
      WithoutSlashesOf(path, slashes[..n]);
    }
  }

  lemma {:induction false} LastElementOf(dir: string, name: string)
    requires dir == "" || dir[|dir| - 1] == '/'
    requires '/' !in name
    ensures LastElement(dir + name) == name
  {
    if name == "" {
      assert dir + name == dir;
    } else {
      var n := |name| - 1;
      assert name[n] in name;
      assert (dir + name)[..|dir| + n] == dir + name[..n];
      LastElementOf(dir, name[..n]);
      assert name[..n] + [name[n]] == name;
    }
  }

  lemma BaseOf(dir: string, name: string, slashes: string)
    requires dir == "" || dir[|dir| - 1] == '/'
    requires name != "" && '/' !in name && AllSlashes(slashes)
    ensures Base(dir + name + slashes) == name
  {
    var path := dir + name;
    assert path[|path| - 1] == name[|name| - 1];
    assert name[|name| - 1] in name;
    WithoutSlashesOf(path, slashes);
    LastElementOf(dir, name);
  }

  /** A file name of the grammar holds no slash and no question mark. */
  lemma FileNameChars(hash: string, suffix: string)
    requires ValidHash(hash)
    requires suffix == "" || suffix[0] == '.'
    requires FromExtension(if suffix == "" then "" else suffix[1..]).Ok?
    ensures var name := hash + ".nar" + suffix; '/' !in name && '?' !in name
    ensures '.' !in hash && hash != ""
  {
    ValidHashChars(hash);
    if suffix != "" {
      ExtensionsAreNames(suffix[1..]);
      assert suffix == "." + suffix[1..];
    }
  }

  lemma CutQuery(path: string, tail: string)
    requires '?' !in path
    requires tail == "" || tail[0] == '?'
    ensures Cut(path + tail, "?") == (path, if tail == "" then "" else tail[1..], tail != "")
  {
    if tail == "" {
      assert path + tail == path;
      CutAbsent(path, "?");
    } else {
      assert path + tail == path + "?" + tail[1..];
      CutAtFirst(path, "?", tail[1..]);
    }
  }

  lemma SpelledIsParsed<Q>(codec: Codec<Q>, s: string, u: URL<Q>, dir: string, suffix: string, slashes: string, tail: string)
    requires SpellsAs(codec, s, u, dir, suffix, slashes, tail)
    ensures ParseURL(codec, s) == Ok(u)
  {
    var name := u.hash + ".nar" + suffix;
    FileNameChars(u.hash, suffix);
    var path := dir + name + slashes;
    assert '?' !in path;
    CutQuery(path, tail);
    BaseOf(dir, name, slashes);
    CutAtFirst(u.hash, ".nar", suffix);
  }

  /** What parsing has found of the file name and the query of a string it accepts. */
  lemma ParsedPieces<Q>(codec: Codec<Q>, s: string, u: URL<Q>)
    requires ParseURL(codec, s) == Ok(u)
    ensures var (path, rawQuery, asked) := Cut(s, "?");
      var (hash, suffix, found) := Cut(Base(path), ".nar");
      && found && hash == u.hash && ValidHash(hash) && (suffix == "" || suffix[0] == '.') && Base(path) != "."
      && FromExtension(if suffix == "" then "" else suffix[1..]) == Ok(u.compression)
      && codec.parse(rawQuery) == Ok(u.query) && !u.transparentZstd
  {}

  lemma ParsedIsSpelled<Q>(codec: Codec<Q>, s: string, u: URL<Q>)
    requires ParseURL(codec, s) == Ok(u)
    ensures Spells(codec, s, u)
  {
    ParsedPieces(codec, s, u);
    var (path, rawQuery, asked) := Cut(s, "?");
    CutSplits(s, "?");
    var tail := if asked then "?" + rawQuery else "";
    assert s == path + tail;
    var name := Base(path);
    var dir, slashes := BaseSplits(path);
    var (hash, suffix, found) := Cut(name, ".nar");
    CutSplits(name, ".nar");
    assert name == u.hash + ".nar" + suffix;
    assert path == dir + name + slashes;
    assert forall c :: c in dir ==> c in path;
    assert SpellsAs(codec, s, u, dir, suffix, slashes, tail);
  }

  /** ParseURL reads exactly the grammar: it accepts a string as `u` if and only if the string spells `u`. */
  lemma ParseIffSpells<Q>(codec: Codec<Q>, s: string, u: URL<Q>)
    ensures ParseURL(codec, s) == Ok(u) <==> Spells(codec, s, u)
  {
    if Spells(codec, s, u) {
      var dir, suffix, slashes, tail :| SpellsAs(codec, s, u, dir, suffix, slashes, tail);
      SpelledIsParsed(codec, s, u, dir, suffix, slashes, tail);
    }
    if ParseURL(codec, s) == Ok(u) {
      ParsedIsSpelled(codec, s, u);
    }
  }

  // ---------------------------------------------------------------- round trips

  ghost predicate RoundTrips<Q>(codec: Codec<Q>, query: Q) { codec.parse(codec.encode(query)) == Ok(query) }

  /** A printed URL with a valid hash is read back whole, but for what printing forgets. */
  lemma PrintedIsSpelled<Q>(codec: Codec<Q>, u: URL<Q>, query: Q)
    requires ValidHash(u.hash) && ToFileExtension(u.compression).Some?
    requires codec.parse(codec.encode(u.query)) == Ok(query)
    ensures ToString(codec, u).Some?
    ensures var compression := if u.compression == "" then "none" else u.compression;
      ParseURL(codec, ToString(codec, u).value) == Ok(URL(u.hash, compression, query, false))
  {
    var compression := if u.compression == "" then "none" else u.compression;
    var ext := ToFileExtension(u.compression).value;
    var suffix := if ext == "" then "" else "." + ext;
    var q := codec.encode(u.query);
    var tail := if q == "" then "" else "?" + q;
    var s := ToString(codec, u).value;
    RegroupPath(u.hash, suffix, tail);
    ExtensionRoundTrip(compression);
    SpelledIsParsed(codec, s, URL(u.hash, compression, query, false), "nar/", suffix, "", tail);
  }

  lemma RegroupPath(hash: string, suffix: string, tail: string)
    ensures "nar/" + hash + ".nar" + suffix + tail == "nar/" + (hash + ".nar" + suffix) + "" + tail
    ensures "nar/" + hash + ".nar" + suffix + "" == "nar/" + hash + ".nar" + suffix
  {}

  /** Printing then parsing gives a URL back if and only if its parts are ones that parsing can produce. */
  lemma RoundTripIff<Q>(codec: Codec<Q>, u: URL<Q>)
    ensures ToString(codec, u).Some? && ParseURL(codec, ToString(codec, u).value) == Ok(u) <==>
      ValidHash(u.hash) && u.compression in COMPRESSIONS && RoundTrips(codec, u.query) && !u.transparentZstd
  {
    ExtensionRoundTrip(u.compression);
    if ValidHash(u.hash) && u.compression in COMPRESSIONS && RoundTrips(codec, u.query) {
      PrintedIsSpelled(codec, u, u.query);
    }
    if ToString(codec, u).Some? && ParseURL(codec, ToString(codec, u).value) == Ok(u) {
      ParsedParts(codec, ToString(codec, u).value, u);
      QueryReadBack(codec, u);
    }
  }

  lemma ParsedParts<Q>(codec: Codec<Q>, s: string, u: URL<Q>)
    requires ParseURL(codec, s) == Ok(u)
    ensures ValidHash(u.hash) && u.compression in COMPRESSIONS && !u.transparentZstd
  {
    ParsedIsSpelled(codec, s, u);
    var dir, suffix, slashes, tail :| SpellsAs(codec, s, u, dir, suffix, slashes, tail);
    ExtensionsAreNames(if suffix == "" then "" else suffix[1..]);
  }

  /** The query that is read back from a printed URL is the printed query, parsed. */
  lemma QueryReadBack<Q>(codec: Codec<Q>, u: URL<Q>)
    requires ValidHash(u.hash) && ToString(codec, u).Some? && ParseURL(codec, ToString(codec, u).value) == Ok(u)
    ensures RoundTrips(codec, u.query)
  {
    var path := PathWithCompression(u).value;
    PathAsksNothing(u);
    var q := codec.encode(u.query);
    if q == "" {
      CutAbsent(path, "?");
    } else {
      CutAtFirst(path, "?", q);
    }
  }

  lemma PathAsksNothing<Q>(u: URL<Q>)
    requires ValidHash(u.hash) && PathWithCompression(u).Some?
    ensures '?' !in PathWithCompression(u).value
  {
    ValidHashChars(u.hash);
    assert '?' !in ToFileExtension(u.compression).value;
  }

  /** Any accepted string can be printed again, and parses to the same URL if and only if its query comes back. */
  lemma ReprintIsStable<Q>(codec: Codec<Q>, s: string, u: URL<Q>)
    requires ParseURL(codec, s) == Ok(u)
    ensures ToString(codec, u).Some?
    ensures ParseURL(codec, ToString(codec, u).value) == Ok(u) <==> RoundTrips(codec, u.query)
  {
    ParsedParts(codec, s, u);
    ExtensionRoundTrip(u.compression);
    RoundTripIff(codec, u);
  }

  /** Only the file name matters: directories in front of an accepted string change nothing. */
  lemma DirectoriesDoNotMatter<Q>(codec: Codec<Q>, dir: string, s: string, u: URL<Q>)
    requires ParseURL(codec, s) == Ok(u)
    requires '?' !in dir && dir != "" && dir[|dir| - 1] == '/'
    ensures ParseURL(codec, dir + s) == Ok(u)
  {
    ParsedIsSpelled(codec, s, u);
    var inner, suffix, slashes, tail :| SpellsAs(codec, s, u, inner, suffix, slashes, tail);
    RegroupFront(dir, inner, u.hash + ".nar" + suffix, slashes, tail);
    SpelledIsParsed(codec, dir + s, u, dir + inner, suffix, slashes, tail);
  }

  lemma RegroupFront(a: string, b: string, c: string, d: string, e: string)
    ensures a + (b + c + d + e) == (a + b) + c + d + e
  {}

  // ---------------------------------------------------------------- normalizing

  /** Normalize succeeds exactly on valid hashes, strips exactly a present prefix and keeps the rest of the URL. */
  lemma NormalizeIffValid<Q>(u: URL<Q>)
    ensures Normalize(u).Ok? <==> ValidHash(u.hash)
    ensures Normalize(u).Ok? ==>
      Normalize(u).value == URL(if HasPrefix(u.hash) then u.hash[33..] else u.hash, u.compression, u.query, false)
  {
    ValidHashForms(u.hash);
    if HasPrefix(u.hash) {
      PrefixedIsNotNormalized(u.hash);
    }
    var rest := if HasPrefix(u.hash) then u.hash[33..] else u.hash;
    if Matches(NormalizedHashPattern, rest) {
      NormalizedShape(rest);
      assert '\n' !in rest;
    }
  }

  /** A normalized hash is valid, has no prefix left, and normalizes to itself. */
  lemma NormalizeIsIdempotent<Q>(u: URL<Q>)
    requires Normalize(u).Ok?
    ensures Matches(NormalizedHashPattern, Normalize(u).value.hash) && !HasPrefix(Normalize(u).value.hash)
    ensures Normalize(Normalize(u).value) == Normalize(u)
  {
    var v := Normalize(u).value;
    if HasPrefix(v.hash) {
      PrefixedIsNotNormalized(v.hash);
    }
    ValidHashForms(v.hash);
    NormalizeIffValid(v);
  }
}
