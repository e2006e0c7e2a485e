/** The bundle binding (room/bundle.py): the byte stream a miner's credential is bound to.

    A directory walk yields paths in some order; the regular files that are not excluded are hashed
    in path order, each as length, path, length, content.  The model is the bytes fed to the hash. */
module Bundle {
  import opened Common

  // ---- UTF-8 ------------------------------------------------------------------------------

  function EncodeChar(c: char): (bs: seq<Byte>)
    ensures 1 <= |bs| <= 4
  {
    var n := c as int;
    if n < 0x80 then [n]
    else if n < 0x800 then [0xC0 + n / 0x40, 0x80 + n % 0x40]
    else if n < 0x10000 then [0xE0 + n / 0x1000, 0x80 + n / 0x40 % 0x40, 0x80 + n % 0x40]
    else [0xF0 + n / 0x40000, 0x80 + n / 0x1000 % 0x40, 0x80 + n / 0x40 % 0x40, 0x80 + n % 0x40]
  }

  function Utf8(s: string): seq<Byte> {
    if s == [] then [] else EncodeChar(s[0]) + Utf8(s[1..])
  }

  // The code point a stream of bytes starts with.
  function Decoded(s: seq<Byte>): int
    requires |s| >= 4
  {
    var b0: int, b1: int, b2: int, b3: int := s[0], s[1], s[2], s[3];
    if b0 < 0x80 then b0
    else if b0 < 0xE0 then (b0 - 0xC0) * 0x40 + (b1 - 0x80)
    else if b0 < 0xF0 then (b0 - 0xE0) * 0x1000 + (b1 - 0x80) * 0x40 + (b2 - 0x80)
    else (b0 - 0xF0) * 0x40000 + (b1 - 0x80) * 0x1000 + (b2 - 0x80) * 0x40 + (b3 - 0x80)
  }

  lemma DecodesChar(c: char, x: seq<Byte>)
    ensures Decoded(EncodeChar(c) + x + [0, 0, 0]) == c as int
  {
    var n := c as int;
    assert n / 0x40 == n / 0x1000 * 0x40 + n / 0x40 % 0x40;
    assert n / 0x1000 == n / 0x40000 * 0x40 + n / 0x1000 % 0x40;
  }

  // The encoding of a character is the shortest form of RFC 3629, section 3: its length by range, a
  // lead byte by length, continuation bytes, and the code point they spell.
  lemma Utf8Is(c: char)
    ensures var bs, n := EncodeChar(c), c as int;
            && |bs| == (if n <= 0x7F then 1 else if n <= 0x7FF then 2 else if n <= 0xFFFF then 3 else 4)
            && (|bs| == 1 ==> bs[0] <= 0x7F) && (|bs| == 2 ==> 0xC2 <= bs[0] <= 0xDF)
            && (|bs| == 3 ==> 0xE0 <= bs[0] <= 0xEF) && (|bs| == 4 ==> 0xF0 <= bs[0] <= 0xF4)
            && (forall i | 1 <= i < |bs| :: 0x80 <= bs[i] <= 0xBF)
            && Decoded(bs + [0, 0, 0]) == n
  {
    DecodesChar(c, []);
    assert EncodeChar(c) + [] + [0, 0, 0] == EncodeChar(c) + [0, 0, 0];
  }

  function Ascii(s: string): seq<Byte> { seq(|s|, i requires 0 <= i < |s| => s[i] as int % 256) }

  lemma {:induction false} AsciiIsItself(s: string)
    requires forall i | 0 <= i < |s| :: s[i] as int < 0x80
    ensures Utf8(s) == Ascii(s)
  {
    if s != [] {
      AsciiIsItself(s[1..]);
      assert Ascii(s) == [s[0] as int] + Ascii(s[1..]);
    }
  }

  // No encoded character is a prefix of another.
  lemma CharsArePrefixFree(a: char, b: char, x: seq<Byte>, y: seq<Byte>)
    requires EncodeChar(a) + x == EncodeChar(b) + y
    ensures a == b && x == y
  {
    DecodesChar(a, x);
    DecodesChar(b, y);
    var s := EncodeChar(a) + x;
    assert x == s[|EncodeChar(a)|..] && y == s[|EncodeChar(b)|..];
  }

  lemma {:induction false} Utf8IsInjective(a: string, b: string)
    requires Utf8(a) == Utf8(b)
    ensures a == b
  {
    if a != [] && b != [] {
      CharsArePrefixFree(a[0], b[0], Utf8(a[1..]), Utf8(b[1..]));
      Utf8IsInjective(a[1..], b[1..]);
    }
  }

  // ---- paths ------------------------------------------------------------------------------

  // A relative path as its parts; a part is non-empty and has no slash.
  type Path = seq<string>

  predicate IsPart(p: string) { p != "" && forall i | 0 <= i < |p| :: p[i] != '/' }

  predicate IsPath(p: Path) { p != [] && forall i | 0 <= i < |p| :: IsPart(p[i]) }

  // as_posix()
  function Join(p: Path): string {
    if p == [] then "" else if |p| == 1 then p[0] else p[0] + "/" + Join(p[1..])
  }

  // Where the first part of a joined path ends.
  function HeadLength(s: string): (n: nat)
    ensures n <= |s|
  {
    if s == "" || s[0] == '/' then 0 else 1 + HeadLength(s[1..])
  }

  lemma {:induction false} HeadLengthIs(part: string, rest: string)
    requires forall i | 0 <= i < |part| :: part[i] != '/'
    requires rest == "" || rest[0] == '/'
    ensures HeadLength(part + rest) == |part|
  {
    if part == "" {
      assert part + rest == rest;
    } else {
      assert (part + rest)[1..] == part[1..] + rest;
      HeadLengthIs(part[1..], rest);
    }
  }

  lemma JoinHead(p: Path)
    requires IsPath(p)
    ensures Join(p) != "" && HeadLength(Join(p)) == |p[0]| && Join(p)[..|p[0]|] == p[0]
    ensures |p| > 1 <==> |p[0]| < |Join(p)|
    ensures |p| > 1 ==> IsPath(p[1..]) && Join(p)[|p[0]| + 1..] == Join(p[1..])
  {
    assert IsPart(p[0]);
    if |p| == 1 {
      assert p[0] + "" == p[0];
      HeadLengthIs(p[0], "");
    } else {
      HeadLengthIs(p[0], "/" + Join(p[1..]));
      assert Join(p) == p[0] + ("/" + Join(p[1..]));
    }
  }

  lemma {:induction false} JoinIsInjective(a: Path, b: Path)
    requires IsPath(a) && IsPath(b) && Join(a) == Join(b)
    ensures a == b
  {
    JoinHead(a);
    JoinHead(b);
    if |a| > 1 {
      JoinIsInjective(a[1..], b[1..]);
      assert a == [a[0]] + a[1..] && b == [b[0]] + b[1..];
    }
  }

  // ---- which files are left out -----------------------------------------------------------

  const SEALED_CREDENTIAL_FILENAME := "sealed_inference_key"

  function LastDot(name: string): (i: int)
    ensures -1 <= i < |name|
    ensures i >= 0 ==> name[i] == '.'
    ensures forall k | i < k < |name| :: name[k] != '.'
  {
    if name == "" then -1
    else if name[|name| - 1] == '.' then |name| - 1
    else LastDot(name[..|name| - 1])
  }

  // PurePath.suffix: the last dot and what follows it, unless the dot leads or ends the name.
  function Suffix(name: string): string {
    var i := LastDot(name);
    if 0 < i < |name| - 1 then name[i..] else ""
  }

  predicate Excluded(p: Path) {
    || Join(p) == SEALED_CREDENTIAL_FILENAME
    || (p != [] && (Suffix(p[|p| - 1]) == ".pyc" || Suffix(p[|p| - 1]) == ".pyo"))
    || ".git" in p || "__pycache__" in p
  }

  // What the suffix rule really excludes: names that end in .pyc or .pyo with something before it.
  lemma CacheSuffixIff(name: string, ext: string)
    requires ext == ".pyc" || ext == ".pyo"
    ensures Suffix(name) == ext <==> |name| > 4 && name[|name| - 4..] == ext
  {
    var i := LastDot(name);
    if |name| > 4 && name[|name| - 4..] == ext {
      assert name[|name| - 4] == ext[0] && name[|name| - 3] == ext[1];
      assert name[|name| - 2] == ext[2] && name[|name| - 1] == ext[3];
      assert i == |name| - 4;
    }
  }

  // Only the top-level ciphertext is excluded by name: the same name deeper in the tree is hashed.
  lemma SealedFileOnlyAtTop(p: Path)
    requires IsPath(p)
    ensures Join(p) == SEALED_CREDENTIAL_FILENAME <==> p == [SEALED_CREDENTIAL_FILENAME]
  {
    if Join(p) == SEALED_CREDENTIAL_FILENAME {
      assert IsPath([SEALED_CREDENTIAL_FILENAME]) && Join([SEALED_CREDENTIAL_FILENAME]) == SEALED_CREDENTIAL_FILENAME;
      JoinIsInjective(p, [SEALED_CREDENTIAL_FILENAME]);
    }
  }

  // ---- path order -------------------------------------------------------------------------

  predicate Lex<T(==)>(less: (T, T) -> bool, a: seq<T>, b: seq<T>) {
    if b == [] then false
    else if a == [] then true
    else if a[0] == b[0] then Lex(less, a[1..], b[1..])
    else less(a[0], b[0])
  }

  predicate CharLess(c: char, d: char) { c < d }

  // String order by code point.
  predicate StringLess(a: string, b: string) { Lex(CharLess, a, b) }

  // The order of Path objects: by parts, each part as a string.
  predicate PathLess(a: Path, b: Path) { Lex(StringLess, a, b) }

  ghost predicate StrictTotal<T(!new)>(less: (T, T) -> bool) {
    && (forall x :: !less(x, x))
    && (forall x, y, z :: less(x, y) && less(y, z) ==> less(x, z))
    && (forall x, y :: x == y || less(x, y) || less(y, x))
  }

  lemma {:induction false} LexIrreflexive<T(!new)>(less: (T, T) -> bool, a: seq<T>)
    ensures !Lex(less, a, a)
  {
    if a != [] { LexIrreflexive(less, a[1..]); }
  }

  lemma {:induction false} LexTransitive<T(!new)>(less: (T, T) -> bool, a: seq<T>, b: seq<T>, c: seq<T>)
    requires StrictTotal(less) && Lex(less, a, b) && Lex(less, b, c)
    ensures Lex(less, a, c)
  {
    if a != [] && a[0] == b[0] == c[0] { LexTransitive(less, a[1..], b[1..], c[1..]); }
  }

  lemma {:induction false} LexConnected<T(!new)>(less: (T, T) -> bool, a: seq<T>, b: seq<T>)
    requires StrictTotal(less)
    ensures a == b || Lex(less, a, b) || Lex(less, b, a)
  {
    if a != [] && b != [] && a[0] == b[0] {
      LexConnected(less, a[1..], b[1..]);
      assert a == [a[0]] + a[1..] && b == [b[0]] + b[1..];
    }
  }

  lemma LexIsStrictTotal<T(!new)>(less: (T, T) -> bool)
    requires StrictTotal(less)
    ensures StrictTotal((a: seq<T>, b: seq<T>) => Lex(less, a, b))
  {
    forall a: seq<T> ensures !Lex(less, a, a) { LexIrreflexive(less, a); }
    forall a: seq<T>, b: seq<T>, c: seq<T> | Lex(less, a, b) && Lex(less, b, c) ensures Lex(less, a, c) {
      LexTransitive(less, a, b, c);
    }
    forall a: seq<T>, b: seq<T> ensures a == b || Lex(less, a, b) || Lex(less, b, a) { LexConnected(less, a, b); }
  }

  // Path order is a strict total order, so a set of paths has one sorted listing.
  lemma PathOrderIsStrictTotal()
    ensures StrictTotal(PathLess)
  {
    assert StrictTotal(CharLess);
    LexIsStrictTotal(CharLess);
    assert StrictTotal(StringLess) by {
      var f := (a: string, b: string) => Lex(CharLess, a, b);
      assert StrictTotal(f);
      assert forall a: string, b: string :: f(a, b) == StringLess(a, b);
    }
    LexIsStrictTotal(StringLess);
    var g := (a: Path, b: Path) => Lex(StringLess, a, b);
    assert StrictTotal(g);
    assert forall a: Path, b: Path :: g(a, b) == PathLess(a, b);
  }

  // Characters with the slash ranked below every other.
  predicate SlashFirst(c: char, d: char) { c != d && (c == '/' || (d != '/' && c < d)) }

  lemma {:induction false} LexCommonPrefix<T>(less: (T, T) -> bool, p: seq<T>, x: seq<T>, y: seq<T>)
    ensures Lex(less, p + x, p + y) <==> Lex(less, x, y)
  {
    if p == [] {
      assert p + x == x && p + y == y;
    } else {
      assert (p + x)[1..] == p[1..] + x && (p + y)[1..] == p[1..] + y;
      LexCommonPrefix(less, p[1..], x, y);
    }
  }

  // Two different parts decide the order of the joined paths, whatever follows them.
  lemma {:induction false} PartsDecide(p: string, q: string, x: string, y: string)
    requires p != q
    requires (forall i | 0 <= i < |p| :: p[i] != '/') && (forall i | 0 <= i < |q| :: q[i] != '/')
    requires (x == "" || x[0] == '/') && (y == "" || y[0] == '/')
    ensures Lex(SlashFirst, p + x, q + y) <==> StringLess(p, q)
  {
    if p == "" {
      assert p + x == x && (q + y)[0] == q[0];
    } else if q == "" {
      assert q + y == y && (p + x)[0] == p[0];
    } else if p[0] == q[0] {
      assert (p + x)[1..] == p[1..] + x && (q + y)[1..] == q[1..] + y;
      assert p == [p[0]] + p[1..] && q == [q[0]] + q[1..];
      PartsDecide(p[1..], q[1..], x, y);
    }
  }

  // Sorting Path objects is sorting the joined strings with the slash below every other character,
  // and so differs from sorting the plain strings.
  lemma {:induction false} PathOrderIsSlashFirst(a: Path, b: Path)
    requires IsPath(a) && IsPath(b)
    ensures PathLess(a, b) <==> Lex(SlashFirst, Join(a), Join(b))
  {
    JoinHead(a);
    JoinHead(b);
    var x := if |a| == 1 then "" else "/" + Join(a[1..]);
    var y := if |b| == 1 then "" else "/" + Join(b[1..]);
    assert Join(a) == a[0] + x && Join(b) == b[0] + y;
    if a[0] != b[0] {
      assert IsPart(a[0]) && IsPart(b[0]);
      PartsDecide(a[0], b[0], x, y);
    } else {
      LexCommonPrefix(SlashFirst, a[0], x, y);
      assert PathLess(a, b) <==> Lex(StringLess, a[1..], b[1..]);
      if |a| > 1 && |b| > 1 {
        assert x[1..] == Join(a[1..]) && y[1..] == Join(b[1..]);
        assert Lex(SlashFirst, x, y) <==> Lex(SlashFirst, x[1..], y[1..]);
        PathOrderIsSlashFirst(a[1..], b[1..]);
      }
    }
  }

  lemma PlainStringOrderDiffers()
    ensures PathLess(["helpers", "util.py"], ["helpers-extra.py"])
    ensures !StringLess(Join(["helpers", "util.py"]), Join(["helpers-extra.py"]))
  {
    var p, q, r := "helpers", "/util.py", "-extra.py";
    assert Join(["helpers", "util.py"]) == p + q && Join(["helpers-extra.py"]) == p + r;
    LexCommonPrefix(CharLess, p, q, r);
    assert p + "" == p;
    LexCommonPrefix(CharLess, p, "", r);
    assert p != p + r;
  }

  // ---- the walk and its sorted listing ----------------------------------------------------

  // What a walk finds: a directory (or a link to one), a regular file, or anything else.
  datatype Kind = Directory | Regular | Irregular

  datatype Found = Found(path: Path, kind: Kind, content: seq<Byte>)

  datatype File = File(path: Path, content: seq<Byte>)

  // A walk lists each path once.
  ghost predicate IsWalk(walk: seq<Found>) {
    && (forall i | 0 <= i < |walk| :: IsPath(walk[i].path))
    && forall i, j | 0 <= i < j < |walk| :: walk[i].path != walk[j].path
  }

  function Insert(e: Found, s: seq<Found>): seq<Found> {
    if s == [] || PathLess(e.path, s[0].path) then [e] + s else [s[0]] + Insert(e, s[1..])
  }

  // sorted(walk)
  function Sorted(walk: seq<Found>): seq<Found> {
    if walk == [] then [] else Insert(walk[0], Sorted(walk[1..]))
  }

  ghost predicate InOrder(s: seq<Found>) { forall i, j | 0 <= i < j < |s| :: PathLess(s[i].path, s[j].path) }

  lemma {:induction false} InsertInOrder(e: Found, s: seq<Found>)
    requires InOrder(s) && forall i | 0 <= i < |s| :: s[i].path != e.path
    ensures InOrder(Insert(e, s)) && Elements(Insert(e, s)) == {e} + Elements(s)
  {
    PathOrderIsStrictTotal();
    if s != [] && !PathLess(e.path, s[0].path) {
      InsertInOrder(e, s[1..]);
      var t := Insert(e, s[1..]);
      assert Elements(s) == {s[0]} + Elements(s[1..]);
      forall j | 0 <= j < |t| ensures PathLess(s[0].path, t[j].path) {
        assert t[j] in Elements(t);
        if t[j] != e {
          var k :| 0 <= k < |s[1..]| && s[1..][k] == t[j];
          assert s[k + 1] == t[j];
        }
      }
      assert Elements([s[0]] + t) == {s[0]} + Elements(t);
    } else {
      assert Elements([e] + s) == {e} + Elements(s);
    }
  }

  lemma {:induction false} SortedInOrder(walk: seq<Found>)
    requires IsWalk(walk)
    ensures InOrder(Sorted(walk)) && Elements(Sorted(walk)) == Elements(walk)
  {
    if walk != [] {
      SortedInOrder(walk[1..]);
      assert Elements(walk) == {walk[0]} + Elements(walk[1..]);
      var s := Sorted(walk[1..]);
      forall i | 0 <= i < |s| ensures s[i].path != walk[0].path {
        assert s[i] in Elements(s);
        var k :| 0 <= k < |walk[1..]| && walk[1..][k] == s[i];
        assert walk[k + 1] == s[i];
      }
      InsertInOrder(walk[0], s);
    }
  }

  // ---- the bytes that are hashed ----------------------------------------------------------

  function Power256(width: nat): nat { if width == 0 then 1 else 256 * Power256(width - 1) }

  // n.to_bytes(width, "big"), for n that fits
  function BigEndian(n: nat, width: nat): (bs: seq<Byte>)
    ensures |bs| == width
  {
    if width == 0 then [] else BigEndian(n / 256, width - 1) + [n % 256]
  }

  function FromBigEndian(bs: seq<Byte>): nat {
    if bs == [] then 0 else 256 * FromBigEndian(bs[..|bs| - 1]) + bs[|bs| - 1]
  }

  lemma {:induction false} BigEndianRoundTrip(n: nat, width: nat)
    requires n < Power256(width)
    ensures FromBigEndian(BigEndian(n, width)) == n
  {
    if width > 0 {
      BigEndianRoundTrip(n / 256, width - 1);
      assert BigEndian(n, width)[..width - 1] == BigEndian(n / 256, width - 1);
    }
  }

  // The least significant byte comes last.
  lemma BigEndianIs(n: nat, least: nat, width: nat)
    requires least < 256
    ensures BigEndian(256 * n + least, width + 1) == BigEndian(n, width) + [least]
  {
  }

  // The length fields hold 4 and 8 bytes; anything longer cannot be written.
  predicate Fits(f: File) { |Utf8(Join(f.path))| < Power256(4) && |f.content| < Power256(8) }

  lemma FitsIff(f: File)
    ensures Fits(f) <==> |Utf8(Join(f.path))| < 0x1_0000_0000 && |f.content| < 0x1_0000_0000_0000_0000
  {
    assert Power256(4) == 0x1_0000_0000;
    assert Power256(8) == 0x1_0000_0000 * Power256(4);
  }

  function Frame(f: File): seq<Byte> {
    var name := Utf8(Join(f.path));
    BigEndian(|name|, 4) + name + BigEndian(|f.content|, 8) + f.content
  }

  function Frames(files: seq<File>): seq<Byte> {
    if files == [] then [] else Frames(files[..|files| - 1]) + Frame(files[|files| - 1])
  }

  // The domain tag: "kata-miner-credential-bundle-v1" in ASCII, NUL-terminated.
  function DomainTag(): seq<Byte> {
    [107, 97, 116, 97, 45, 109, 105, 110, 101, 114, 45, 99, 114, 101, 100, 101,
     110, 116, 105, 97, 108, 45, 98, 117, 110, 100, 108, 101, 45, 118, 49, 0]
  }

  // The tag's text, in three pieces.
  lemma DomainTagIs()
    ensures DomainTag()[..11] == Ascii("kata-miner-")
    ensures DomainTag()[11..22] == Ascii("credential-")
    ensures DomainTag()[22..] == Ascii("bundle-v1") + [0]
  {
    TagStarts();
    TagGoesOn();
    TagEnds();
  }

  lemma TagStarts()
    ensures DomainTag()[..11] == Ascii("kata-miner-")
  {
  }

  lemma TagGoesOn()
    ensures DomainTag()[11..22] == Ascii("credential-")
  {
  }

  lemma TagEnds()
    ensures DomainTag()[22..] == Ascii("bundle-v1") + [0]
  {
  }

  // Everything below holds for any tag; the room uses DomainTag().
  function Stream(tag: seq<Byte>, files: seq<File>): seq<Byte> { tag + Frames(files) }

  // An independent reader of such a stream: encoded paths and contents.
  datatype Framed = Framed(name: seq<Byte>, content: seq<Byte>)

  function ReadFrames(s: seq<Byte>): Option<seq<Framed>> {
    if s == [] then Some([])
    else if |s| < 4 then None
    else
      var n := FromBigEndian(s[..4]);
      if |s| < 4 + n + 8 then None
      else
        var m := FromBigEndian(s[4 + n..4 + n + 8]);
        if |s| < 4 + n + 8 + m then None
        else
          var rest := ReadFrames(s[4 + n + 8 + m..]);
          if rest.None? then None
          else Some([Framed(s[4..4 + n], s[4 + n + 8..4 + n + 8 + m])] + rest.value)
  }

  function ReadStream(tag: seq<Byte>, s: seq<Byte>): Option<seq<Framed>> {
    if |s| < |tag| || s[..|tag|] != tag then None else ReadFrames(s[|tag|..])
  }

  function FramedOf(files: seq<File>): seq<Framed> {
    seq(|files|, i requires 0 <= i < |files| => Framed(Utf8(Join(files[i].path)), files[i].content))
  }

  lemma {:induction false} FramesCons(files: seq<File>)
    requires files != []
    ensures Frames(files) == Frame(files[0]) + Frames(files[1..])
  {
    var n := |files| - 1;
    if n > 0 {
      FramesCons(files[..n]);
      assert files[..n][1..] == files[1..][..n - 1];
      Regroup(Frame(files[0]), Frames(files[1..][..n - 1]), Frame(files[n]));
    } else {
      assert Frames(files) == [] + Frame(files[0]);
      assert Frames(files[1..]) == [];
    }
  }

  lemma Regroup(a: seq<Byte>, b: seq<Byte>, c: seq<Byte>)
    ensures (a + b) + c == a + (b + c)
  {
  }

  lemma Slices(a: seq<Byte>, b: seq<Byte>, c: seq<Byte>, d: seq<Byte>, rest: seq<Byte>)
    ensures var s := a + b + c + d + rest;
            var i, j, k := |a|, |a| + |b|, |a| + |b| + |c|;
            s[..i] == a && s[i..j] == b && s[j..k] == c && s[k..k + |d|] == d && s[k + |d|..] == rest
  {
  }

  lemma ReadsFrame(f: File, rest: seq<Byte>)
    requires Fits(f)
    ensures var s := Frame(f) + rest;
            var n, m := |Utf8(Join(f.path))|, |f.content|;
            && |s| >= 4 + n + 8 + m
            && FromBigEndian(s[..4]) == n && s[4..4 + n] == Utf8(Join(f.path))
            && FromBigEndian(s[4 + n..4 + n + 8]) == m && s[4 + n + 8..4 + n + 8 + m] == f.content
            && s[4 + n + 8 + m..] == rest
  {
    var name := Utf8(Join(f.path));
    BigEndianRoundTrip(|name|, 4);
    BigEndianRoundTrip(|f.content|, 8);
    Slices(BigEndian(|name|, 4), name, BigEndian(|f.content|, 8), f.content, rest);
  }

  lemma {:induction false} FramesDecode(files: seq<File>)
    requires forall i | 0 <= i < |files| :: Fits(files[i])
    ensures ReadFrames(Frames(files)) == Some(FramedOf(files))
  {
    if files != [] {
      FramesCons(files);
      FramesDecode(files[1..]);
      ReadsOne(files[0], Frames(files[1..]));
      FramedCons(files);
    } else {
      assert FramedOf(files) == [];
    }
  }

  lemma FramedCons(files: seq<File>)
    requires files != []
    ensures FramedOf(files) == [Framed(Utf8(Join(files[0].path)), files[0].content)] + FramedOf(files[1..])
  {
  }

  lemma ReadsOne(f: File, rest: seq<Byte>)
    requires Fits(f) && ReadFrames(rest).Some?
    ensures ReadFrames(Frame(f) + rest) == Some([Framed(Utf8(Join(f.path)), f.content)] + ReadFrames(rest).value)
  {
    ReadsFrame(f, rest);
  }

  // The stream is uniquely decodable.
  lemma StreamDecodes(tag: seq<Byte>, files: seq<File>)
    requires forall i | 0 <= i < |files| :: Fits(files[i])
    ensures ReadStream(tag, Stream(tag, files)) == Some(FramedOf(files))
  {
    FramesDecode(files);
    assert Stream(tag, files)[|tag|..] == Frames(files);
  }

  lemma StreamIsInjective(tag: seq<Byte>, a: seq<File>, b: seq<File>)
    requires forall i | 0 <= i < |a| :: Fits(a[i]) && IsPath(a[i].path)
    requires forall i | 0 <= i < |b| :: Fits(b[i]) && IsPath(b[i].path)
    requires Stream(tag, a) == Stream(tag, b)
    ensures a == b
  {
    StreamDecodes(tag, a);
    StreamDecodes(tag, b);
    assert |FramedOf(a)| == |FramedOf(b)|;
    forall i | 0 <= i < |a| ensures a[i] == b[i] {
      assert FramedOf(a)[i] == FramedOf(b)[i];
      Utf8IsInjective(Join(a[i].path), Join(b[i].path));
      JoinIsInjective(a[i].path, b[i].path);
    }
  }

  // ---- the binding of a walk --------------------------------------------------------------

  predicate Hashes(e: Found) { e.kind == Regular && !Excluded(e.path) }

  function FileOf(e: Found): File { File(e.path, e.content) }

  // The files of a listing that are hashed, in its order.
  function Included(listing: seq<Found>): seq<File> {
    if listing == [] then []
    else
      var e := listing[|listing| - 1];
      Included(listing[..|listing| - 1]) + (if Hashes(e) then [FileOf(e)] else [])
  }

  // The set of files the binding promises to cover.
  ghost function Covered(walk: seq<Found>): set<File> { set e | e in walk && Hashes(e) :: FileOf(e) }

  datatype Binding = Hashed(stream: seq<Byte>) | NotRegular | LengthOverflow

  // What stops the loop at one entry, if anything.
  function Fault(e: Found): Option<Binding> {
    if e.kind == Irregular then Some(NotRegular)
    else if Hashes(e) && !Fits(FileOf(e)) then Some(LengthOverflow)
    else None
  }

  // The first entry of a listing that stops the loop.
  function FirstFault(listing: seq<Found>): Option<Binding> {
    if listing == [] then None
    else if Fault(listing[0]).Some? then Fault(listing[0])
    else FirstFault(listing[1..])
  }

  // Past a faultless beginning, the next entry decides.
  lemma {:induction false} FaultStep(listing: seq<Found>, i: nat)
    requires i < |listing| && FirstFault(listing[..i]).None?
    ensures Fault(listing[i]).Some? ==> FirstFault(listing) == Fault(listing[i])
    ensures Fault(listing[i]).None? ==> FirstFault(listing[..i + 1]).None?
  {
    if i > 0 {
      assert listing[..i][1..] == listing[1..][..i - 1] && listing[..i + 1][1..] == listing[1..][..i];
      FaultStep(listing[1..], i - 1);
    } else {
      assert listing[..1][1..] == [];
    }
  }

  lemma {:induction false} NoFault(listing: seq<Found>)
    ensures FirstFault(listing).None? <==> forall i | 0 <= i < |listing| :: Fault(listing[i]).None?
  {
    if listing != [] {
      NoFault(listing[1..]);
      assert forall i | 0 < i < |listing| :: listing[i] == listing[1..][i - 1];
    }
  }

  // One file's four digest updates.
  method Update(fed: seq<Byte>, f: File) returns (digest: Option<seq<Byte>>)
    ensures digest == if Fits(f) then Some(fed + Frame(f)) else None
  {
    var name := Utf8(Join(f.path));
    if |name| >= Power256(4) || |f.content| >= Power256(8) { return None; }
    var a, b := BigEndian(|name|, 4), BigEndian(|f.content|, 8);
    var d := fed + a;
    d := d + name;
    d := d + b;
    d := d + f.content;
    assert d == fed + (a + name + b + f.content);
    digest := Some(d);
  }

  // One turn of the loop.
  method Feed(fed: seq<Byte>, e: Found) returns (r: Result<seq<Byte>, Binding>)
    ensures r == match Fault(e)
                 case Some(fault) => Err(fault)
                 case None => Ok(if Hashes(e) then fed + Frame(FileOf(e)) else fed)
  {
    if e.kind == Directory { return Ok(fed); }
    if e.kind != Regular { return Err(NotRegular); }
    if Excluded(e.path) { return Ok(fed); }
    var digest := Update(fed, FileOf(e));
    if digest.None? { return Err(LengthOverflow); }
    r := Ok(digest.value);
  }

  // The hashing loop: the digest is fed file by file, and the pieces add up to the stream.
  method HashListing(tag: seq<Byte>, listing: seq<Found>) returns (r: Binding)
    ensures r == match FirstFault(listing)
                 case Some(fault) => fault
                 case None => Hashed(Stream(tag, Included(listing)))
  {
    var fed := tag;
    for i := 0 to |listing|
      invariant fed == Stream(tag, Included(listing[..i]))
      invariant FirstFault(listing[..i]).None?
    {
      var next := Feed(fed, listing[i]);
      FaultStep(listing, i);
      if next.Err? { return next.error; }
      IncludedStep(tag, listing, i);
      fed := next.value;
    }
    assert listing[..|listing|] == listing;
    r := Hashed(fed);
  }

  // The outcome for a walk: its first fault in path order, or its stream.
  function BindingOf(tag: seq<Byte>, walk: seq<Found>): Binding {
    match FirstFault(Sorted(walk))
    case Some(fault) => fault
    case None => Hashed(Stream(tag, Included(Sorted(walk))))
  }

  method CredentialBundleBinding(walk: seq<Found>) returns (r: Binding)
    ensures r == BindingOf(DomainTag(), walk)
  {
    var listing := Sorted(walk);
    r := HashListing(DomainTag(), listing);
  }

  lemma IncludedStep(tag: seq<Byte>, listing: seq<Found>, i: nat)
    requires i < |listing|
    ensures Stream(tag, Included(listing[..i + 1]))
         == if Hashes(listing[i]) then Stream(tag, Included(listing[..i])) + Frame(FileOf(listing[i]))
            else Stream(tag, Included(listing[..i]))
  {
    assert listing[..i + 1][..i] == listing[..i];
    if Hashes(listing[i]) {
      FramesSnoc(Included(listing[..i]), FileOf(listing[i]));
      var x, y := Frames(Included(listing[..i])), Frame(FileOf(listing[i]));
      assert tag + (x + y) == tag + x + y;
    } else {
      assert Included(listing[..i]) + [] == Included(listing[..i]);
    }
  }

  lemma FramesSnoc(files: seq<File>, f: File)
    ensures Frames(files + [f]) == Frames(files) + Frame(f)
  {
    assert (files + [f])[..|files|] == files;
  }

  // ---- what the binding covers ------------------------------------------------------------

  predicate FilesInOrder(files: seq<File>) {
    forall i, j | 0 <= i < j < |files| :: PathLess(files[i].path, files[j].path)
  }

  lemma {:induction false} IncludedFacts(listing: seq<Found>)
    requires InOrder(listing)
    ensures FilesInOrder(Included(listing)) && Elements(Included(listing)) == Covered(listing)
  {
    if listing != [] {
      var n := |listing| - 1;
      var before, e := Included(listing[..n]), listing[n];
      IncludedFacts(listing[..n]);
      IncludedIsCovered(listing);
      forall f | f in before ensures PathLess(f.path, e.path) { IncludedIsListed(listing[..n], f, n, listing); }
    }
  }

  lemma IncludedIsListed(before: seq<Found>, f: File, n: nat, listing: seq<Found>)
    requires n < |listing| && before == listing[..n] && InOrder(listing)
    requires f in Included(before)
    ensures PathLess(f.path, listing[n].path)
  {
    IncludedIsCovered(before);
    assert f in Elements(Included(before));
    var d :| d in before && Hashes(d) && FileOf(d) == f;
    var k :| 0 <= k < n && listing[k] == d;
  }

  lemma {:induction false} IncludedIsCovered(listing: seq<Found>)
    ensures Elements(Included(listing)) == Covered(listing)
  {
    if listing != [] {
      var n := |listing| - 1;
      var before, e := Included(listing[..n]), listing[n];
      IncludedIsCovered(listing[..n]);
      assert listing == listing[..n] + [e];
      assert Covered(listing) == Covered(listing[..n]) + (if Hashes(e) then {FileOf(e)} else {});
      assert Elements(before + [FileOf(e)]) == Elements(before) + {FileOf(e)};
    }
  }

  // A set of things with distinct paths has one listing in path order.
  ghost predicate OrderedBy<T>(path: T -> Path, s: seq<T>) {
    forall i, j | 0 <= i < j < |s| :: PathLess(path(s[i]), path(s[j]))
  }

  lemma {:induction false} OneOrderedListing<T>(path: T -> Path, a: seq<T>, b: seq<T>)
    requires OrderedBy(path, a) && OrderedBy(path, b) && Elements(a) == Elements(b)
    ensures a == b
  {
    EmptyIff(a);
    EmptyIff(b);
    if a != [] {
      assert a[0] in Elements(b);
      assert b[0] in Elements(a) by { assert b[0] in Elements(b); }
      SameHead(path, a, b);
      TailElements(path, a);
      TailElements(path, b);
      OneOrderedListing(path, a[1..], b[1..]);
    }
  }

  lemma EmptyIff<T>(a: seq<T>)
    ensures a == [] <==> Elements(a) == {}
  {
    if a != [] { assert a[0] in Elements(a); }
  }

  lemma SameHead<T>(path: T -> Path, a: seq<T>, b: seq<T>)
    requires a != [] && b != [] && OrderedBy(path, a) && OrderedBy(path, b) && a[0] in b && b[0] in a
    ensures a[0] == b[0]
  {
    PathOrderIsStrictTotal();
  }

  lemma TailElements<T>(path: T -> Path, a: seq<T>)
    requires a != [] && OrderedBy(path, a)
    ensures Elements(a[1..]) == Elements(a) - {a[0]}
  {
    PathOrderIsStrictTotal();
  }

  // Whatever order a walk lists the tree in, the sorted listing is the same, so the whole outcome of
  // the binding is: stream and failures alike.
  lemma WalkOrderIsIrrelevant(a: seq<Found>, b: seq<Found>)
    requires IsWalk(a) && IsWalk(b) && Elements(a) == Elements(b)
    ensures Sorted(a) == Sorted(b)
  {
    SortedInOrder(a);
    SortedInOrder(b);
    OneOrderedListing((e: Found) => e.path, Sorted(a), Sorted(b));
  }

  lemma WalkCovers(walk: seq<Found>)
    requires IsWalk(walk)
    ensures var files := Included(Sorted(walk));
            FilesInOrder(files) && Elements(files) == Covered(walk) && forall f | f in files :: IsPath(f.path)
  {
    SortedInOrder(walk);
    IncludedFacts(Sorted(walk));
    assert Covered(Sorted(walk)) == Covered(walk) by {
      forall e ensures e in Sorted(walk) <==> e in walk {
        assert e in Elements(Sorted(walk)) <==> e in Elements(walk);
      }
    }
    forall f | f in Included(Sorted(walk)) ensures IsPath(f.path) {
      assert f in Covered(walk);
    }
  }

  // Two bundles bind alike exactly when their covered files are the same: nothing covered can be
  // changed, moved, added or dropped unseen, and nothing else matters, walk order included.
  lemma BindingsEqualIffSameFiles(tag: seq<Byte>, a: seq<Found>, b: seq<Found>)
    requires IsWalk(a) && IsWalk(b)
    requires forall f | f in Covered(a) + Covered(b) :: Fits(f)
    ensures Stream(tag, Included(Sorted(a))) == Stream(tag, Included(Sorted(b))) <==> Covered(a) == Covered(b)
  {
    WalkCovers(a);
    WalkCovers(b);
    var x, y := Included(Sorted(a)), Included(Sorted(b));
    assert forall f | f in x :: f in Elements(x);
    assert forall f | f in y :: f in Elements(y);
    OrderedStreamsEqualIff(tag, x, y);
  }

  lemma OrderedStreamsEqualIff(tag: seq<Byte>, x: seq<File>, y: seq<File>)
    requires FilesInOrder(x) && FilesInOrder(y)
    requires (forall f | f in x :: Fits(f) && IsPath(f.path)) && (forall f | f in y :: Fits(f) && IsPath(f.path))
    ensures Stream(tag, x) == Stream(tag, y) <==> Elements(x) == Elements(y)
  {
    if Stream(tag, x) == Stream(tag, y) {
      StreamIsInjective(tag, x, y);
    } else if Elements(x) == Elements(y) {
      OneOrderedListing((f: File) => f.path, x, y);
    }
  }

  // What an excluded path is, by its parts.
  predicate LeftOut(p: Path) {
    || p == ["sealed_inference_key"] || ".git" in p || "__pycache__" in p
    || (p != [] && |p[|p| - 1]| > 4 && p[|p| - 1][|p[|p| - 1]| - 4..] in {".pyc", ".pyo"})
  }

  lemma ExcludedIff(p: Path)
    requires IsPath(p)
    ensures Excluded(p) <==> LeftOut(p)
  {
    SealedFileOnlyAtTop(p);
    CacheSuffixIff(p[|p| - 1], ".pyc");
    CacheSuffixIff(p[|p| - 1], ".pyo");
  }

  // An entry that raises nothing: not irregular, and not too long for its length fields if hashed.
  predicate Fine(e: Found) {
    && e.kind != Irregular
    && (e.kind == Regular && !LeftOut(e.path) ==>
          |Utf8(Join(e.path))| < 0x1_0000_0000 && |e.content| < 0x1_0000_0000_0000_0000)
  }

  lemma FaultIff(e: Found)
    requires IsPath(e.path)
    ensures Fault(e).None? <==> Fine(e)
    ensures Fault(e) == Some(NotRegular) <==> e.kind == Irregular
    ensures Fault(e).Some? ==> Fault(e).value in {NotRegular, LengthOverflow}
  {
    ExcludedIff(e.path);
    FitsIff(FileOf(e));
  }

  // A tree the binding can be computed over.
  ghost predicate Clean(walk: seq<Found>) {
    forall e | e in walk :: e.kind != Irregular && (Hashes(e) ==> Fits(FileOf(e)))
  }

  lemma {:induction false} InsertElements(e: Found, s: seq<Found>)
    ensures forall x :: x in Insert(e, s) <==> x == e || x in s
  {
    if s != [] && !PathLess(e.path, s[0].path) { InsertElements(e, s[1..]); }
  }

  lemma {:induction false} SortedElements(walk: seq<Found>)
    ensures forall x :: x in Sorted(walk) <==> x in walk
  {
    if walk != [] {
      SortedElements(walk[1..]);
      InsertElements(walk[0], Sorted(walk[1..]));
    }
  }

  lemma CleanIff(walk: seq<Found>)
    ensures FirstFault(Sorted(walk)).None? <==> Clean(walk)
  {
    SortedElements(walk);
    var listing := Sorted(walk);
    NoFault(listing);
    if FirstFault(listing).None? {
      forall e | e in walk ensures Fault(e).None? {
        var i :| 0 <= i < |listing| && listing[i] == e;
      }
    } else {
      var i :| 0 <= i < |listing| && Fault(listing[i]).Some?;
      assert listing[i] in walk;
    }
  }

  // An entry that is not hashed does not change the stream.
  lemma UnhashedIsUnseen(tag: seq<Byte>, walk: seq<Found>, extra: Found)
    requires IsWalk(walk) && IsWalk(walk + [extra]) && !Hashes(extra)
    ensures Stream(tag, Included(Sorted(walk + [extra]))) == Stream(tag, Included(Sorted(walk)))
  {
    WalkCovers(walk);
    WalkCovers(walk + [extra]);
    assert Covered(walk + [extra]) == Covered(walk);
    OneOrderedListing((f: File) => f.path, Included(Sorted(walk + [extra])), Included(Sorted(walk)));
  }

  // The entries of a listing that would stop the loop, in its order.
  function Faulty(listing: seq<Found>): seq<Found> {
    if listing == [] then []
    else (if Fault(listing[0]).Some? then [listing[0]] else []) + Faulty(listing[1..])
  }

  lemma {:induction false} FaultyFacts(listing: seq<Found>)
    ensures FirstFault(listing) == if Faulty(listing) == [] then None else Fault(Faulty(listing)[0])
    ensures forall e :: e in Faulty(listing) <==> e in listing && Fault(e).Some?
  {
    if listing != [] {
      FaultyFacts(listing[1..]);
      assert listing == [listing[0]] + listing[1..];
    }
  }

  lemma {:induction false} FaultyInOrder(listing: seq<Found>)
    requires InOrder(listing)
    ensures InOrder(Faulty(listing))
  {
    if listing != [] {
      FaultyInOrder(listing[1..]);
      FaultyFacts(listing[1..]);
      var rest := Faulty(listing[1..]);
      forall j | 0 <= j < |rest| ensures PathLess(listing[0].path, rest[j].path) {
        assert rest[j] in listing[1..];
      }
    }
  }

  // Two walks with the same faulty entries fail alike, or neither fails.
  lemma FaultsDecide(a: seq<Found>, b: seq<Found>)
    requires IsWalk(a) && IsWalk(b) && forall e | Fault(e).Some? :: e in a <==> e in b
    ensures FirstFault(Sorted(a)) == FirstFault(Sorted(b))
  {
    var x, y := Sorted(a), Sorted(b);
    SortedInOrder(a);
    SortedInOrder(b);
    FaultyFacts(x);
    FaultyFacts(y);
    FaultyInOrder(x);
    FaultyInOrder(y);
    forall e ensures e in Faulty(x) <==> e in Faulty(y) {
      assert (e in Elements(x) <==> e in Elements(a)) && (e in Elements(y) <==> e in Elements(b));
    }
    OneOrderedListing((e: Found) => e.path, Faulty(x), Faulty(y));
  }

  lemma FaultStops(walk: seq<Found>, e: Found)
    requires IsWalk(walk) && e in walk && Fault(e).Some?
    ensures FirstFault(Sorted(walk)).Some?
  {
    SortedInOrder(walk);
    FaultyFacts(Sorted(walk));
    assert e in Elements(Sorted(walk));
  }

  // Adding an excluded entry that is not irregular - the ciphertext itself, a cache, a directory or
  // a regular file under .git - changes nothing, whatever the walk's outcome was.  On a walk that
  // has a stream, this is exact: the regular-file check comes before the exclusion check, so an
  // irregular entry stops the loop even where nothing would be hashed.
  lemma ExcludedFilesDoNotBind(tag: seq<Byte>, walk: seq<Found>, extra: Found)
    requires IsWalk(walk) && IsWalk(walk + [extra]) && Excluded(extra.path)
    ensures extra.kind != Irregular ==> BindingOf(tag, walk + [extra]) == BindingOf(tag, walk)
    ensures FirstFault(Sorted(walk)).None? ==>
              (BindingOf(tag, walk + [extra]) == BindingOf(tag, walk) <==> extra.kind != Irregular)
  {
    if extra.kind != Irregular {
      FaultsDecide(walk + [extra], walk);
      UnhashedIsUnseen(tag, walk, extra);
    } else {
      FaultStops(walk + [extra], extra);
      OnlyTwoFaults(Sorted(walk + [extra]));
    }
  }

  lemma {:induction false} OnlyTwoFaults(listing: seq<Found>)
    ensures FirstFault(listing) in {None, Some(NotRegular), Some(LengthOverflow)}
  {
    if listing != [] { OnlyTwoFaults(listing[1..]); }
  }

  lemma HashedIff(tag: seq<Byte>, walk: seq<Found>)
    ensures BindingOf(tag, walk).Hashed? <==> Clean(walk)
    ensures BindingOf(tag, walk).Hashed? ==> BindingOf(tag, walk).stream == Stream(tag, Included(Sorted(walk)))
  {
    CleanIff(walk);
    OnlyTwoFaults(Sorted(walk));
  }

  // What the binding skips, in full: on a walk that has a stream, one more entry leaves the outcome
  // alone exactly when it is a directory, or a regular file that is the top-level ciphertext, lies
  // under .git or __pycache__, or has a cache's ending after at least one character.
  lemma ExtraIsUnboundIff(tag: seq<Byte>, walk: seq<Found>, extra: Found)
    requires IsWalk(walk) && IsWalk(walk + [extra]) && BindingOf(tag, walk).Hashed? && extra.path != []
    requires |Utf8(Join(extra.path))| < 0x1_0000_0000 && |extra.content| < 0x1_0000_0000_0000_0000
    ensures var name := extra.path[|extra.path| - 1];
            BindingOf(tag, walk + [extra]) == BindingOf(tag, walk)
            <==> || extra.kind == Directory
                 || (extra.kind == Regular
                     && (|| extra.path == ["sealed_inference_key"]
                         || (exists k | 0 <= k < |extra.path| :: extra.path[k] in {".git", "__pycache__"})
                         || (|name| > 4 && name[|name| - 4..] in {".pyc", ".pyo"})))
  {
    ExtraIsSkippedIff(tag, walk, extra);
    LeftOutIs(extra.path);
  }

  lemma LeftOutIs(p: Path)
    requires p != []
    ensures var name := p[|p| - 1];
            LeftOut(p) <==> || p == ["sealed_inference_key"]
                            || (exists k | 0 <= k < |p| :: p[k] in {".git", "__pycache__"})
                            || (|name| > 4 && name[|name| - 4..] in {".pyc", ".pyo"})
  {
  }

  lemma ExtraIsSkippedIff(tag: seq<Byte>, walk: seq<Found>, extra: Found)
    requires IsWalk(walk) && IsWalk(walk + [extra]) && BindingOf(tag, walk).Hashed?
    requires |Utf8(Join(extra.path))| < 0x1_0000_0000 && |extra.content| < 0x1_0000_0000_0000_0000
    ensures BindingOf(tag, walk + [extra]) == BindingOf(tag, walk)
       <==> extra.kind == Directory || (extra.kind == Regular && LeftOut(extra.path))
  {
    assert extra == (walk + [extra])[|walk|] && IsPath(extra.path);
    ExcludedIff(extra.path);
    FitsIff(FileOf(extra));
    HashedIff(tag, walk);
    HashedIff(tag, walk + [extra]);
    if Hashes(extra) {
      HashedIsSeen(tag, walk, extra);
    } else if extra.kind != Irregular {
      UnhashedIsUnseen(tag, walk, extra);
    }
  }

  lemma HashedIsSeen(tag: seq<Byte>, walk: seq<Found>, extra: Found)
    requires IsWalk(walk) && IsWalk(walk + [extra]) && Hashes(extra) && Clean(walk + [extra])
    ensures Stream(tag, Included(Sorted(walk + [extra]))) != Stream(tag, Included(Sorted(walk)))
  {
    assert FileOf(extra) in Covered(walk + [extra]) by { assert extra in walk + [extra]; }
    forall e | e in walk ensures e.path != extra.path {
      var i :| 0 <= i < |walk| && walk[i] == e;
      assert (walk + [extra])[i].path != (walk + [extra])[|walk|].path;
    }
    CoveredFit(walk + [extra]);
    assert forall e | e in walk :: e in walk + [extra];
    CoveredFit(walk);
    BindingsEqualIffSameFiles(tag, walk + [extra], walk);
  }

  lemma CoveredFit(walk: seq<Found>)
    requires Clean(walk)
    ensures forall f | f in Covered(walk) :: Fits(f)
  {
    forall f | f in Covered(walk) ensures Fits(f) {
      var e :| e in walk && Hashes(e) && FileOf(e) == f;
    }
  }

  // What two equal bindings share: the regular files that are not left out, all of them and nothing
  // else.
  lemma EqualBindingsShare(tag: seq<Byte>, a: seq<Found>, b: seq<Found>)
    requires IsWalk(a) && IsWalk(b) && BindingOf(tag, a).Hashed? && BindingOf(tag, b).Hashed?
    ensures BindingOf(tag, a) == BindingOf(tag, b)
       <==> forall e: Found | e.kind == Regular && IsPath(e.path) && !LeftOut(e.path) :: e in a <==> e in b
  {
    HashedIff(tag, a);
    HashedIff(tag, b);
    CoveredFit(a);
    CoveredFit(b);
    BindingsEqualIffSameFiles(tag, a, b);
    CoveredIff(a, b);
  }

  lemma CoveredIff(a: seq<Found>, b: seq<Found>)
    requires IsWalk(a) && IsWalk(b)
    ensures Covered(a) == Covered(b)
       <==> forall e: Found | e.kind == Regular && IsPath(e.path) && !LeftOut(e.path) :: e in a <==> e in b
  {
    forall e: Found | IsPath(e.path) ensures Excluded(e.path) <==> LeftOut(e.path) { ExcludedIff(e.path); }
    CoveredHas(a);
    CoveredHas(b);
    if Covered(a) == Covered(b) {
      forall e: Found | e.kind == Regular && IsPath(e.path) && !LeftOut(e.path) ensures e in a <==> e in b {
        assert FileOf(e) in Covered(a) <==> FileOf(e) in Covered(b);
      }
    }
    if forall e: Found | e.kind == Regular && IsPath(e.path) && !LeftOut(e.path) :: e in a <==> e in b {
      forall f ensures f in Covered(a) <==> f in Covered(b) {
        var e := Found(f.path, Regular, f.content);
        assert FileOf(e) == f;
      }
    }
  }

  lemma CoveredHas(walk: seq<Found>)
    requires IsWalk(walk)
    ensures forall f :: f in Covered(walk)
                   <==> var e := Found(f.path, Regular, f.content); e in walk && IsPath(e.path) && !Excluded(e.path)
  {
    forall f
      ensures f in Covered(walk)
         <==> var e := Found(f.path, Regular, f.content); e in walk && IsPath(e.path) && !Excluded(e.path)
    {
      if f in Covered(walk) {
        var e :| e in walk && Hashes(e) && FileOf(e) == f;
        var i :| 0 <= i < |walk| && walk[i] == e;
        assert e == Found(f.path, Regular, f.content);
      } else {
        assert FileOf(Found(f.path, Regular, f.content)) == f;
      }
    }
  }

  // Which failure a tree has: that of the first entry in path order that is not fine.
  lemma FailureIs(tag: seq<Byte>, walk: seq<Found>)
    requires IsWalk(walk)
    ensures BindingOf(tag, walk).Hashed? <==> forall e | e in walk :: Fine(e)
    ensures forall e | e in walk && !Fine(e) && (forall d | d in walk && PathLess(d.path, e.path) :: Fine(d)) ::
              BindingOf(tag, walk) == if e.kind == Irregular then NotRegular else LengthOverflow
  {
    var listing := Sorted(walk);
    SortedInOrder(walk);
    SortedElements(walk);
    FaultyFacts(listing);
    FaultyInOrder(listing);
    OnlyTwoFaults(listing);
    forall e | e in walk ensures IsPath(e.path) && (Fault(e).None? <==> Fine(e)) {
      var i :| 0 <= i < |walk| && walk[i] == e;
      FaultIff(e);
    }
    forall e | e in walk && !Fine(e) && (forall d | d in walk && PathLess(d.path, e.path) :: Fine(d))
      ensures BindingOf(tag, walk) == if e.kind == Irregular then NotRegular else LengthOverflow
    {
      FirstOfFaulty(Faulty(listing), e);
      FaultIff(e);
    }
  }

  lemma FirstOfFaulty(faulty: seq<Found>, e: Found)
    requires InOrder(faulty) && e in faulty && forall d | d in faulty :: !PathLess(d.path, e.path)
    ensures faulty[0] == e
  {
    var i :| 0 <= i < |faulty| && faulty[i] == e;
    assert faulty[0] in faulty;
  }

  // A socket that version control leaves under .git stops a binding that succeeds without it.
  lemma SocketUnderGitStops(tag: seq<Byte>)
    ensures var socket := Found([".git", "fsmonitor--daemon.ipc"], Irregular, []);
            Excluded(socket.path) && BindingOf(tag, []).Hashed? && BindingOf(tag, [socket]) == NotRegular
  {
    var socket := Found([".git", "fsmonitor--daemon.ipc"], Irregular, []);
    assert ".git" in socket.path;
    assert [socket][1..] == [] && Sorted([]) == [];
    assert Sorted([socket]) == [socket];
    assert Fault(socket) == Some(NotRegular);
  }

  // ---- the size policy of extraction ------------------------------------------------------

  // The length of n bytes in padded base64.
  function Base64Length(n: nat): (length: nat)
    ensures length % 4 == 0 && length / 4 * 3 - 3 < n <= length / 4 * 3
  {
    (n + 2) / 3 * 4
  }

  // The cheap check on the encoded length refuses no bundle the check on the decoded length would
  // take, and lets through at most two bytes too many.
  lemma EncodedCheckIsSound(n: nat, maxCompressed: nat)
    ensures n <= maxCompressed ==> Base64Length(n) <= Base64Length(maxCompressed)
    ensures Base64Length(n) <= Base64Length(maxCompressed) ==> n <= maxCompressed + 2
  {
  }
}
