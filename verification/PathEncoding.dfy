/** Percent-encoding a repository path into a URL (crates/api/src/github.rs), against the
    decoding of section 2.1 of RFC 3986. */
module PathEncoding {
  import opened Prelude

  type Bytes = seq<byte>

  const PERCENT: byte := 37
  const SLASH: byte := 47
  const QUESTION: byte := 63

  predicate IsUpper(b: byte) { 65 <= b <= 90 }

  predicate IsLower(b: byte) { 97 <= b <= 122 }

  predicate IsDigit(b: byte) { 48 <= b <= 57 }

  /** `is_ascii_alphanumeric`, or one of `-`, `_`, `.` and `~`: the unreserved characters of
      section 2.3. */
  predicate Unreserved(b: byte)
  {
    IsUpper(b) || IsLower(b) || IsDigit(b) || b == 45 || b == 95 || b == 46 || b == 126
  }

  /** The digits "0123456789ABCDEF". */
  function Hex(n: nat): byte
    requires n < 16
  {
    if n < 10 then 48 + n else 55 + n
  }

  function Escaped(b: byte): Bytes
  {
    if Unreserved(b) then [b] else [PERCENT, Hex(b / 16), Hex(b % 16)]
  }

  function Encoded(segment: Bytes): Bytes
  {
    if segment == [] then [] else Encoded(segment[..|segment| - 1]) + Escaped(segment[|segment| - 1])
  }

  /** `urlencoding`. */
  method UrlEncoding(segment: Bytes) returns (encoded: Bytes)
    ensures encoded == Encoded(segment)
  {
    encoded := [];
    for i := 0 to |segment|
      invariant encoded == Encoded(segment[..i])
    {
      assert segment[..i + 1][..i] == segment[..i];
      var b := segment[i];
      if IsUpper(b) || IsLower(b) || IsDigit(b) || b in [45, 95, 46, 126] {
        encoded := encoded + [b];
      } else {
        encoded := encoded + [PERCENT];
        encoded := encoded + [Hex(b / 16)];
        encoded := encoded + [Hex(b % 16)];
      }
    }
    assert segment[..|segment|] == segment;
  }

  // ── Decoding ──

  /** Section 2.1: hexadecimal digits of either case. */
  function HexValue(b: byte): Option<nat>
  {
    if IsDigit(b) then Some(b - 48)
    else if 65 <= b <= 70 then Some(b - 55)
    else if 97 <= b <= 102 then Some(b - 87)
    else None
  }

  function Decoded(bytes: Bytes): Option<Bytes>
  {
    if bytes == [] then Some([])
    else if bytes[0] != PERCENT then
      var rest := Decoded(bytes[1..]);
      if rest.None? then None else Some([bytes[0]] + rest.value)
    else if |bytes| < 3 || HexValue(bytes[1]).None? || HexValue(bytes[2]).None? then None
    else
      var rest := Decoded(bytes[3..]);
      if rest.None? then None else Some([HexValue(bytes[1]).value * 16 + HexValue(bytes[2]).value] + rest.value)
  }

  lemma HexReads(n: nat)
    requires n < 16
    ensures HexValue(Hex(n)) == Some(n)
  {
  }

  lemma EscapedReads(b: byte, rest: Bytes)
    ensures Decoded(Escaped(b) + rest) == if Decoded(rest).None? then None else Some([b] + Decoded(rest).value)
  {
    var bytes := Escaped(b) + rest;
    HexReads(b / 16);
    HexReads(b % 16);
    assert Unreserved(b) ==> bytes[1..] == rest;
    assert !Unreserved(b) ==> bytes[3..] == rest;
  }

  lemma {:induction false} EncodedThenRest(segment: Bytes, rest: Bytes)
    requires Decoded(rest).Some?
    ensures Decoded(Encoded(segment) + rest) == Some(segment + Decoded(rest).value)
  {
    hide Escaped, Decoded;
    if segment == [] {
      assert [] + rest == rest;
      assert [] + Decoded(rest).value == Decoded(rest).value;
    } else {
      var init, last := segment[..|segment| - 1], segment[|segment| - 1];
      EscapedReads(last, rest);
      EncodedThenRest(init, Escaped(last) + rest);
      assert Encoded(segment) + rest == Encoded(init) + (Escaped(last) + rest);
      assert init + ([last] + Decoded(rest).value) == segment + Decoded(rest).value;
    }
  }

  /** The letters, digits and four marks of section 2.3 of RFC 3986. */
  predicate Plain(b: byte)
  {
    65 <= b <= 90 || 97 <= b <= 122 || 48 <= b <= 57 || b in {45, 46, 95, 126}
  }

  lemma EscapedLength(b: byte)
    ensures if Plain(b) then Escaped(b) == [b] else |Escaped(b)| == 3
  {
  }

  /** How many bytes of a segment are others. */
  function Others(segment: Bytes): nat
  {
    if segment == [] then 0 else Others(segment[..|segment| - 1]) + if Plain(segment[|segment| - 1]) then 0 else 1
  }

  /** Those bytes are left as they are, and every other takes three: so a segment is left as it is
      exactly if it has no other. */
  lemma {:induction false} OnlyPlainBytesStay(segment: Bytes)
    ensures |Encoded(segment)| == |segment| + 2 * Others(segment)
    ensures Encoded(segment) == segment <==> Others(segment) == 0
  {
    hide Escaped, Plain;
    if segment != [] {
      var init, last := segment[..|segment| - 1], segment[|segment| - 1];
      OnlyPlainBytesStay(init);
      EscapedLength(last);
      assert segment == init + [last];
    }
  }

  /** Every byte string comes back from its encoding. */
  lemma EncodingReadsBack(segment: Bytes)
    ensures Decoded(Encoded(segment)) == Some(segment)
  {
    EncodedThenRest(segment, []);
    assert Encoded(segment) + [] == Encoded(segment);
    assert segment + [] == segment;
  }

  /** Only unreserved characters and triplets of a percent sign and two upper-case digits. */
  predicate Triplets(bytes: Bytes)
  {
    || bytes == []
    || (Unreserved(bytes[0]) && Triplets(bytes[1..]))
    || (bytes[0] == PERCENT && |bytes| >= 3 && IsUpperHex(bytes[1]) && IsUpperHex(bytes[2]) && Triplets(bytes[3..]))
  }

  predicate IsUpperHex(b: byte) { IsDigit(b) || 65 <= b <= 70 }

  lemma {:induction false} EncodedIsTriplets(segment: Bytes, rest: Bytes)
    requires Triplets(rest)
    ensures Triplets(Encoded(segment) + rest)
  {
    if segment == [] {
      assert [] + rest == rest;
    } else {
      var init, last := segment[..|segment| - 1], segment[|segment| - 1];
      var more := Escaped(last) + rest;
      assert Unreserved(last) ==> more[1..] == rest;
      assert !Unreserved(last) ==> more[3..] == rest;
      EncodedIsTriplets(init, more);
      assert Encoded(segment) + rest == Encoded(init) + more;
    }
  }

  /** What is encoded is never a delimiter of a path or a URL (section 3.3). */
  lemma {:induction false} EncodedIsSafe(segment: Bytes)
    ensures Triplets(Encoded(segment))
    ensures SLASH !in Encoded(segment) && QUESTION !in Encoded(segment)
  {
    EncodedIsTriplets(segment, []);
    assert Encoded(segment) + [] == Encoded(segment);
    if segment != [] {
      EncodedIsSafe(segment[..|segment| - 1]);
    }
  }

  // ── Paths ──

  /** `split('/')`: at least one segment, and an empty one beside each stray slash. */
  function Split(path: Bytes): (segments: seq<Bytes>)
    ensures segments != []
  {
    if path == [] then [[]]
    else
      var segments := Split(path[..|path| - 1]);
      var last := path[|path| - 1];
      if last == SLASH then segments + [[]]
      else segments[|segments| - 1 := segments[|segments| - 1] + [last]]
  }

  function Join(segments: seq<Bytes>): Bytes
    requires segments != []
  {
    if |segments| == 1 then segments[0] else Join(segments[..|segments| - 1]) + [SLASH] + segments[|segments| - 1]
  }

  function EncodedAll(segments: seq<Bytes>): (r: seq<Bytes>)
    ensures |r| == |segments|
    ensures forall i :: 0 <= i < |r| ==> r[i] == Encoded(segments[i])
  {
    seq(|segments|, i requires 0 <= i < |segments| => Encoded(segments[i]))
  }

  function EncodedPath(path: Bytes): Bytes
  {
    Join(EncodedAll(Split(path)))
  }

  lemma {:induction false} JoinSplit(path: Bytes)
    ensures Join(Split(path)) == path
  {
    if path != [] {
      var init, last := path[..|path| - 1], path[|path| - 1];
      var segments := Split(init);
      JoinSplit(init);
      assert path == init + [last];
      if last == SLASH {
        assert (segments + [[]])[..|segments|] == segments;
      } else if |segments| > 1 {
        assert Split(path)[..|segments| - 1] == segments[..|segments| - 1];
      }
    }
  }

  lemma SplitSnoc(path: Bytes, b: byte)
    ensures Split(path + [b]) ==
      if b == SLASH then Split(path) + [[]]
      else Split(path)[|Split(path)| - 1 := Split(path)[|Split(path)| - 1] + [b]]
  {
    assert (path + [b])[..|path|] == path;
  }

  lemma {:induction false} SplitPlain(path: Bytes, segment: Bytes)
    requires SLASH !in segment
    ensures Split(path + [SLASH] + segment) == Split(path) + [segment]
  {
    hide Split;
    if segment == [] {
      assert path + [SLASH] + segment == path + [SLASH];
      SplitSnoc(path, SLASH);
    } else {
      var n := |segment| - 1;
      SplitPlain(path, segment[..n]);
      SplitSnoc(path + [SLASH] + segment[..n], segment[n]);
      assert path + [SLASH] + segment[..n] + [segment[n]] == path + [SLASH] + segment;
      assert segment[..n] + [segment[n]] == segment;
    }
  }

  lemma {:induction false} SplitOne(segment: Bytes)
    requires SLASH !in segment
    ensures Split(segment) == [segment]
  {
    if segment != [] {
      var n := |segment| - 1;
      SplitOne(segment[..n]);
      assert segment[..n] + [segment[n]] == segment;
    }
  }

  lemma {:induction false} SplitJoin(segments: seq<Bytes>)
    requires segments != [] && forall segment :: segment in segments ==> SLASH !in segment
    ensures Split(Join(segments)) == segments
  {
    var n := |segments| - 1;
    if n == 0 {
      SplitOne(segments[0]);
    } else {
      SplitJoin(segments[..n]);
      SplitPlain(Join(segments[..n]), segments[n]);
      assert segments == segments[..n] + [segments[n]];
    }
  }

  /** Splitting an encoded path and decoding each segment gives back the path's segments, in
      order, and so the path. */
  lemma PathReadsBack(path: Bytes)
    ensures Split(EncodedPath(path)) == EncodedAll(Split(path))
    ensures forall i :: 0 <= i < |Split(path)| ==> Decoded(Split(EncodedPath(path))[i]) == Some(Split(path)[i])
    ensures QUESTION !in EncodedPath(path)
  {
    var segments := Split(path);
    var encoded := EncodedAll(segments);
    forall i | 0 <= i < |segments|
      ensures Decoded(encoded[i]) == Some(segments[i]) && SLASH !in encoded[i] && QUESTION !in encoded[i]
    {
      EncodingReadsBack(segments[i]);
      EncodedIsSafe(segments[i]);
    }
    SplitJoin(encoded);
    JoinAvoids(encoded);
  }

  lemma {:induction false} JoinAvoids(segments: seq<Bytes>)
    requires segments != [] && forall segment :: segment in segments ==> QUESTION !in segment
    ensures QUESTION !in Join(segments)
  {
    if |segments| > 1 {
      JoinAvoids(segments[..|segments| - 1]);
    }
  }

  /** `file_url`; the scheme, host and repository go before. */
  function FileUrl(repository: Bytes, gitRef: Bytes, path: Bytes): Bytes
  {
    repository + EncodedPath(path) + [QUESTION] + gitRef
  }

  /** Two files of a repository never share a URL. */
  lemma FileUrlsDiffer(repository: Bytes, gitRef: Bytes, path: Bytes, otherRef: Bytes, other: Bytes)
    requires FileUrl(repository, gitRef, path) == FileUrl(repository, otherRef, other)
    ensures path == other && gitRef == otherRef
  {
    PathReadsBack(path);
    PathReadsBack(other);
    var url, a, b, r := FileUrl(repository, gitRef, path), EncodedPath(path), EncodedPath(other), |repository|;
    assert url[r..] == a + [QUESTION] + gitRef;
    assert FileUrl(repository, otherRef, other)[r..] == b + [QUESTION] + otherRef;
    FirstMark(a, gitRef, b, otherRef);
    SameSegments(path, other);
  }

  /** Where the first question mark is. */
  function MarkIndex(bytes: Bytes): nat
  {
    if bytes == [] || bytes[0] == QUESTION then 0 else 1 + MarkIndex(bytes[1..])
  }

  lemma {:induction false} MarkAfter(a: Bytes, x: Bytes)
    requires QUESTION !in a
    ensures MarkIndex(a + [QUESTION] + x) == |a|
  {
    if a != [] {
      MarkAfter(a[1..], x);
      assert (a + [QUESTION] + x)[1..] == a[1..] + [QUESTION] + x;
    }
  }

  lemma FirstMark(a: Bytes, x: Bytes, b: Bytes, y: Bytes)
    requires a + [QUESTION] + x == b + [QUESTION] + y && QUESTION !in a && QUESTION !in b
    ensures a == b && x == y
  {
    var s, t := a + [QUESTION] + x, b + [QUESTION] + y;
    MarkAfter(a, x);
    MarkAfter(b, y);
    assert a == s[..|a|] && b == t[..|b|];
    assert x == s[|a| + 1..] && y == t[|b| + 1..];
  }

  lemma SameSegments(path: Bytes, other: Bytes)
    requires EncodedPath(path) == EncodedPath(other)
    ensures path == other
  {
    PathReadsBack(path);
    PathReadsBack(other);
    var a, b := Split(path), Split(other);
    forall i | 0 <= i < |a| ensures i < |b| && a[i] == b[i] {
      assert |EncodedAll(a)| == |EncodedAll(b)|;
    }
    assert |EncodedAll(a)| == |EncodedAll(b)|;
    assert a == b;
    JoinSplit(path);
    JoinSplit(other);
  }
}
