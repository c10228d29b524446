/** Path normalisation and the ancestors of a path, as the in-memory file system computes them. */
module VfsPath {
  import opened Common
  import opened Strings

  type Path = string

  function Joined(parts: seq<string>): string {
    if parts == [] then "" else "/" + parts[0] + Joined(parts[1..])
  }

  function PathOf(parts: seq<string>): Path {
    if parts == [] then "/" else Joined(parts)
  }

  /** A segment that can stand in a normal path. */
  predicate Clean(seg: string) {
    seg != "" && seg != "." && seg != ".." && '/' !in seg
  }

  predicate AllClean(parts: seq<string>) {
    forall i :: 0 <= i < |parts| ==> Clean(parts[i])
  }

  // ---- normalisation ------------------------------------------------------------------------------------

  function StripNul(s: string): (r: string)
    ensures r <= s && (r == "" || r[|r| - 1] != '\0')
    ensures s == "" || s[|s| - 1] != '\0' ==> r == s
    ensures s != "" && s[0] != '\0' ==> r != "" && r[0] == s[0]
  {
    if s != "" && s[|s| - 1] == '\0' then StripNul(s[..|s| - 1]) else s
  }

  /** What one segment does to the segments kept so far. */
  function Push(parts: seq<string>, seg: string): seq<string> {
    if seg == "" || seg == "." then parts
    else if seg == ".." then (if parts == [] then [] else parts[..|parts| - 1])
    else parts + [seg]
  }

  function Walk(parts: seq<string>, segs: seq<string>): seq<string>
    decreases |segs|
  {
    if segs == [] then parts else Walk(Push(parts, segs[0]), segs[1..])
  }

  function Norm(p: string): Path {
    var q := StripNul(p);
    if q == "" || q == "." then "/"
    else PathOf(Walk([], Split(if q[0] == '/' then q else "/" + q, '/')))
  }

  predicate EndsInNul(p: string) {
    p != "" && p[|p| - 1] == '\0'
  }

  method Normalize(p: string) returns (r: Path)
    ensures r == Norm(p)
  {
    var q := StripNul(p);
    if q == "" || q == "." {
      return "/";
    }
    if q[0] != '/' {
      q := "/" + q;
    }
    var segs := Split(q, '/');
    var parts: seq<string> := [];
    for i := 0 to |segs|
      invariant Walk(parts, segs[i..]) == Walk([], segs)
    {
      assert segs[i..][0] == segs[i] && segs[i..][1..] == segs[i + 1..];
      if segs[i] == "" || segs[i] == "." {
        continue;
      }
      if segs[i] == ".." {
        if parts != [] {
          parts := parts[..|parts| - 1];
        }
        continue;
      }
      parts := parts + [segs[i]];
    }
    r := PathOf(parts);
  }

  lemma {:induction false} WalkClean(parts: seq<string>, segs: seq<string>)
    requires AllClean(parts)
    requires forall i :: 0 <= i < |segs| ==> '/' !in segs[i]
    ensures AllClean(Walk(parts, segs))
    decreases |segs|
  {
    if segs != [] { WalkClean(Push(parts, segs[0]), segs[1..]); }
  }

  /** Every normalised path is the root or a run of clean segments. */
  lemma NormShape(p: string) returns (parts: seq<string>)
    ensures AllClean(parts) && Norm(p) == PathOf(parts)
  {
    var q := StripNul(p);
    parts := [];
    if q != "" && q != "." {
      var segs := Split(if q[0] == '/' then q else "/" + q, '/');
      WalkClean([], segs);
      parts := Walk([], segs);
    }
  }

  lemma {:induction false} SplitJoined(parts: seq<string>)
    requires forall i :: 0 <= i < |parts| ==> '/' !in parts[i]
    ensures Split(Joined(parts), '/') == [""] + parts
    decreases |parts|
  {
    if parts != [] {
      var t := Joined(parts[1..]);
      assert Joined(parts) == "/" + (parts[0] + t);
      assert ("/" + (parts[0] + t))[1..] == parts[0] + t;
      SplitSegment(parts[0], t, '/');
      SplitJoined(parts[1..]);
      assert parts == [parts[0]] + parts[1..];
    }
  }

  lemma {:induction false} WalkKeepsClean(parts: seq<string>, segs: seq<string>)
    requires AllClean(segs)
    ensures Walk(parts, segs) == parts + segs
    decreases |segs|
  {
    if segs != [] {
      WalkKeepsClean(parts + [segs[0]], segs[1..]);
      assert parts + [segs[0]] + segs[1..] == parts + segs;
    }
  }

  lemma WalkOfJoined(parts: seq<string>)
    requires AllClean(parts)
    ensures Walk([], Split(Joined(parts), '/')) == parts
  {
    SplitJoined(parts);
    assert ([""] + parts)[1..] == parts;
    assert Walk([], [""] + parts) == Walk([], parts);
    WalkKeepsClean([], parts);
  }

  lemma NormKeepsNormal(parts: seq<string>)
    requires AllClean(parts) && !EndsInNul(PathOf(parts))
    ensures Norm(PathOf(parts)) == PathOf(parts)
  {
    if parts == [] {
      assert Split("/", '/') == ["", ""];
      assert ["", ""][1..] == [""] && [""][1..] == [];
      assert Walk([], ["", ""]) == Walk([], [""]) == Walk([], []) == [];
    } else {
      WalkOfJoined(parts);
    }
  }

  /** Length a run of segments takes up, each with its slash. */
  function Weight(parts: seq<string>): nat {
    if parts == [] then 0 else 1 + |parts[0]| + Weight(parts[1..])
  }

  lemma {:induction false} JoinedLength(parts: seq<string>)
    ensures |Joined(parts)| == Weight(parts)
  {
    if parts != [] { JoinedLength(parts[1..]); }
  }

  lemma {:induction false} SplitWeight(s: string)
    ensures Weight(Split(s, '/')) == |s| + 1
  {
    if s != "" {
      var r := Split(s[1..], '/');
      SplitWeight(s[1..]);
      if s[0] == '/' {
        assert ([""] + r)[1..] == r;
      } else {
        assert ([[s[0]] + r[0]] + r[1..])[1..] == r[1..];
      }
    }
  }

  lemma {:induction false} WeightAppend(parts: seq<string>, seg: string)
    ensures Weight(parts + [seg]) == Weight(parts) + 1 + |seg|
    decreases |parts|
  {
    if parts == [] {
      assert parts + [seg] == [seg] && [seg][1..] == [];
    } else {
      assert (parts + [seg])[1..] == parts[1..] + [seg];
      WeightAppend(parts[1..], seg);
    }
  }

  lemma {:induction false} WalkWeight(parts: seq<string>, segs: seq<string>)
    ensures Weight(Walk(parts, segs)) <= Weight(parts) + Weight(segs)
    decreases |segs|
  {
    if segs != [] {
      WalkWeight(Push(parts, segs[0]), segs[1..]);
      WeightAppend(parts, segs[0]);
      if parts != [] {
        var n := |parts| - 1;
        assert parts == parts[..n] + [parts[n]];
        WeightAppend(parts[..n], parts[n]);
      }
    }
  }

  /** A rooted path never gets longer. */
  lemma NormNoLonger(q: string)
    requires q != "" && q[0] == '/'
    ensures |PathOf(Walk([], Split(q, '/')))| <= |q|
  {
    var segs := Split(q, '/');
    assert segs == [""] + Split(q[1..], '/') && segs[0] == "" && segs[1..] == Split(q[1..], '/');
    assert Walk([], segs) == Walk([], segs[1..]);
    SplitWeight(q[1..]);
    WalkWeight([], segs[1..]);
    JoinedLength(Walk([], segs));
  }

  lemma NulIsLost(p: Path)
    requires EndsInNul(p) && p[0] == '/'
    ensures |Norm(p)| < |p|
  {
    var q := StripNul(p);
    NormNoLonger(q);
  }

  lemma StableUnlessNul(p: string)
    ensures Norm(Norm(p)) == Norm(p) <==> !EndsInNul(Norm(p))
  {
    var parts := NormShape(p);
    if EndsInNul(Norm(p)) {
      NulIsLost(Norm(p));
    } else {
      NormKeepsNormal(parts);
    }
  }

  // ---- which paths lose a NUL --------------------------------------------------------------------------

  /** The last segment that survives, read off the segments from the right; `skip` counts the ".." still to be served. */
  function LastKept(segs: seq<string>, skip: nat): (r: Option<string>)
    ensures r.Some? ==> r.value in segs
    decreases |segs|
  {
    if segs == [] then None
    else
      var seg, front := segs[|segs| - 1], segs[..|segs| - 1];
      if seg == "" || seg == "." then LastKept(front, skip)
      else if seg == ".." then LastKept(front, skip + 1)
      else if skip > 0 then LastKept(front, skip - 1)
      else Some(seg)
  }

  /** The segment that ends the normalised path ends in a NUL of its own. */
  predicate UncoversNul(p: string) {
    var last := LastKept(Split(StripNul(p), '/'), 0);
    last.Some? && EndsInNul(last.value)
  }

  lemma {:induction false} WalkSnoc(parts: seq<string>, segs: seq<string>, seg: string)
    ensures Walk(parts, segs + [seg]) == Push(Walk(parts, segs), seg)
    decreases |segs|
  {
    if segs == [] {
      assert segs + [seg] == [seg] && [seg][1..] == [];
    } else {
      assert (segs + [seg])[1..] == segs[1..] + [seg];
      WalkSnoc(Push(parts, segs[0]), segs[1..], seg);
    }
  }

  /** The segment with `skip` segments after it. */
  function FromEnd(parts: seq<string>, skip: nat): Option<string> {
    if |parts| > skip then Some(parts[|parts| - 1 - skip]) else None
  }

  lemma FromEndOfPush(parts: seq<string>, seg: string, skip: nat)
    ensures FromEnd(Push(parts, seg), skip)
            == if seg == "" || seg == "." then FromEnd(parts, skip)
               else if seg == ".." then FromEnd(parts, skip + 1)
               else if skip > 0 then FromEnd(parts, skip - 1)
               else Some(seg)
  {
  }

  lemma {:induction false} LastKeptIsLast(segs: seq<string>, skip: nat)
    ensures LastKept(segs, skip) == FromEnd(Walk([], segs), skip)
    decreases |segs|
  {
    if segs != [] {
      var n := |segs| - 1;
      var seg := segs[n];
      assert segs == segs[..n] + [seg];
      WalkSnoc([], segs[..n], seg);
      FromEndOfPush(Walk([], segs[..n]), seg, skip);
      hide Walk, Push, FromEnd;
      if seg == "" || seg == "." {
        LastKeptIsLast(segs[..n], skip);
      } else if seg == ".." {
        LastKeptIsLast(segs[..n], skip + 1);
      } else if skip > 0 {
        LastKeptIsLast(segs[..n], skip - 1);
      }
    }
  }

  /** A leading slash adds an empty segment, which changes nothing. */
  lemma RootAddsNothing(q: string)
    requires q != ""
    ensures Walk([], Split(if q[0] == '/' then q else "/" + q, '/')) == Walk([], Split(q, '/'))
  {
    if q[0] != '/' {
      assert ("/" + q)[1..] == q;
      assert ([""] + Split(q, '/'))[1..] == Split(q, '/');
    }
  }

  lemma {:induction false} JoinedEnd(parts: seq<string>)
    requires parts != [] && AllClean(parts)
    ensures EndsInNul(Joined(parts)) <==> EndsInNul(parts[|parts| - 1])
    decreases |parts|
  {
    if |parts| == 1 {
      assert parts[1..] == [] && Joined(parts) == "/" + parts[0] + "";
      assert Clean(parts[0]);
    } else {
      JoinedEnd(parts[1..]);
      JoinedLength(parts[1..]);
      assert Joined(parts) == ("/" + parts[0]) + Joined(parts[1..]);
    }
  }

  lemma DotAlone()
    ensures Split(".", '/') == ["."] && LastKept(["."], 0) == None && LastKept(Split("", '/'), 0) == None
  {
    SplitSegment(".", "", '/');
    assert "." + "" == ".";
    assert LastKept([], 0) == None;
    assert ["."][..0] == [] && [""][..0] == [];
  }

  lemma UncoversNulMeaning(p: string)
    ensures UncoversNul(p) <==> EndsInNul(Norm(p))
  {
    DotAlone();
    hide Split, Walk, LastKept, StripNul, Joined, Clean;
    var q := StripNul(p);
    if q != "" && q != "." {
      var segs := Split(q, '/');
      var w := Walk([], segs);
      RootAddsNothing(q);
      WalkClean([], segs);
      LastKeptIsLast(segs, 0);
      if w != [] { JoinedEnd(w); }
    }
  }

  /** Normalising twice is normalising once if and only if no dropped segment uncovers a NUL. */
  lemma NormIdempotentIff(p: string)
    ensures Norm(Norm(p)) == Norm(p) <==> !UncoversNul(p)
  {
    StableUnlessNul(p);
    UncoversNulMeaning(p);
  }

  /** A character at the end of a segment stands at the end of the string or before a separator. */
  lemma {:induction false} SegmentEnds(s: string, sep: char, i: nat, c: char)
    requires i < |Split(s, sep)| && Split(s, sep)[i] != "" && Split(s, sep)[i][|Split(s, sep)[i]| - 1] == c
    ensures (s != "" && s[|s| - 1] == c) || exists k :: 0 <= k < |s| - 1 && s[k] == c && s[k + 1] == sep
    decreases |s|
  {
    if s != "" {
      var t := s[1..];
      var r := Split(t, sep);
      if s[0] == sep {
        SegmentEndsLater(s, sep, i - 1, c);
      } else if i > 0 || r[0] != "" {
        SegmentEndsLater(s, sep, i, c);
      } else if t != "" {
        assert s[0] == c && s[1] == sep;
      }
    }
  }

  lemma {:induction false} SegmentEndsLater(s: string, sep: char, i: nat, c: char)
    requires s != "" && i < |Split(s[1..], sep)|
    requires Split(s[1..], sep)[i] != "" && Split(s[1..], sep)[i][|Split(s[1..], sep)[i]| - 1] == c
    ensures (s[|s| - 1] == c) || exists k :: 0 <= k < |s| - 1 && s[k] == c && s[k + 1] == sep
    decreases |s|, 0
  {
    var t := s[1..];
    SegmentEnds(t, sep, i, c);
    if t == "" || t[|t| - 1] != c {
      var k :| 0 <= k < |t| - 1 && t[k] == c && t[k + 1] == sep;
      assert s[k + 1] == c && s[k + 2] == sep;
    }
  }

  lemma UncoveredBeforeSlash(p: string)
    requires UncoversNul(p)
    ensures exists k :: 0 <= k < |p| - 1 && p[k] == '\0' && p[k + 1] == '/'
  {
    var q := StripNul(p);
    var segs := Split(q, '/');
    var i :| 0 <= i < |segs| && segs[i] == LastKept(segs, 0).value;
    SegmentEnds(q, '/', i, '\0');
    var k :| 0 <= k < |q| - 1 && q[k] == '\0' && q[k + 1] == '/';
    assert p[k] == '\0' && p[k + 1] == '/';
  }

  /** Where no slash follows a NUL, normalising is idempotent. */
  lemma NoNulBeforeSlashIsStable(p: string)
    requires forall k :: 0 <= k < |p| - 1 && p[k] == '\0' ==> p[k + 1] != '/'
    ensures Norm(Norm(p)) == Norm(p)
  {
    NormIdempotentIff(p);
    if UncoversNul(p) { UncoveredBeforeSlash(p); }
  }

  lemma DotUncoversNul()
    ensures Walk([], Split("/a\0/.", '/')) == ["a\0"]
  {
    var parts := ["a\0", "."];
    assert parts[1..] == ["."] && ["."][1..] == [];
    assert Joined(parts) == "/" + "a\0" + Joined(["."]);
    assert Joined(parts) == "/a\0/.";
    SplitJoined(parts);
    assert ([""] + parts)[1..] == parts;
    assert Walk([], [""] + parts) == Walk([], parts) == Walk(["a\0"], ["."]);
  }

  lemma NormNotIdempotent()
    ensures Norm("a\0/.") == "/a\0" && Norm(Norm("a\0/.")) != Norm("a\0/.")
  {
    DotUncoversNul();
    hide Walk, Split, LastKept;
    assert "/" + "a\0/." == "/a\0/.";
    assert ["a\0"][1..] == [];
    StableUnlessNul("a\0/.");
  }

  // ---- ancestors ----------------------------------------------------------------------------------------

  function NonEmpty(segs: seq<string>): (r: seq<string>)
    ensures forall i :: 0 <= i < |r| ==> r[i] != ""
    ensures (forall i :: 0 <= i < |segs| ==> '/' !in segs[i]) ==> forall i :: 0 <= i < |r| ==> '/' !in r[i]
  {
    if segs == [] then [] else (if segs[0] == "" then [] else [segs[0]]) + NonEmpty(segs[1..])
  }

  function Segments(p: Path): (r: seq<string>)
    ensures forall i :: 0 <= i < |r| ==> r[i] != "" && '/' !in r[i]
  {
    NonEmpty(Split(p, '/'))
  }

  predicate IsAncestor(a: Path, p: Path) {
    a == "/" || exists k :: 0 < k < |Segments(p)| && a == Joined(Segments(p)[..k])
  }

  lemma {:induction false} NonEmptyKeeps(segs: seq<string>)
    requires forall i :: 0 <= i < |segs| ==> segs[i] != ""
    ensures NonEmpty(segs) == segs
  {
    if segs != [] {
      NonEmptyKeeps(segs[1..]);
      assert segs == [segs[0]] + segs[1..];
    }
  }

  lemma SegmentsOfJoined(parts: seq<string>)
    requires forall i :: 0 <= i < |parts| ==> parts[i] != "" && '/' !in parts[i]
    ensures Segments(Joined(parts)) == parts
  {
    SplitJoined(parts);
    assert ([""] + parts)[1..] == parts;
    NonEmptyKeeps(parts);
  }

  lemma SegmentsOfRoot()
    ensures Segments("/") == []
  {
    assert Split("/", '/') == ["", ""];
    assert ["", ""][1..] == [""] && [""][1..] == [];
    assert NonEmpty(["", ""]) == NonEmpty([""]) == NonEmpty([]);
  }

  /** Ancestors of an ancestor are ancestors. */
  lemma AncestorsAreClosed(a: Path, b: Path, p: Path)
    requires IsAncestor(a, b) && IsAncestor(b, p)
    ensures IsAncestor(a, p)
  {
    if a != "/" {
      if b == "/" {
        SegmentsOfRoot();
      } else {
        var k :| 0 < k < |Segments(p)| && b == Joined(Segments(p)[..k]);
        SegmentsOfJoined(Segments(p)[..k]);
        var j :| 0 < j < |Segments(b)| && a == Joined(Segments(b)[..j]);
        assert Segments(b)[..j] == Segments(p)[..j];
      }
    }
  }

  // ---- what a path means -------------------------------------------------------------------------------------------

  lemma SplitEndsWith(parts: seq<string>, seg: string)
    requires (forall i :: 0 <= i < |parts| ==> '/' !in parts[i]) && '/' !in seg
    ensures Split(Joined(parts) + "/" + seg, '/') == [""] + parts + [seg]
  {
    JoinedSnoc(parts, seg);
    SplitJoined(parts + [seg]);
  }

  lemma {:induction false} JoinedSnoc(parts: seq<string>, seg: string)
    ensures Joined(parts + [seg]) == Joined(parts) + "/" + seg
    decreases |parts|
  {
    if parts == [] {
      assert parts + [seg] == [seg] && [seg][1..] == [];
    } else {
      assert (parts + [seg])[1..] == parts[1..] + [seg];
      JoinedSnoc(parts[1..], seg);
    }
  }

  /** One more segment behind a normal path: nothing and "." stay there, ".." goes up and stops at the root, a name goes
      down. */
  lemma NormStep(parts: seq<string>, seg: string)
    requires AllClean(parts) && '/' !in seg && !EndsInNul(seg)
    ensures Norm(Joined(parts) + "/" + seg)
         == if seg == "" || seg == "." then PathOf(parts)
            else if seg == ".." then PathOf(if parts == [] then [] else parts[..|parts| - 1])
            else PathOf(parts + [seg])
  {
    var p := Joined(parts) + "/" + seg;
    assert p[0] == '/' by { if parts != [] { assert Joined(parts)[0] == '/'; } }
    assert p[|p| - 1] == (if seg == "" then '/' else seg[|seg| - 1]);
    SplitEndsWith(parts, seg);
    assert Walk([], [""] + parts) == parts by {
      assert ([""] + parts)[1..] == parts;
      WalkKeepsClean([], parts);
    }
    WalkSnoc([], [""] + parts, seg);
    hide Walk, Split, Joined;
  }

  /** A relative path is taken from the root, trailing NULs do not count, and nothing at all is the root. */
  lemma NormOfRelative(q: string)
    ensures Norm("") == "/" && Norm(".") == "/"
    ensures Norm(q + "\0") == Norm(q)
    ensures q != "" && q != "." && q[0] != '/' && !EndsInNul(q) ==> Norm(q) == Norm("/" + q)
  {
    hide Walk, Split, PathOf;
    assert (q + "\0")[..|q|] == q;
  }

  lemma SegmentPrefix(x: string, t: string, y: string, u: string)
    requires '/' !in x && '/' !in y && t != "" && t[0] == '/' && (u == "" || u[0] == '/')
    ensures x + t <= y + u <==> x == y && t <= u
  {
    var a, b := x + t, y + u;
    if a <= b {
      assert (forall i :: 0 <= i < |x| ==> a[i] != '/') && (forall i :: 0 <= i < |y| ==> b[i] != '/');
      assert a[|x|] == '/' && b[|x|] == '/';
      assert |y| < |b| ==> b[|y|] == '/';
      assert |x| == |y|;
      assert x == a[..|x|] && y == b[..|y|];
      assert t == a[|x|..] && u == b[|y|..];
    }
  }

  lemma {:induction false} JoinedPrefix(above: seq<string>, parts: seq<string>)
    requires AllClean(above) && AllClean(parts)
    ensures Joined(above) + "/" <= Joined(parts) <==> |above| < |parts| && parts[..|above|] == above
    decreases |above|
  {
    if above != [] && parts != [] {
      var t, u := Joined(above[1..]) + "/", Joined(parts[1..]);
      assert Joined(above) + "/" == "/" + (above[0] + t) && Joined(parts) == "/" + (parts[0] + u);
      assert t[0] == '/' && (u == "" || u[0] == '/');
      SlashFirst(above[0] + t, parts[0] + u);
      SegmentPrefix(above[0], t, parts[0], u);
      JoinedPrefix(above[1..], parts[1..]);
      assert |above| < |parts| ==> parts[1..][..|above| - 1] == parts[..|above|][1..];
      assert above == [above[0]] + above[1..];
      assert |above| < |parts| ==> parts[..|above|] == [parts[0]] + parts[..|above|][1..];
    }
  }

  lemma SlashFirst(s: string, t: string)
    ensures "/" + s <= "/" + t <==> s <= t
  {
    assert ("/" + s)[1..] == s && ("/" + t)[1..] == t;
    if s <= t { assert "/" + t == "/" + s + t[|s|..]; }
  }

  /** A path is above another exactly if the other begins with it and a slash. */
  lemma AncestorIff(above: seq<string>, parts: seq<string>)
    requires AllClean(above) && AllClean(parts) && above != []
    ensures IsAncestor(PathOf(above), PathOf(parts)) <==> PathOf(above) + "/" <= PathOf(parts)
  {
    JoinedPrefix(above, parts);
    if parts == [] {
      SegmentsOfRoot();
    } else {
      SegmentsOfJoined(parts);
      if k :| 0 < k < |parts| && PathOf(above) == Joined(parts[..k]) {
        SegmentsOfJoined(above);
        SegmentsOfJoined(parts[..k]);
      }
    }
  }
}
