/** Splitting and joining strings. */
module Strings {
  import opened Common

  /** The pieces between separators; always at least one. */
  function Split(s: string, sep: char): (r: seq<string>)
    ensures |r| >= 1
    ensures forall i :: 0 <= i < |r| ==> sep !in r[i]
  {
    if s == "" then [""]
    else
      var r := Split(s[1..], sep);
      if s[0] == sep then [""] + r else [[s[0]] + r[0]] + r[1..]
  }

  lemma {:induction false} SplitSegment(seg: string, t: string, sep: char)
    requires sep !in seg
    requires t == "" || t[0] == sep
    ensures Split(seg + t, sep) == [seg] + Split(t, sep)[1..]
    decreases |seg|
  {
    if seg == "" {
      assert seg + t == t;
      assert Split(t, sep)[0] == "";
      assert Split(t, sep) == [""] + Split(t, sep)[1..];
    } else {
      assert (seg + t)[0] == seg[0] && (seg + t)[1..] == seg[1..] + t;
      SplitSegment(seg[1..], t, sep);
      assert seg == [seg[0]] + seg[1..];
    }
  }

  lemma SplitSep(rest: string, sep: char)
    ensures Split([sep] + rest, sep) == [""] + Split(rest, sep)
  {
    assert ([sep] + rest)[1..] == rest;
  }

  function Join(parts: seq<string>, sep: char): string {
    if parts == [] then ""
    else if |parts| == 1 then parts[0]
    else parts[0] + [sep] + Join(parts[1..], sep)
  }

  lemma {:induction false} SplitJoin(parts: seq<string>, sep: char)
    requires parts != [] && forall i :: 0 <= i < |parts| ==> sep !in parts[i]
    ensures Split(Join(parts, sep), sep) == parts
    decreases |parts|
  {
    if |parts| == 1 {
      assert parts[0] + "" == parts[0];
      SplitSegment(parts[0], "", sep);
      assert parts == [parts[0]];
    } else {
      var t := [sep] + Join(parts[1..], sep);
      assert Join(parts, sep) == parts[0] + t;
      hide Split, Join;
      SplitSegment(parts[0], t, sep);
      SplitJoin(parts[1..], sep);
      SplitSep(Join(parts[1..], sep), sep);
      assert ([""] + parts[1..])[1..] == parts[1..] && parts == [parts[0]] + parts[1..];
    }
  }

  /** Joining what was split gives the string back. */
  lemma {:induction false} JoinSplit(s: string, sep: char)
    ensures Join(Split(s, sep), sep) == s
    decreases |s|
  {
    if s != "" {
      var r := Split(s[1..], sep);
      JoinSplit(s[1..], sep);
      if s[0] == sep {
        assert ([""] + r)[1..] == r;
      } else {
        JoinFirst(s[0], r, sep);
      }
    }
  }

  lemma JoinFirst(c: char, parts: seq<string>, sep: char)
    requires parts != []
    ensures Join([[c] + parts[0]] + parts[1..], sep) == [c] + Join(parts, sep)
  {
    var more := [[c] + parts[0]] + parts[1..];
    assert more[1..] == parts[1..];
    assert |parts| == 1 ==> more == [[c] + parts[0]];
  }

  lemma {:induction false} JoinAvoids(parts: seq<string>, sep: char, c: char)
    requires c != sep && forall i :: 0 <= i < |parts| ==> c !in parts[i]
    ensures c !in Join(parts, sep)
    decreases |parts|
  {
    if |parts| > 1 { JoinAvoids(parts[1..], sep, c); }
  }

  function StripPrefix(s: string, p: string): Option<string> {
    if p <= s then Some(s[|p|..]) else None
  }

  lemma StripOwn(p: string, t: string)
    ensures StripPrefix(p + t, p) == Some(t)
  {
    assert (p + t)[..|p|] == p && (p + t)[|p|..] == t;
  }

  /** A string that differs from a prefix somewhere does not start with it. */
  lemma NotPrefix(p: string, s: string, k: nat)
    requires k < |p| && (k < |s| ==> s[k] != p[k])
    ensures !(p <= s) && StripPrefix(s, p) == None
  {
  }

  /** Split at the first occurrence of a pattern. */
  function SplitOnce(s: string, pat: string): Option<(string, string)>
    requires pat != ""
  {
    if pat <= s then Some(("", s[|pat|..]))
    else if s == "" then None
    else match SplitOnce(s[1..], pat)
      case None => None
      case Some(pair) => Some(([s[0]] + pair.0, pair.1))
  }

  lemma {:induction false} SplitOnceAt(a: string, pat: string, b: string)
    requires pat != "" && pat[0] !in a
    ensures SplitOnce(a + pat + b, pat) == Some((a, b))
    decreases |a|
  {
    var s := a + pat + b;
    if a == "" {
      assert s == pat + b;
      StripOwn(pat, b);
    } else {
      assert s[0] == a[0] && s[1..] == a[1..] + pat + b;
      NotPrefix(pat, s, 0);
      SplitOnceAt(a[1..], pat, b);
      assert a == [a[0]] + a[1..];
    }
  }

  lemma {:induction false} SplitOnceNever(s: string, pat: string)
    requires pat != "" && pat[0] !in s
    ensures SplitOnce(s, pat) == None
  {
    NotPrefix(pat, s, 0);
    if s != "" { SplitOnceNever(s[1..], pat); }
  }

  lemma {:induction false} SplitOnceParts(s: string, pat: string)
    requires pat != "" && SplitOnce(s, pat).Some?
    ensures s == SplitOnce(s, pat).value.0 + pat + SplitOnce(s, pat).value.1
    decreases |s|
  {
    if !(pat <= s) {
      SplitOnceParts(s[1..], pat);
    }
  }

  /** Order by the first character that differs, a proper prefix first. */
  predicate Less(a: string, b: string) {
    b != "" && (a == "" || a[0] < b[0] || (a[0] == b[0] && Less(a[1..], b[1..])))
  }

  /** The two agree up to a place where the first ends, or has the smaller character. */
  predicate SmallerAt(a: string, b: string, k: nat) {
    k <= |a| && k < |b| && a[..k] == b[..k] && (k == |a| || a[k] < b[k])
  }

  /** The order is lexical. */
  lemma {:induction false} LessIff(a: string, b: string)
    ensures Less(a, b) <==> exists k: nat :: SmallerAt(a, b, k)
    decreases |a|
  {
    if a == "" {
      if b != "" { assert SmallerAt(a, b, 0); }
    } else if b != "" {
      LessIff(a[1..], b[1..]);
      if a[0] < b[0] { assert SmallerAt(a, b, 0); }
      if a[0] == b[0] && Less(a[1..], b[1..]) {
        var k: nat :| SmallerAt(a[1..], b[1..], k);
        assert a[..k + 1] == [a[0]] + a[1..][..k] && b[..k + 1] == [b[0]] + b[1..][..k];
        assert SmallerAt(a, b, k + 1);
      }
      if k: nat :| SmallerAt(a, b, k) {
        if k > 0 {
          assert a[0] == a[..k][0] == b[..k][0] == b[0];
          assert a[1..][..k - 1] == a[..k][1..] && b[1..][..k - 1] == b[..k][1..];
          assert SmallerAt(a[1..], b[1..], k - 1);
        }
      }
    }
  }

  lemma {:induction false} LessTotal(a: string, b: string)
    ensures a == b || Less(a, b) || Less(b, a)
    decreases |a|
  {
    if a != "" && b != "" && a[0] == b[0] {
      LessTotal(a[1..], b[1..]);
      if a[1..] == b[1..] { assert a == [a[0]] + a[1..] && b == [b[0]] + b[1..]; }
    }
  }

  lemma {:induction false} LessTransitive(a: string, b: string, c: string)
    requires Less(a, b) && Less(b, c)
    ensures Less(a, c)
    decreases |a|
  {
    if a != "" && a[0] == b[0] && b[0] == c[0] { LessTransitive(a[1..], b[1..], c[1..]); }
  }

  lemma {:induction false} LessIrreflexive(a: string)
    ensures !Less(a, a)
  {
    if a != "" { LessIrreflexive(a[1..]); }
  }

  predicate Ascending(names: seq<string>) {
    forall i :: 0 < i < |names| ==> Less(names[i - 1], names[i])
  }

  // ---- an ordered set of names ------------------------------------------------------------------------------

  function Insert(t: string, names: seq<string>): (r: seq<string>)
    requires Ascending(names)
    ensures Ascending(r) && forall x :: x in r <==> x == t || x in names
    ensures r != [] && (r[0] == t || (names != [] && r[0] == names[0] && Less(names[0], t)))
  {
    if names == [] then [t]
    else if t == names[0] then names
    else if Less(t, names[0]) then [t] + names
    else
      LessTotal(t, names[0]);
      var rest := Insert(t, names[1..]);
      [names[0]] + rest
  }

  function SortedSet(names: seq<string>): (r: seq<string>)
    ensures Ascending(r) && forall x :: x in r <==> x in names
  {
    if names == [] then [] else Insert(names[0], SortedSet(names[1..]))
  }

  lemma {:induction false} SortedSetOfAscending(names: seq<string>)
    requires Ascending(names)
    ensures SortedSet(names) == names
    decreases |names|
  {
    if names != [] {
      assert Ascending(names[1..]);
      SortedSetOfAscending(names[1..]);
      assert names == [names[0]] + names[1..];
      if |names| > 1 {
        assert Less(names[0], names[1]);
        LessIrreflexive(names[0]);
      }
    }
  }

  lemma {:induction false} AscendingFirst(names: seq<string>, i: nat)
    requires Ascending(names) && 0 < i < |names|
    ensures Less(names[0], names[i])
    decreases i
  {
    if i > 1 {
      AscendingFirst(names, i - 1);
      assert Less(names[i - 1], names[i]);
      LessTransitive(names[0], names[i - 1], names[i]);
    }
  }

  lemma {:induction false} AscendingUnique(a: seq<string>, b: seq<string>)
    requires Ascending(a) && Ascending(b) && forall x :: x in a <==> x in b
    ensures a == b
    decreases |a|
  {
    EmptyAlike(a, b);
    if a != [] {
      SameFirst(a, b);
      TailMembers(a);
      TailMembers(b);
      assert Ascending(a[1..]) && Ascending(b[1..]);
      AscendingUnique(a[1..], b[1..]);
      assert a == [a[0]] + a[1..] && b == [b[0]] + b[1..];
    }
  }

  lemma EmptyAlike(a: seq<string>, b: seq<string>)
    requires forall x :: x in a <==> x in b
    ensures a == [] <==> b == []
    ensures a != [] ==> a[0] in b && b[0] in a
  {
    if a != [] { assert a[0] in a; }
    if b != [] { assert b[0] in b; }
  }

  lemma SameFirst(a: seq<string>, b: seq<string>)
    requires Ascending(a) && Ascending(b) && a != [] && b != [] && a[0] in b && b[0] in a
    ensures a[0] == b[0]
  {
    var i :| 0 <= i < |b| && b[i] == a[0];
    var j :| 0 <= j < |a| && a[j] == b[0];
    if i > 0 && j > 0 {
      AscendingFirst(b, i);
      AscendingFirst(a, j);
      LessTransitive(a[0], b[0], a[0]);
      LessIrreflexive(a[0]);
    }
  }

  /** The first name does not come again. */
  lemma TailMembers(names: seq<string>)
    requires Ascending(names) && names != []
    ensures forall x :: x in names[1..] <==> x in names && x != names[0]
  {
    forall i | 0 < i < |names|
      ensures names[i] != names[0]
    {
      AscendingFirst(names, i);
      LessIrreflexive(names[0]);
    }
  }

  // ---- lines ---------------------------------------------------------------------------------------------

  function Chomp(line: string): string {
    if line != "" && line[|line| - 1] == '\r' then line[..|line| - 1] else line
  }

  function ChompAll(lines: seq<string>): (r: seq<string>)
    ensures |r| == |lines| && forall i :: 0 <= i < |r| ==> r[i] == Chomp(lines[i])
  {
    seq(|lines|, i requires 0 <= i < |lines| => Chomp(lines[i]))
  }

  /** The lines of a text: a line end is a newline, with a carriage return before it if there is one. */
  function LinesOf(text: string): seq<string> {
    Ended(Split(text, '\n'))
  }

  /** Of newline-separated pieces all but the last are lines, and the last one if it is not empty. */
  function Ended(segs: seq<string>): seq<string>
    requires |segs| >= 1
  {
    var n := |segs| - 1;
    ChompAll(segs[..n]) + (if segs[n] == "" then [] else [segs[n]])
  }

  function TextOf(lines: seq<string>): string {
    if lines == [] then "" else lines[0] + "\n" + TextOf(lines[1..])
  }

  predicate PlainLine(line: string) {
    '\n' !in line && (line == "" || line[|line| - 1] != '\r')
  }

  lemma {:induction false} SplitText(lines: seq<string>)
    requires forall i :: 0 <= i < |lines| ==> '\n' !in lines[i]
    ensures Split(TextOf(lines), '\n') == lines + [""]
    decreases |lines|
  {
    if lines != [] {
      var t := "\n" + TextOf(lines[1..]);
      assert TextOf(lines) == lines[0] + t && t[1..] == TextOf(lines[1..]);
      SplitSegment(lines[0], t, '\n');
      SplitText(lines[1..]);
      assert lines == [lines[0]] + lines[1..];
    }
  }

  lemma LinesOfText(lines: seq<string>)
    requires forall i :: 0 <= i < |lines| ==> PlainLine(lines[i])
    ensures LinesOf(TextOf(lines)) == lines
  {
    SplitText(lines);
    EndedPlain(lines);
  }

  lemma EndedPlain(lines: seq<string>)
    requires forall i :: 0 <= i < |lines| ==> PlainLine(lines[i])
    ensures Ended(lines + [""]) == lines
  {
    assert (lines + [""])[..|lines|] == lines;
    assert ChompAll(lines) == lines;
  }

  lemma {:induction false} TextOfConcat(a: seq<string>, b: seq<string>)
    ensures TextOf(a + b) == TextOf(a) + TextOf(b)
    decreases |a|
  {
    if a == [] {
      assert a + b == b;
    } else {
      assert (a + b)[1..] == a[1..] + b;
      TextOfConcat(a[1..], b);
    }
  }
}
