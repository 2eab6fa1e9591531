/** The part of `pathlib.PurePosixPath` the upload route relies on: parsing text into a root
    and parts (empty and "." parts dropped, ".." kept), the `/` operator, and `str()`. */
module PurePaths {

  /** The pieces of `s` between slashes, empty pieces included. */
  function Split(s: string): (r: seq<string>)
    ensures |r| >= 1
    ensures forall i :: 0 <= i < |r| ==> '/' !in r[i]
    decreases |s|
  {
    if s == [] then [""]
    else
      var rest := Split(s[1..]);
      if s[0] == '/' then [""] + rest
      else
        var r := [[s[0]] + rest[0]] + rest[1..];
        assert forall i :: 1 <= i < |r| ==> r[i] == rest[i];
        r
  }

  /** A piece pathlib keeps as a part: neither empty nor ".". */
  predicate IsPart(piece: string)
  {
    piece != "" && piece != "."
  }

  /** The pieces that are parts, in order. */
  function KeepParts(pieces: seq<string>): (r: seq<string>)
    ensures forall i :: 0 <= i < |r| ==> IsPart(r[i])
    ensures (forall i :: 0 <= i < |pieces| ==> '/' !in pieces[i]) ==> forall i :: 0 <= i < |r| ==> '/' !in r[i]
    decreases |pieces|
  {
    if pieces == [] then []
    else
      var rest := KeepParts(pieces[1..]);
      assert forall i :: 1 <= i < |pieces| ==> pieces[i] == pieces[1..][i - 1];
      if IsPart(pieces[0]) then [pieces[0]] + rest else rest
  }

  lemma {:induction false} KeepPartsAppend(a: seq<string>, b: seq<string>)
    ensures KeepParts(a + b) == KeepParts(a) + KeepParts(b)
    decreases |a|
  {
    if a == [] {
      assert a + b == b;
    } else {
      assert (a + b)[0] == a[0] && (a + b)[1..] == a[1..] + b;
      KeepPartsAppend(a[1..], b);
    }
  }

  lemma {:induction false} KeepAllParts(pieces: seq<string>)
    requires forall i :: 0 <= i < |pieces| ==> IsPart(pieces[i])
    ensures KeepParts(pieces) == pieces
    decreases |pieces|
  {
    if pieces != [] {
      KeepAllParts(pieces[1..]);
    }
  }

  /** The parts pathlib parses out of `s`. */
  function Parts(s: string): (r: seq<string>)
    ensures forall i :: 0 <= i < |r| ==> IsPart(r[i]) && '/' !in r[i]
  {
    KeepParts(Split(s))
  }

  /** The root `splitroot` finds: "//" for exactly two leading slashes, "/" for one or for
      three and more, "" for a relative path. */
  function RootOf(s: string): (root: string)
    ensures root == "" <==> s == [] || s[0] != '/'
  {
    if s == [] || s[0] != '/' then ""
    else if |s| == 1 || s[1] != '/' || (|s| > 2 && s[2] == '/') then "/"
    else "//"
  }

  datatype Path = Path(root: string, parts: seq<string>)

  /** A path as parsing produces it. */
  predicate Normal(p: Path)
  {
    (p.root == "" || p.root == "/" || p.root == "//")
    && forall i :: 0 <= i < |p.parts| ==> IsPart(p.parts[i]) && '/' !in p.parts[i]
  }

  /** `PurePosixPath(s)`. */
  function FromText(s: string): (p: Path)
    ensures Normal(p)
  {
    Path(RootOf(s), Parts(s))
  }

  /** `p / s`: a relative right side adds its parts; an absolute one replaces the left side. */
  function Join(p: Path, s: string): (r: Path)
    ensures RootOf(s) == "" ==> r.root == p.root && r.parts == p.parts + Parts(s)
    ensures RootOf(s) != "" ==> r == FromText(s)
    ensures Normal(p) ==> Normal(r)
  {
    var q := FromText(s);
    if q.root != "" then q else Path(p.root, p.parts + q.parts)
  }

  /** The first piece of text that starts without a slash starts with that text. */
  lemma {:induction false} FirstPiece(a: string, rest: string)
    requires '/' !in a
    ensures |Split(a + rest)[0]| >= |a|
    decreases |a|
  {
    if a != [] {
      assert (a + rest)[0] == a[0] && (a + rest)[1..] == a[1..] + rest;
      assert '/' !in a[1..] by { assert forall i :: 0 <= i < |a[1..]| ==> a[1..][i] == a[i + 1]; }
      FirstPiece(a[1..], rest);
    }
  }

  /** Text whose first two characters are not slashes has a first part. */
  lemma HasFirstPart(a: string, rest: string)
    requires |a| >= 2 && '/' !in a
    ensures Parts(a + rest) != []
  {
    FirstPiece(a, rest);
    var pieces := Split(a + rest);
    assert IsPart(pieces[0]);
    assert pieces == [pieces[0]] + pieces[1..];
    KeepPartsAppend([pieces[0]], pieces[1..]);
  }

  /** The parts written with a single slash between each two. */
  function JoinSlash(parts: seq<string>): string
    decreases |parts|
  {
    if |parts| == 0 then ""
    else if |parts| == 1 then parts[0]
    else parts[0] + "/" + JoinSlash(parts[1..])
  }

  /** `str(p)`; the empty relative path is ".". */
  function Str(p: Path): string
  {
    if p.root == "" && p.parts == [] then "." else p.root + JoinSlash(p.parts)
  }

  /** A slash in the text separates the pieces of the two sides. */
  lemma {:induction false} SplitAtSlash(a: string, b: string)
    ensures Split(a + "/" + b) == Split(a) + Split(b)
    decreases |a|
  {
    var s := a + "/" + b;
    if a == [] {
      assert s == "/" + b && s[1..] == b;
    } else {
      assert s[0] == a[0] && s[1..] == a[1..] + "/" + b;
      SplitAtSlash(a[1..], b);
    }
  }

  /** Text without a slash is a single piece. */
  lemma {:induction false} SplitNoSlash(s: string)
    requires '/' !in s
    ensures Split(s) == [s]
    decreases |s|
  {
    if s != [] {
      assert '/' !in s[1..] by { assert forall i :: 0 <= i < |s[1..]| ==> s[1..][i] == s[i + 1]; }
      SplitNoSlash(s[1..]);
      assert s == [s[0]] + s[1..];
    }
  }

  /** The parts of text around a slash are the parts of each side: an empty piece ("//"),
      a "." piece and a trailing slash add nothing. */
  lemma PartsAtSlash(a: string, b: string)
    ensures Parts(a + "/" + b) == Parts(a) + Parts(b)
  {
    SplitAtSlash(a, b);
    KeepPartsAppend(Split(a), Split(b));
  }

  lemma PartsOfEmptyAndDot()
    ensures Parts("") == [] && Parts(".") == []
  {
    SplitNoSlash("");
    SplitNoSlash(".");
  }

  /** Text that is a single part parses to that part alone. */
  lemma PartsOfPart(s: string)
    requires IsPart(s) && '/' !in s
    ensures Parts(s) == [s]
  {
    SplitNoSlash(s);
    assert KeepParts([s]) == [s] + KeepParts([]);
  }

  lemma {:induction false} JoinSlashStart(parts: seq<string>)
    requires |parts| >= 1
    ensures |JoinSlash(parts)| >= |parts[0]| && JoinSlash(parts)[..|parts[0]|] == parts[0]
    decreases |parts|
  {
  }

  /** Writing the parts out and splitting again gives them back. */
  lemma {:induction false} SplitJoinSlash(parts: seq<string>)
    requires |parts| >= 1
    requires forall i :: 0 <= i < |parts| ==> '/' !in parts[i]
    ensures Split(JoinSlash(parts)) == parts
    decreases |parts|
  {
    SplitNoSlash(parts[0]);
    if |parts| > 1 {
      SplitJoinSlash(parts[1..]);
      SplitAtSlash(parts[0], JoinSlash(parts[1..]));
    }
  }

  lemma PartsOfJoinSlash(parts: seq<string>)
    requires forall i :: 0 <= i < |parts| ==> IsPart(parts[i]) && '/' !in parts[i]
    ensures Parts(JoinSlash(parts)) == parts
  {
    if parts == [] {
      PartsOfEmptyAndDot();
    } else {
      SplitJoinSlash(parts);
      KeepAllParts(parts);
    }
  }

  /** Joining two non-empty part lists puts one slash between them. */
  lemma {:induction false} JoinSlashAppend(a: seq<string>, b: seq<string>)
    requires |a| >= 1 && |b| >= 1
    ensures JoinSlash(a + b) == JoinSlash(a) + "/" + JoinSlash(b)
    decreases |a|
  {
    if |a| > 1 {
      assert (a + b)[1..] == a[1..] + b;
      JoinSlashAppend(a[1..], b);
    } else {
      assert (a + b)[1..] == b;
    }
  }

  /** `str(p)` starts with the root it was written with. */
  lemma RootOfStr(p: Path)
    requires Normal(p)
    ensures RootOf(Str(p)) == p.root
  {
    if p.parts != [] {
      JoinSlashStart(p.parts);
      assert JoinSlash(p.parts)[0] == p.parts[0][0];
    }
    if p.root == "//" {
      assert Str(p)[..2] == "//";
    }
  }

  /** A leading slash adds no parts. */
  lemma PartsAfterSlash(j: string)
    ensures Parts("/" + j) == Parts(j)
  {
    var e: string := [];
    assert "/" + j == e + "/" + j;
    SplitAtSlash(e, j);
    assert Split(e) == [e];
    KeepPartsAppend([e], Split(j));
    assert KeepParts([e]) == [];
  }

  /** The parts of the root written before some text are none. */
  lemma PartsAfterRoot(root: string, j: string)
    requires root == "" || root == "/" || root == "//"
    ensures Parts(root + j) == Parts(j)
  {
    if root == "/" {
      PartsAfterSlash(j);
    } else if root == "//" {
      var k := "/" + j;
      PartsAfterSlash(j);
      PartsAfterSlash(k);
      assert root + j == "/" + k;
    } else {
      assert root + j == j;
    }
  }

  /** `str(p)` holds exactly the parts it was written with. */
  lemma PartsOfStr(p: Path)
    requires Normal(p)
    ensures Parts(Str(p)) == p.parts
  {
    PartsOfJoinSlash(p.parts);
    if p.root == "" && p.parts == [] {
      PartsOfEmptyAndDot();
    } else {
      PartsAfterRoot(p.root, JoinSlash(p.parts));
    }
  }

  /** `PurePosixPath(str(p)) == p`: the text of a parsed path parses back to the same path. */
  lemma StrRoundTrip(p: Path)
    requires Normal(p)
    ensures FromText(Str(p)) == p
  {
    RootOfStr(p);
    PartsOfStr(p);
  }
}
