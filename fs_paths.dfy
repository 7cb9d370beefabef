/**
 * The path string helpers of the document-space file system: conditioning a
 * requested path, joining path parts, dropping trailing slashes and counting
 * the depth of a path.
 */
module FsPaths {
  import opened Wrappers
  import opened Text

  /** The deepest a folder may be nested. */
  const MaxFolderDepth: nat := 20

  predicate NoDoubleSlash(s: string)
  {
    forall i :: 0 <= i < |s| - 1 ==> !(s[i] == '/' && s[i + 1] == '/')
  }

  /** The non-empty `/`-separated names of a path: what iterating over a Unix path yields. */
  function Segments(s: string): seq<string>
  {
    NonEmpty(SplitChar(s, '/'))
  }

  /** `conditionPath`: `null`, blank, or what trims to "/" is the root "/"; anything else is trimmed. */
  function ConditionPath(path: Option<string>): string
  {
    if path.None? || IsBlank(path.value) || Trim(path.value) == "/" then "/" else Trim(path.value)
  }

  /** `replaceAll("/+", "/")`: every run of slashes becomes one slash. */
  function CollapseSlashes(s: string): (r: string)
    ensures NoDoubleSlash(r)
    ensures |s| > 0 ==> |r| > 0 && r[0] == s[0]
  {
    if |s| < 2 then s
    else if s[0] == '/' && s[1] == '/' then CollapseSlashes(s[1..])
    else [s[0]] + CollapseSlashes(s[1..])
  }

  /** `joinPathParts`: the parts joined with "/", behind a leading "/", with slash runs collapsed. */
  function JoinPathParts(parts: seq<string>): (r: string)
    ensures |r| > 0 && r[0] == '/'
    ensures NoDoubleSlash(r)
  {
    CollapseSlashes("/" + Join(parts, "/"))
  }

  /** The longest prefix of `s` that does not end in '/'. */
  function DropTrailingSlashes(s: string): (r: string)
    ensures |r| <= |s| && r == s[..|r|]
    ensures r == [] || r[|r| - 1] != '/'
    ensures forall k :: |r| <= k < |s| ==> s[k] == '/'
  {
    if s != [] && s[|s| - 1] == '/' then DropTrailingSlashes(s[..|s| - 1]) else s
  }

  /** `removeTrailingSlashes`: `null` gives "", anything else loses its trailing slashes. */
  method RemoveTrailingSlashes(input: Option<string>) returns (r: string)
    ensures input.None? ==> r == ""
    ensures input.Some? ==> r == DropTrailingSlashes(input.value)
  {
    if input.None? {
      return "";
    }
    var s := input.value;
    var index := |s| - 1;
    while index >= 0 && s[index] == '/'
      invariant -1 <= index < |s|
      invariant DropTrailingSlashes(s[..index + 1]) == DropTrailingSlashes(s)
      decreases index + 1
    {
      assert s[..index + 1][..index] == s[..index];
      index := index - 1;
    }
    r := s[..index + 1];
  }

  /**
   * `countPathDepth`: the path split at '/', joined back through `joinPathParts`,
   * stripped of trailing slashes, split again, minus one.
   */
  function CountPathDepth(path: Option<string>): int
  {
    if path.None? then 0
    else |JavaSplit(DropTrailingSlashes(JoinPathParts(JavaSplit(path.value, '/'))), '/')| - 1
  }

  // ---------------------------------------------------------------------------
  // Segments, read left to right with the name being built

  function Flush(cur: string): seq<string>
  {
    if cur == [] then [] else [cur]
  }

  /** The segments of `s` when the name `cur` has been read just before it. */
  function SegmentsFrom(s: string, cur: string): seq<string>
    decreases |s|
  {
    if s == [] then Flush(cur)
    else if s[0] == '/' then Flush(cur) + SegmentsFrom(s[1..], [])
    else SegmentsFrom(s[1..], cur + [s[0]])
  }

  lemma NonEmptyAppend(a: seq<string>, b: seq<string>)
    ensures NonEmpty(a + b) == NonEmpty(a) + NonEmpty(b)
  {
    if a != [] {
      assert (a + b)[0] == a[0] && (a + b)[1..] == a[1..] + b;
      NonEmptyAppend(a[1..], b);
    } else {
      assert a + b == b;
    }
  }

  lemma {:induction false} SegmentsFromSplit(s: string, cur: string)
    ensures var pieces := SplitChar(s, '/');
      SegmentsFrom(s, cur) == NonEmpty([cur + pieces[0]] + pieces[1..])
    decreases |s|
  {
    var pieces := SplitChar(s, '/');
    if s == [] {
      assert pieces == [[]];
      assert cur + pieces[0] == cur;
      assert [cur + pieces[0]] + pieces[1..] == [cur];
    } else if s[0] == '/' {
      var rest := SplitChar(s[1..], '/');
      SegmentsFromSplit(s[1..], []);
      assert [] + rest[0] == rest[0];
      assert [rest[0]] + rest[1..] == rest;
      assert pieces == [[]] + rest;
      assert cur + pieces[0] == cur;
      assert [cur + pieces[0]] + pieces[1..] == [cur] + rest;
      NonEmptyAppend([cur], rest);
    } else {
      var rest := SplitChar(s[1..], '/');
      SegmentsFromSplit(s[1..], cur + [s[0]]);
      assert cur + pieces[0] == (cur + [s[0]]) + rest[0];
      assert pieces[1..] == rest[1..];
    }
  }

  lemma SegmentsAreSegmentsFrom(s: string)
    ensures Segments(s) == SegmentsFrom(s, [])
  {
    var pieces := SplitChar(s, '/');
    SegmentsFromSplit(s, []);
    assert [] + pieces[0] == pieces[0];
    assert [pieces[0]] + pieces[1..] == pieces;
  }

  lemma {:induction false} CollapseKeepsSegments(s: string, cur: string)
    ensures SegmentsFrom(CollapseSlashes(s), cur) == SegmentsFrom(s, cur)
    decreases |s|
  {
    if |s| >= 2 {
      if s[0] == '/' && s[1] == '/' {
        CollapseKeepsSegments(s[1..], cur);
        assert s[1..][1..] == s[2..];
      } else {
        var c := CollapseSlashes(s[1..]);
        assert ([s[0]] + c)[1..] == c;
        if s[0] == '/' {
          CollapseKeepsSegments(s[1..], []);
        } else {
          CollapseKeepsSegments(s[1..], cur + [s[0]]);
        }
      }
    }
  }

  lemma {:induction false} TrailingSlashKeepsSegments(y: string, cur: string)
    ensures SegmentsFrom(y + "/", cur) == SegmentsFrom(y, cur)
    decreases |y|
  {
    if y == [] {
      assert SegmentsFrom("/", cur) == Flush(cur) + SegmentsFrom([], []);
    } else {
      assert (y + "/")[1..] == y[1..] + "/";
      if y[0] == '/' {
        TrailingSlashKeepsSegments(y[1..], []);
      } else {
        TrailingSlashKeepsSegments(y[1..], cur + [y[0]]);
      }
    }
  }

  lemma {:induction false} DropKeepsSegments(s: string, cur: string)
    ensures SegmentsFrom(DropTrailingSlashes(s), cur) == SegmentsFrom(s, cur)
    decreases |s|
  {
    if s != [] && s[|s| - 1] == '/' {
      DropKeepsSegments(s[..|s| - 1], cur);
      TrailingSlashKeepsSegments(s[..|s| - 1], cur);
      assert s[..|s| - 1] + "/" == s;
    }
  }

  lemma {:induction false} WordThen(w: string, rest: string, cur: string)
    requires '/' !in w
    ensures SegmentsFrom(w + rest, cur) == SegmentsFrom(rest, cur + w)
    decreases |w|
  {
    if w != [] {
      assert (w + rest)[0] == w[0] && (w + rest)[1..] == w[1..] + rest;
      WordThen(w[1..], rest, cur + [w[0]]);
      assert cur + [w[0]] + w[1..] == cur + w;
    } else {
      assert cur + w == cur;
      assert w + rest == rest;
    }
  }

  /** Joining slash-free pieces with "/" and reading the segments back gives the non-empty pieces. */
  lemma {:induction false} JoinSegments(ps: seq<string>)
    requires forall k :: 0 <= k < |ps| ==> '/' !in ps[k]
    ensures SegmentsFrom(Join(ps, "/"), []) == NonEmpty(ps)
    decreases |ps|
  {
    if |ps| == 1 {
      WordThen(ps[0], [], []);
      assert ps[0] + [] == ps[0];
      assert [] + ps[0] == ps[0];
      assert ps[1..] == [];
    } else if |ps| > 1 {
      var tail := Join(ps[1..], "/");
      assert Join(ps, "/") == ps[0] + ("/" + tail);
      WordThen(ps[0], "/" + tail, []);
      assert [] + ps[0] == ps[0];
      assert ("/" + tail)[1..] == tail;
      JoinSegments(ps[1..]);
    }
  }

  lemma {:induction false} SplitPiecesHaveNoSep(s: string)
    ensures forall k :: 0 <= k < |SplitChar(s, '/')| ==> '/' !in SplitChar(s, '/')[k]
    decreases |s|
  {
    if s != [] {
      SplitPiecesHaveNoSep(s[1..]);
    }
  }

  lemma {:induction false} NonEmptyDropTrailing(ps: seq<string>)
    ensures NonEmpty(DropTrailingEmpty(ps)) == NonEmpty(ps)
    decreases |ps|
  {
    if ps != [] && ps[|ps| - 1] == [] {
      var front := ps[..|ps| - 1];
      NonEmptyDropTrailing(front);
      assert ps == front + [[]];
      NonEmptyAppend(front, [[]]);
    }
  }

  // ---------------------------------------------------------------------------
  // Canonical paths: "" or "/a/b/c"

  predicate Canonical(y: string)
  {
    y == [] || (y[0] == '/' && NoDoubleSlash(y) && y[|y| - 1] != '/')
  }

  lemma {:induction false} TailPiecesNonEmpty(z: string)
    requires NoDoubleSlash(z) && (z == [] || z[|z| - 1] != '/')
    ensures forall k :: 1 <= k < |SplitChar(z, '/')| ==> SplitChar(z, '/')[k] != []
    decreases |z|
  {
    if z != [] {
      var z' := z[1..];
      assert NoDoubleSlash(z') by {
        forall i | 0 <= i < |z'| - 1
          ensures !(z'[i] == '/' && z'[i + 1] == '/')
        {
          assert z'[i] == z[i + 1] && z'[i + 1] == z[i + 2];
        }
      }
      TailPiecesNonEmpty(z');
      if z[0] == '/' {
        assert z' != [] && z'[0] != '/';
      }
    }
  }

  lemma NonEmptyAll(ps: seq<string>)
    requires forall k :: 0 <= k < |ps| ==> ps[k] != []
    ensures NonEmpty(ps) == ps
  {
    if ps != [] {
      NonEmptyAll(ps[1..]);
    }
  }

  /** Splitting a canonical path gives one empty piece before each of its segments. */
  lemma CanonicalSplit(y: string)
    requires Canonical(y)
    ensures |JavaSplit(y, '/')| == |Segments(y)| + 1
  {
    if y != [] {
      var z := y[1..];
      assert NoDoubleSlash(z) by {
        forall i | 0 <= i < |z| - 1
          ensures !(z[i] == '/' && z[i + 1] == '/')
        {
          assert z[i] == y[i + 1] && z[i + 1] == y[i + 2];
        }
      }
      assert z != [] && z[0] != '/' && z[|z| - 1] != '/';
      TailPiecesNonEmpty(z);
      var pz := SplitChar(z, '/');
      assert pz[0] != [];
      NonEmptyAll(pz);
      assert SplitChar(y, '/') == [[]] + pz;
      assert DropTrailingEmpty([[]] + pz) == [[]] + pz;
      NonEmptyAppend([[]], pz);
    }
  }

  lemma RemovedSlashesCanonical(j: string)
    requires |j| > 0 && j[0] == '/' && NoDoubleSlash(j)
    ensures Canonical(DropTrailingSlashes(j))
  {
    var y := DropTrailingSlashes(j);
    if y != [] {
      assert y[0] == j[0];
      forall i | 0 <= i < |y| - 1
        ensures !(y[i] == '/' && y[i + 1] == '/')
      {
        assert y[i] == j[i] && y[i + 1] == j[i + 1];
      }
    }
  }

  // ---------------------------------------------------------------------------
  // What the helpers promise

  /** `joinPathParts` changes only the slashes: its segments are those of the plain join. */
  lemma JoinPathPartsKeepsSegments(parts: seq<string>)
    ensures Segments(JoinPathParts(parts)) == Segments(Join(parts, "/"))
  {
    var j := Join(parts, "/");
    SegmentsAreSegmentsFrom(JoinPathParts(parts));
    SegmentsAreSegmentsFrom(j);
    CollapseKeepsSegments("/" + j, []);
    assert ("/" + j)[1..] == j;
  }

  /** Joining names without a slash, then dropping trailing slashes, leaves one slash per non-empty name. */
  lemma JoinedDepth(parts: seq<string>)
    requires forall k :: 0 <= k < |parts| ==> '/' !in parts[k]
    ensures |JavaSplit(DropTrailingSlashes(JoinPathParts(parts)), '/')| == |NonEmpty(parts)| + 1
  {
    var j := JoinPathParts(parts);
    var y := DropTrailingSlashes(j);
    RemovedSlashesCanonical(j);
    CanonicalSplit(y);
    SegmentsAreSegmentsFrom(y);
    DropKeepsSegments(j, []);
    CollapseKeepsSegments("/" + Join(parts, "/"), []);
    assert ("/" + Join(parts, "/"))[1..] == Join(parts, "/");
    JoinSegments(parts);
  }

  /** Java's split at '/' gives pieces without a slash whose non-empty ones are the segments. */
  lemma JavaSplitSegments(p: string)
    ensures forall k :: 0 <= k < |JavaSplit(p, '/')| ==> '/' !in JavaSplit(p, '/')[k]
    ensures NonEmpty(JavaSplit(p, '/')) == Segments(p)
  {
    SplitPiecesHaveNoSep(p);
    if p != [] {
      var pieces := SplitChar(p, '/');
      var kept := DropTrailingEmpty(pieces);
      assert forall k :: 0 <= k < |kept| ==> kept[k] == pieces[k];
      NonEmptyDropTrailing(pieces);
    }
  }

  /** `countPathDepth` is the number of non-empty names in the path, and 0 for `null`. */
  lemma CountPathDepthCountsSegments(path: Option<string>)
    ensures CountPathDepth(path) == if path.None? then 0 else |Segments(path.value)|
  {
    if path.Some? {
      JavaSplitSegments(path.value);
      JoinedDepth(JavaSplit(path.value, '/'));
    }
  }

  /**
   * `conditionPath` gives the root exactly for `null`, blank input or what trims to "/",
   * and otherwise the trimmed input, which then neither starts nor ends with a character
   * at or below U+0020.
   */
  lemma ConditionPathRootOrTrimmed(path: Option<string>)
    ensures (ConditionPath(path) == "/") <==> (path.None? || IsBlank(path.value) || Trim(path.value) == "/")
    ensures var r := ConditionPath(path);
      r != "/" ==> r == Trim(path.value) && (r == [] || (r[0] > ' ' && r[|r| - 1] > ' '))
  {
    var r := ConditionPath(path);
    if r != "/" && r != [] {
      var a := TrimStart(path.value);
      assert r == TrimEnd(a) && r[0] == a[0];
    }
  }
}
