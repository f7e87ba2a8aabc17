/** Lexical path clean-up (`Files.simplifyPath`) and file-extension extraction
    (`Files.getFileExtension`). Paths are strings; '/' is the only separator. */
module Files {
  import opened Strings

  /** A piece of a split path: non-empty and free of separators. */
  predicate Segment(x: string) {
    x != "" && '/' !in x
  }

  /** Number of leading characters of `s` before the first '/'. */
  function SegmentLength(s: string): (n: nat)
    ensures n <= |s|
    ensures forall i :: 0 <= i < n ==> s[i] != '/'
    ensures n == |s| || s[n] == '/'
    ensures s != [] && s[0] != '/' ==> n >= 1
  {
    if s == [] || s[0] == '/' then 0 else 1 + SegmentLength(s[1..])
  }

  /** Splitting on '/' and omitting empty strings. */
  function Split(s: string): (parts: seq<string>)
    ensures forall i :: 0 <= i < |parts| ==> Segment(parts[i])
    decreases |s|
  {
    if s == [] then []
    else if s[0] == '/' then Split(s[1..])
    else
      var n := SegmentLength(s);
      assert '/' !in s[..n];
      [s[..n]] + Split(s[n..])
  }

  /** Kept ".." segments all come before every other segment. */
  predicate ParentsFirst(path: seq<string>) {
    forall i, j :: 0 <= i < j < |path| && path[j] == ".." ==> path[i] == ".."
  }

  /** What the resolution loop keeps: real segments, no ".", ".." only as a prefix. */
  predicate Canonical(path: seq<string>) {
    && (forall i :: 0 <= i < |path| ==> Segment(path[i]) && path[i] != ".")
    && ParentsFirst(path)
  }

  /** One turn of the resolution loop: "." is skipped, ".." pops an ordinary segment
      or is kept when there is none to pop, anything else is pushed. */
  function Step(path: seq<string>, component: string): seq<string> {
    if component == "." then path
    else if component == ".." then
      if |path| > 0 && path[|path| - 1] != ".." then path[..|path| - 1] else path + [".."]
    else path + [component]
  }

  /** The resolution loop over all remaining components. */
  function Resolve(path: seq<string>, components: seq<string>): seq<string>
    decreases |components|
  {
    if components == [] then path else Resolve(Step(path, components[0]), components[1..])
  }

  /** Repeatedly cuts "/.." off a result that starts with "/../". */
  function StripParents(r: string): string
    decreases |r|
  {
    if StartsWith(r, "/../") then StripParents(r[3..]) else r
  }

  /** The lexically cleaned form of `pathname`. */
  function Simplify(pathname: string): string {
    if pathname == "" then "."
    else
      var joined := Join(Resolve([], Split(pathname)), "/");
      var r := StripParents(if pathname[0] == '/' then "/" + joined else joined);
      if r == "/.." then "/" else if r == "" then "." else r
  }

  method SimplifyPath(pathname: string) returns (result: string)
    ensures result == Simplify(pathname)
  {
    if |pathname| == 0 {
      return ".";
    }
    var components := Split(pathname);
    var path: seq<string> := [];
    for i := 0 to |components|
      invariant Resolve(path, components[i..]) == Resolve([], components)
    {
      var component := components[i];
      assert components[i..][1..] == components[i + 1..];
      if component == "." {
        continue;
      } else if component == ".." {
        if |path| > 0 && path[|path| - 1] != ".." {
          path := path[..|path| - 1];
        } else {
          path := path + [".."];
        }
      } else {
        path := path + [component];
      }
    }
    assert components[|components|..] == [];
    result := Join(path, "/");
    if pathname[0] == '/' {
      result := "/" + result;
    }
    ghost var joined := result;
    while StartsWith(result, "/../")
      invariant StripParents(result) == StripParents(joined)
      decreases |result|
    {
      result := result[3..];
    }
    if result == "/.." {
      result := "/";
    } else if result == "" {
      result := ".";
    }
  }

  /** `getFileExtension`: the text after the last '.', or "" when there is none. */
  function FileExtension(fileName: string): (ext: string)
    ensures '.' !in ext
    ensures '.' !in fileName ==> ext == ""
    ensures '.' in fileName ==>
      |ext| < |fileName| && fileName[|fileName| - |ext| - 1] == '.' && fileName[|fileName| - |ext|..] == ext
  {
    var dotIndex := LastIndexOf(fileName, '.');
    if dotIndex == -1 then "" else fileName[dotIndex + 1..]
  }

  // ---------------------------------------------------------------------------
  // Properties of the resolution step

  /** ".." right after an ordinary segment undoes it. */
  lemma StepCancels(path: seq<string>, x: string)
    requires x != "." && x != ".."
    ensures Step(Step(path, x), "..") == path
  {
    assert (path + [x])[..|path|] == path;
  }

  lemma StepCanonical(path: seq<string>, component: string)
    requires Canonical(path) && Segment(component)
    ensures Canonical(Step(path, component))
  {
    var next := Step(path, component);
    if component == ".." && !(|path| > 0 && path[|path| - 1] != "..") {
      forall i, j | 0 <= i < j < |next| && next[j] == ".."
        ensures next[i] == ".."
      {
        if j < |path| {
          assert path[j] == "..";
        } else {
          assert j == |path| && |path| > 0;
          assert path[|path| - 1] == "..";
        }
      }
    }
  }

  lemma {:induction false} ResolveCanonical(path: seq<string>, components: seq<string>)
    requires Canonical(path)
    requires forall i :: 0 <= i < |components| ==> Segment(components[i])
    ensures Canonical(Resolve(path, components))
    decreases |components|
  {
    if components != [] {
      StepCanonical(path, components[0]);
      ResolveCanonical(Step(path, components[0]), components[1..]);
    }
  }

  // ---------------------------------------------------------------------------
  // Joining and splitting segments

  /** A join of segments is empty only for no segments, and has no empty segment:
      no leading or trailing '/' and no "//". */
  lemma {:induction false} JoinShape(parts: seq<string>)
    requires forall i :: 0 <= i < |parts| ==> Segment(parts[i])
    ensures var j := Join(parts, "/");
      && (j == "" <==> parts == [])
      && (j != "" ==> j[0] != '/' && j[|j| - 1] != '/')
      && (forall k :: 0 <= k < |j| - 1 ==> !(j[k] == '/' && j[k + 1] == '/'))
    decreases |parts|
  {
    if |parts| == 1 {
      assert '/' !in parts[0];
    } else if |parts| >= 2 {
      var init := parts[..|parts| - 1];
      var last := parts[|parts| - 1];
      JoinShape(init);
      var a := Join(init, "/");
      var j := a + "/" + last;
      assert Join(parts, "/") == j;
      assert a != "" && a[0] != '/' && a[|a| - 1] != '/';
      assert '/' !in last && last != "";
      forall k | 0 <= k < |j| - 1
        ensures !(j[k] == '/' && j[k + 1] == '/')
      {
        if k < |a| - 1 {
          assert j[k] == a[k] && j[k + 1] == a[k + 1];
        } else if k == |a| - 1 {
          assert j[k] == a[|a| - 1];
        } else {
          assert j[k + 1] == last[k - |a|];
        }
      }
      assert j[0] == a[0];
      assert j[|j| - 1] == last[|last| - 1];
    }
  }

  lemma SegmentLengthOf(x: string, tail: string)
    requires Segment(x)
    requires tail == "" || tail[0] == '/'
    ensures SegmentLength(x + tail) == |x|
    decreases |x|
  {
    if |x| > 1 {
      assert (x + tail)[1..] == x[1..] + tail;
      SegmentLengthOf(x[1..], tail);
    } else {
      assert (x + tail)[1..] == tail;
    }
  }

  /** Splitting undoes joining: `Split` is the inverse of `Join` with '/' on segments. */
  lemma {:induction false} SplitJoin(parts: seq<string>)
    requires forall i :: 0 <= i < |parts| ==> Segment(parts[i])
    ensures Split(Join(parts, "/")) == parts
    decreases |parts|
  {
    if |parts| == 1 {
      SegmentLengthOf(parts[0], "");
      assert parts[0][|parts[0]|..] == [];
      assert parts[0][..|parts[0]|] == parts[0];
    } else if |parts| >= 2 {
      JoinCons(parts, "/");
      var x := parts[0];
      var rest := Join(parts[1..], "/");
      var s := x + ("/" + rest);
      assert Join(parts, "/") == s;
      SegmentLengthOf(x, "/" + rest);
      assert s[..|x|] == x;
      assert s[|x|..] == "/" + rest;
      assert ("/" + rest)[1..] == rest;
      SplitJoin(parts[1..]);
      assert Split(s) == [x] + Split(rest);
      assert [x] + parts[1..] == parts;
    }
  }

  lemma SplitLeadingSlash(s: string)
    ensures Split("/" + s) == Split(s)
  {
    assert ("/" + s)[1..] == s;
  }

  /** A segment splits into itself. */
  lemma SplitSegment(x: string)
    requires Segment(x)
    ensures Split(x) == [x]
  {
    SegmentLengthOf(x, "");
    assert x + "" == x;
    assert x[..|x|] == x && x[|x|..] == [];
  }

  /** Text after the first '/' of `a`, or after all of `a` when the next text starts
      with '/', does not change where the first segment of `a` ends. */
  lemma {:induction false} SegmentLengthAppend(a: string, t: string)
    requires SegmentLength(a) < |a| || t == [] || t[0] == '/'
    ensures SegmentLength(a + t) == SegmentLength(a)
    decreases |a|
  {
    if a == [] {
      assert a + t == t;
    } else if a[0] != '/' {
      assert (a + t)[0] == a[0];
      assert (a + t)[1..] == a[1..] + t;
      SegmentLengthAppend(a[1..], t);
    }
  }

  /** Splitting distributes over '/': runs of separators and the empty strings they
      leave are dropped wherever they occur. */
  lemma {:induction false} SplitAppend(a: string, b: string)
    ensures Split(a + "/" + b) == Split(a) + Split(b)
    decreases |a|
  {
    var s := a + "/" + b;
    if a == [] {
      assert s == "/" + b;
      SplitLeadingSlash(b);
    } else if a[0] == '/' {
      assert s[0] == '/';
      assert s[1..] == a[1..] + "/" + b;
      SplitAppend(a[1..], b);
    } else {
      var n := SegmentLength(a);
      assert s == a + ("/" + b);
      SegmentLengthAppend(a, "/" + b);
      assert s[0] == a[0];
      assert s[..n] == a[..n];
      if n == |a| {
        assert s[n..] == "/" + b;
        assert a[n..] == [];
        SplitLeadingSlash(b);
      } else {
        assert s[n..] == a[n..] + "/" + b;
        SplitAppend(a[n..], b);
      }
    }
  }

  /** Multiple and trailing slashes are collapsed. */
  lemma SplitCollapsesSlashes()
    ensures Split("a//b/") == ["a", "b"]
  {
    SplitAppend("a", "/b/");
    SplitAppend("", "b/");
    SplitAppend("b", "");
    assert "a" + "/" + "/b/" == "a//b/";
    assert "" + "/" + "b/" == "/b/";
    assert "b" + "/" + "" == "b/";
    SplitSegment("a");
    SplitSegment("b");
  }

  // ---------------------------------------------------------------------------
  // Stripping leading parents of an absolute result

  /** The leading ".." segments dropped from an absolute result, keeping at most one. */
  function DropParents(segs: seq<string>): (r: seq<string>)
    ensures |r| <= |segs| && r == segs[|segs| - |r|..]
    ensures r == [] || |r| < 2 || r[0] != ".."
    decreases |segs|
  {
    if |segs| >= 2 && segs[0] == ".." then DropParents(segs[1..]) else segs
  }

  lemma NoStripSegment(x: string, tail: string)
    requires Segment(x)
    requires tail == "" || tail[0] == '/'
    requires x != ".." || tail == ""
    ensures !StartsWith("/" + x + tail, "/../")
  {
    var s := "/" + x + tail;
    if |x| >= 3 {
      assert s[3] == x[2] && x[2] in x;
    } else if |x| == 2 {
      if tail == "" {
        assert |s| == 3;
      } else {
        assert s[1..3] == x;
      }
    } else if tail != "" {
      assert s[2] == tail[0];
    } else {
      assert |s| == 2;
    }
  }

  lemma NoStrip(segs: seq<string>)
    requires forall i :: 0 <= i < |segs| ==> Segment(segs[i])
    requires segs == [] || |segs| < 2 || segs[0] != ".."
    ensures !StartsWith("/" + Join(segs, "/"), "/../")
  {
    if |segs| == 1 {
      NoStripSegment(segs[0], "");
      assert "/" + Join(segs, "/") == "/" + segs[0] + "";
    } else if |segs| >= 2 {
      JoinCons(segs, "/");
      var tail := "/" + Join(segs[1..], "/");
      NoStripSegment(segs[0], tail);
      assert "/" + Join(segs, "/") == "/" + segs[0] + tail;
    }
  }

  lemma {:induction false} StripJoin(segs: seq<string>)
    requires forall i :: 0 <= i < |segs| ==> Segment(segs[i])
    ensures StripParents("/" + Join(segs, "/")) == "/" + Join(DropParents(segs), "/")
    decreases |segs|
  {
    var s := "/" + Join(segs, "/");
    if |segs| >= 2 && segs[0] == ".." {
      JoinCons(segs, "/");
      var rest := "/" + Join(segs[1..], "/");
      assert s == "/.." + rest;
      assert StartsWith(s, "/../");
      assert s[3..] == rest;
      StripJoin(segs[1..]);
    } else {
      NoStrip(segs);
    }
  }

  // ---------------------------------------------------------------------------
  // The shape of a simplified path

  /** The segments a simplified non-empty path is made of. */
  function SimplifiedSegments(pathname: string): seq<string>
    requires pathname != ""
  {
    var segs := Resolve([], Split(pathname));
    if pathname[0] == '/' then
      var kept := DropParents(segs);
      if kept == [".."] then [] else kept
    else segs
  }

  lemma CanonicalSuffix(segs: seq<string>, k: nat)
    requires Canonical(segs) && k <= |segs|
    ensures Canonical(segs[k..])
  {
    var suffix := segs[k..];
    assert forall i :: 0 <= i < |suffix| ==> suffix[i] == segs[k + i];
  }

  lemma SimplifiedSegmentsCanonical(pathname: string)
    requires pathname != ""
    ensures Canonical(SimplifiedSegments(pathname))
    ensures pathname[0] == '/' ==> ".." !in SimplifiedSegments(pathname)
  {
    var segs := Resolve([], Split(pathname));
    ResolveCanonical([], Split(pathname));
    if pathname[0] == '/' {
      var kept := DropParents(segs);
      CanonicalSuffix(segs, |segs| - |kept|);
      if kept != [".."] && kept != [] {
        if |kept| == 1 {
          assert kept == [kept[0]];
        }
        assert kept[0] != "..";
      }
    }
  }

  /** Only the single segment ".." joins to "..". */
  lemma JoinIsParent(segs: seq<string>)
    requires forall i :: 0 <= i < |segs| ==> Segment(segs[i])
    requires Join(segs, "/") == ".."
    ensures segs == [".."]
  {
    SplitJoin(segs);
    SegmentLengthOf("..", "");
    assert ".."[..2] == ".." && ".."[2..] == "";
    assert Split("..") == [".."];
  }

  /** The fix-ups after joining, for an absolute path. */
  lemma AbsoluteShape(segs: seq<string>)
    requires Canonical(segs)
    ensures var r := StripParents("/" + Join(segs, "/"));
      var kept := DropParents(segs);
      (if r == "/.." then "/" else if r == "" then "." else r)
        == "/" + Join(if kept == [".."] then [] else kept, "/")
  {
    StripJoin(segs);
    var kept := DropParents(segs);
    CanonicalSuffix(segs, |segs| - |kept|);
    var j := Join(kept, "/");
    var r := "/" + j;
    if r == "/.." {
      assert j == r[1..];
      JoinIsParent(kept);
    }
  }

  /** The fix-ups after joining, for a relative path. */
  lemma RelativeShape(segs: seq<string>)
    requires Canonical(segs)
    ensures var r := StripParents(Join(segs, "/"));
      (if r == "/.." then "/" else if r == "" then "." else r)
        == if segs == [] then "." else Join(segs, "/")
  {
    JoinShape(segs);
    var j := Join(segs, "/");
    assert j != "" ==> j[0] != '/';
    assert !StartsWith(j, "/../");
  }

  /** A simplified path is "." or the join of its segments, behind a '/' when the
      input is absolute. */
  lemma SimplifyShape(pathname: string)
    requires pathname != ""
    ensures var segs := SimplifiedSegments(pathname);
      Simplify(pathname) ==
        if pathname[0] == '/' then "/" + Join(segs, "/")
        else if segs == [] then "." else Join(segs, "/")
  {
    var segs := Resolve([], Split(pathname));
    ResolveCanonical([], Split(pathname));
    if pathname[0] == '/' {
      AbsoluteShape(segs);
    } else {
      RelativeShape(segs);
    }
  }

  /** The observable guarantees of `simplifyPath`. */
  lemma SimplifyPathProperties(pathname: string)
    ensures Simplify("") == "."
    ensures var r := Simplify(pathname);
      && r != ""
      && (r == "." || "." !in Split(r))
      && (forall k :: 0 <= k < |r| - 1 ==> !(r[k] == '/' && r[k + 1] == '/'))
      && (r[|r| - 1] == '/' ==> r == "/")
      && ParentsFirst(Split(r))
      && (pathname != "" && r != "." ==> Split(r) == SimplifiedSegments(pathname))
      && (pathname != "" && pathname[0] == '/' ==> r[0] == '/' && ".." !in Split(r))
      && (pathname == "" || pathname[0] != '/' ==> r[0] != '/')
  {
    if pathname != "" {
      var segs := SimplifiedSegments(pathname);
      SimplifyShape(pathname);
      SimplifiedSegmentsCanonical(pathname);
      JoinShape(segs);
      SplitJoin(segs);
      var j := Join(segs, "/");
      if pathname[0] == '/' {
        SplitLeadingSlash(j);
        var r := "/" + j;
        forall k | 0 <= k < |r| - 1
          ensures !(r[k] == '/' && r[k + 1] == '/')
        {
          if k > 0 {
            assert r[k] == j[k - 1] && r[k + 1] == j[k];
          }
        }
      } else {
        SegmentLengthOf(".", "");
        assert "."[..1] == "." && "."[1..] == "";
        assert Split(".") == ["."];
      }
    }
  }
}
