/**
  POSIX path handling as used by the log lookup: `path.join` followed by
  `path.normalize` on an absolute path, and the guard that keeps a resolved
  path inside the staging directory.
 */
module Paths {
  import opened Text

  /** A segment of a normalised path: non-empty, no separator, not `.` or `..`. */
  predicate IsSegment(s: string)
  {
    s != "" && s != "." && s != ".." && '/' !in s
  }

  predicate AllSegments(segs: seq<string>)
  {
    forall i :: 0 <= i < |segs| ==> IsSegment(segs[i])
  }

  /**
    Walks the raw pieces of a path from left to right on top of the segments
    kept so far: empty and `.` pieces vanish, `..` drops the last kept segment
    (and stays put at the root), every other piece is kept.
   */
  function Resolve(kept: seq<string>, pieces: seq<string>): (r: seq<string>)
    requires AllSegments(kept)
    requires forall i :: 0 <= i < |pieces| ==> '/' !in pieces[i]
    ensures AllSegments(r)
    decreases |pieces|
  {
    if |pieces| == 0 then kept
    else if pieces[0] == "" || pieces[0] == "." then Resolve(kept, pieces[1..])
    else if pieces[0] == ".." then Resolve(if |kept| == 0 then [] else kept[..|kept| - 1], pieces[1..])
    else Resolve(kept + [pieces[0]], pieces[1..])
  }

  /** A proper segment is pushed onto the kept segments. */
  lemma ResolvePush(kept: seq<string>, x: string, rest: seq<string>)
    requires AllSegments(kept) && IsSegment(x)
    requires forall i :: 0 <= i < |rest| ==> '/' !in rest[i]
    ensures Resolve(kept, [x] + rest) == Resolve(kept + [x], rest)
  {
    assert ([x] + rest)[1..] == rest;
  }

  /** `..` right after a pushed segment undoes the push. */
  lemma ResolvePop(kept: seq<string>, x: string, rest: seq<string>)
    requires AllSegments(kept) && IsSegment(x)
    requires forall i :: 0 <= i < |rest| ==> '/' !in rest[i]
    ensures Resolve(kept + [x], [".."] + rest) == Resolve(kept, rest)
  {
    assert ([".."] + rest)[1..] == rest;
    assert (kept + [x])[..|kept|] == kept;
  }

  /** Entering a directory and leaving it again returns to where resolution started. */
  lemma ResolveIntoAndOut(root: seq<string>, x: string)
    requires AllSegments(root) && IsSegment(x)
    ensures Resolve(root, [x]) == root + [x]
    ensures Resolve(root + [x], [".."]) == root
  {
    ResolvePush(root, x, []);
    ResolvePop(root, x, []);
  }

  /** Appending a piece without `/` keeps a run of pieces free of `/`. */
  lemma NoSlashAppend(a: seq<string>, x: string)
    requires forall i :: 0 <= i < |a| ==> '/' !in a[i]
    requires '/' !in x
    ensures forall i :: 0 <= i < |a + [x]| ==> '/' !in (a + [x])[i]
  {
  }

  /** Resolving two runs of pieces one after the other is resolving their concatenation. */
  lemma {:induction false} ResolveConcat(kept: seq<string>, a: seq<string>, b: seq<string>)
    requires AllSegments(kept)
    requires forall i :: 0 <= i < |a| ==> '/' !in a[i]
    requires forall i :: 0 <= i < |b| ==> '/' !in b[i]
    ensures Resolve(kept, a + b) == Resolve(Resolve(kept, a), b)
    decreases |a|
  {
    if |a| > 0 {
      assert (a + b)[0] == a[0] && (a + b)[1..] == a[1..] + b;
      var next := if a[0] == "" || a[0] == "." then kept
        else if a[0] == ".." then (if |kept| == 0 then [] else kept[..|kept| - 1])
        else kept + [a[0]];
      ResolveConcat(next, a[1..], b);
    } else {
      assert a + b == b;
    }
  }

  /** Resolving from the root, a final proper segment is appended to the resolution of the rest. */
  lemma ResolveAppendSegment(a: seq<string>, x: string)
    requires forall i :: 0 <= i < |a| ==> '/' !in a[i]
    requires IsSegment(x)
    ensures forall i :: 0 <= i < |a + [x]| ==> '/' !in (a + [x])[i]
    ensures Resolve([], a + [x]) == Resolve([], a) + [x]
  {
    NoSlashAppend(a, x);
    ResolveConcat([], a, [x]);
    ResolvePush(Resolve([], a), x, []);
  }

  /** Resolving from the root, pieces `c`, then `x`, then `y`, then `f` resolve one run at a time. */
  lemma ResolveInSteps(c: seq<string>, x: string, y: string, f: seq<string>)
    requires forall i :: 0 <= i < |c| ==> '/' !in c[i]
    requires forall i :: 0 <= i < |f| ==> '/' !in f[i]
    requires '/' !in x && '/' !in y
    ensures Resolve([], c + [x] + [y] + f) == Resolve(Resolve(Resolve(Resolve([], c), [x]), [y]), f)
  {
    NoSlashAppend(c, x);
    NoSlashAppend(c + [x], y);
    ResolveConcat([], c + [x] + [y], f);
    ResolveConcat([], c + [x], [y]);
    ResolveConcat([], c, [x]);
  }

  /** The absolute path whose segments are `segs`; the root is `/`. */
  function Render(segs: seq<string>): string
  {
    "/" + Join(segs, '/')
  }

  /**
    `path.normalize` of an absolute path. Every path this model builds starts
    from the working directory, which is absolute, so the result is rooted.
   */
  function Normalize(p: string): (q: string)
    ensures |q| >= 1 && q[0] == '/'
  {
    Render(Resolve([], Split(p, '/')))
  }

  /** Resolving pieces that are already segments keeps them all. */
  lemma {:induction false} ResolveSegments(kept: seq<string>, segs: seq<string>)
    requires AllSegments(kept) && AllSegments(segs)
    ensures Resolve(kept, segs) == kept + segs
    decreases |segs|
  {
    if |segs| > 0 {
      ResolveSegments(kept + [segs[0]], segs[1..]);
      assert kept + [segs[0]] + segs[1..] == kept + segs;
    }
  }

  /** The join of a non-empty segment list is not empty. */
  lemma JoinNonEmpty(segs: seq<string>)
    requires AllSegments(segs) && |segs| >= 1
    ensures |Join(segs, '/')| >= 1
  {
    if |segs| > 1 {
      assert Join(segs, '/') == segs[0] + ['/'] + Join(segs[1..], '/');
    }
  }

  /** A rendered path splits into an empty leading piece followed by its segments. */
  lemma RenderPieces(segs: seq<string>)
    requires AllSegments(segs)
    ensures Resolve([], Split(Render(segs), '/')) == segs
  {
    var j := Join(segs, '/');
    SplitConcat("", '/', j);
    assert Render(segs) == "" + ['/'] + j;
    assert Split("", '/') == [""];
    var pieces := Split(j, '/');
    var all := [""] + pieces;
    assert Split(Render(segs), '/') == all;
    assert all[0] == "" && all[1..] == pieces;
    assert Resolve([], all) == Resolve([], pieces);
    if |segs| == 0 {
      assert pieces == [""];
      assert Resolve([], pieces) == Resolve([], pieces[1..]);
      assert pieces[1..] == [];
    } else {
      SplitJoin(segs, '/');
      ResolveSegments([], segs);
    }
  }

  /** Normalising twice is normalising once. */
  lemma NormalizeIdempotent(p: string)
    ensures Normalize(Normalize(p)) == Normalize(p)
  {
    RenderPieces(Resolve([], Split(p, '/')));
  }

  /**
    The intended guard: `p` is the staging directory `base` itself or lies
    below it, judged at a segment boundary.
   */
  function InsideBase(base: string, p: string): (ok: bool)
    ensures ok ==> StartsWith(p, base)
  {
    p == base || StartsWith(p, if base == "/" then base else base + "/")
  }

  /** A path whose segments extend the base's passes the intended guard. */
  lemma DescendantIsInside(b: seq<string>, p: seq<string>)
    requires AllSegments(b) && AllSegments(p) && b <= p
    ensures InsideBase(Render(b), Render(p))
  {
    var base, path := Render(b), Render(p);
    if |b| == 0 {
      assert base == "/";
    } else if p != b {
      JoinNonEmpty(b);
      var rest := p[|b|..];
      assert p == b + rest;
      JoinConcat(b, rest, '/');
      assert path == base + "/" + Join(rest, '/');
    }
  }

  /** Rendering is injective on segment lists. */
  lemma RenderInjective(b: seq<string>, p: seq<string>)
    requires AllSegments(b) && AllSegments(p)
    requires Render(b) == Render(p)
    ensures b == p
  {
    var jb, jp := Join(b, '/'), Join(p, '/');
    assert jb == Render(b)[1..] && jp == Render(p)[1..];
    if |b| > 0 && |p| > 0 {
      SplitJoin(b, '/');
      SplitJoin(p, '/');
    } else if |b| > 0 {
      JoinNonEmpty(b);
    } else if |p| > 0 {
      JoinNonEmpty(p);
    }
  }

  /** A join that continues another join past a separator extends its segment list. */
  lemma JoinExtends(b: seq<string>, p: seq<string>, rest: string)
    requires AllSegments(b) && AllSegments(p) && |b| >= 1
    requires Join(p, '/') == Join(b, '/') + ['/'] + rest
    ensures b <= p
  {
    var jb := Join(b, '/');
    assert |Join(p, '/')| >= 1;
    assert |p| >= 1;
    SplitJoin(b, '/');
    SplitJoin(p, '/');
    SplitConcat(jb, '/', rest);
    assert p == b + Split(rest, '/');
  }

  /** A path that passes the intended guard has the base's segments as a prefix. */
  lemma InsideIsDescendant(b: seq<string>, p: seq<string>)
    requires AllSegments(b) && AllSegments(p)
    requires InsideBase(Render(b), Render(p))
    ensures b <= p
  {
    if Render(p) == Render(b) {
      RenderInjective(b, p);
    } else if |b| > 0 {
      JoinNonEmpty(b);
      assert Render(b) != "/";
      BelowBaseExtends(b, p);
    }
  }

  /** A path that continues the base past a `/` extends the base's segment list. */
  lemma BelowBaseExtends(b: seq<string>, p: seq<string>)
    requires AllSegments(b) && AllSegments(p) && |b| >= 1
    requires Render(b) + "/" <= Render(p)
    ensures b <= p
  {
    var base, path := Render(b), Render(p);
    var rest := path[|base| + 1..];
    assert path == base + "/" + rest;
    assert path[1..] == Join(b, '/') + ['/'] + rest;
    JoinExtends(b, p, rest);
  }

  /** On normalised paths the intended guard holds exactly when the base's segments begin the path's. */
  lemma InsideBaseIsDescendant(b: seq<string>, p: seq<string>)
    requires AllSegments(b) && AllSegments(p)
    ensures InsideBase(Render(b), Render(p)) <==> b <= p
  {
    if b <= p { DescendantIsInside(b, p); }
    if InsideBase(Render(b), Render(p)) { InsideIsDescendant(b, p); }
  }
}
