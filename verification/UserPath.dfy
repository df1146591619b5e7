/** Canonical user paths and their ancestors (internal/core/user_path.go). */
module UserPath {
  import opened Text

  datatype PathError = DotSegment | ColonInSegment

  datatype PathResult = Path(path: string) | Invalid(error: PathError)

  datatype SegmentsResult = Segments(segments: seq<string>) | BadSegment(error: PathError)

  predicate IsDots(segment: string) { segment == "." || segment == ".." }

  /** The trimmed non-blank segments, or the error of the first one that is not allowed. */
  function Canonical(segments: seq<string>): SegmentsResult {
    if segments == [] then Segments([])
    else
      var segment := Trim(segments[0]);
      if segment == "" then Canonical(segments[1..])
      else if IsDots(segment) then BadSegment(DotSegment)
      else if ':' in segment then BadSegment(ColonInSegment)
      else
        match Canonical(segments[1..])
        case BadSegment(e) => BadSegment(e)
        case Segments(rest) => Segments([segment] + rest)
  }

  /** What normalization makes of a raw path: "" stands for no path. */
  function Normalize(raw: string): PathResult {
    var trimmed := Trim(raw);
    if trimmed == "" then Path("")
    else
      var rooted := if trimmed[0] == '/' then trimmed else "/" + trimmed;
      match Canonical(Split(rooted, '/'))
      case BadSegment(e) => Invalid(e)
      case Segments(segments) => Path("/" + Join(segments, '/'))
  }

  method NormalizeUserPath(raw: string) returns (r: PathResult)
    ensures r == Normalize(raw)
  {
    var trimmed := Trim(raw);
    if trimmed == "" {
      return Path("");
    }
    if trimmed[0] != '/' {
      trimmed := "/" + trimmed;
    }
    var segments := Split(trimmed, '/');
    var canonical: seq<string> := [];
    for i := 0 to |segments|
      invariant Canonical(segments) == Prepend(canonical, Canonical(segments[i..]))
    {
      var segment := Trim(segments[i]);
      assert segments[i..][1..] == segments[i + 1..];
      if segment == "" {
        continue;
      }
      if IsDots(segment) {
        return Invalid(DotSegment);
      }
      if ':' in segment {
        return Invalid(ColonInSegment);
      }
      PrependMore(canonical, segment, Canonical(segments[i + 1..]));
      canonical := canonical + [segment];
    }
    assert segments[|segments|..] == [] && canonical + [] == canonical;
    if |canonical| == 0 {
      return Path("/");
    }
    return Path("/" + Join(canonical, '/'));
  }

  ghost function Prepend(front: seq<string>, r: SegmentsResult): SegmentsResult {
    if r.Segments? then Segments(front + r.segments) else r
  }

  lemma PrependMore(front: seq<string>, segment: string, r: SegmentsResult)
    ensures Prepend(front, Prepend([segment], r)) == Prepend(front + [segment], r)
  {
    if r.Segments? {
      assert front + ([segment] + r.segments) == front + [segment] + r.segments;
    }
  }

  // What a canonical path is

  predicate GoodSegment(segment: string) {
    segment != "" && Trimmed(segment) && segment != "." && segment != ".." && ':' !in segment && '/' !in segment
  }

  /** A canonical path: the root, or good segments each after a slash. */
  predicate IsNormal(p: string) {
    p == "/" || (p != "" && p[0] == '/' && forall seg :: seg in Split(p[1..], '/') ==> GoodSegment(seg))
  }

  lemma {:induction false} CanonicalIsGood(segments: seq<string>)
    requires forall seg :: seg in segments ==> '/' !in seg
    ensures var r := Canonical(segments); r.Segments? ==> forall seg :: seg in r.segments ==> GoodSegment(seg)
  {
    if segments != [] {
      CanonicalIsGood(segments[1..]);
      TrimIsTrimmed(segments[0]);
      TrimLeftStops(segments[0]);
      TrimKeepsAbsent(segments[0], '/');
    }
  }

  lemma {:induction false} TrimKeepsAbsent(s: string, c: char)
    requires c !in s
    ensures c !in Trim(s)
  {
    TrimRightStops(TrimLeft(s));
    TrimLeftKeepsAbsent(s, c);
  }

  lemma {:induction false} TrimLeftKeepsAbsent(s: string, c: char)
    requires c !in s
    ensures c !in TrimLeft(s)
  {
    if s != "" && IsSpace(s[0]) {
      TrimLeftKeepsAbsent(s[1..], c);
    }
  }

  lemma {:induction false} CanonicalKeepsGood(segments: seq<string>)
    requires forall seg :: seg in segments ==> GoodSegment(seg)
    ensures Canonical(segments) == Segments(segments)
  {
    if segments != [] {
      assert GoodSegment(segments[0]);
      TrimFixed(segments[0]);
      CanonicalKeepsGood(segments[1..]);
      assert [segments[0]] + segments[1..] == segments;
    }
  }

  /** Whatever is accepted is canonical; only blank input has no path. */
  lemma NormalizeIsNormal(raw: string)
    ensures Normalize(raw).Path? ==>
        (if Trim(raw) == "" then Normalize(raw).path == "" else IsNormal(Normalize(raw).path))
  {
    var trimmed := Trim(raw);
    if trimmed != "" {
      var rooted := if trimmed[0] == '/' then trimmed else "/" + trimmed;
      var r := Canonical(Split(rooted, '/'));
      JoinSplit(rooted, '/');
      CanonicalIsGood(Split(rooted, '/'));
      if r.Segments? && r.segments != [] {
        var p := "/" + Join(r.segments, '/');
        SplitJoin(r.segments, '/');
        assert p[1..] == Join(r.segments, '/');
      }
    }
  }

  /** The segments that carry meaning: trimmed, blank ones dropped. */
  function Significant(segments: seq<string>): seq<string> {
    if segments == [] then []
    else (if Trim(segments[0]) == "" then [] else [Trim(segments[0])]) + Significant(segments[1..])
  }

  predicate Forbidden(segment: string) { segment == "." || segment == ".." || ':' in segment }

  lemma {:induction false} CanonicalIsSignificant(segments: seq<string>)
    ensures Canonical(segments).BadSegment? <==> exists seg :: seg in Significant(segments) && Forbidden(seg)
    ensures Canonical(segments).Segments? ==> Canonical(segments).segments == Significant(segments)
  {
    hide Trim;
    if segments != [] {
      CanonicalIsSignificant(segments[1..]);
      var segment, rest := Trim(segments[0]), Significant(segments[1..]);
      if segment != "" {
        assert Significant(segments) == [segment] + rest;
        if exists seg :: seg in rest && Forbidden(seg) {
          var seg :| seg in rest && Forbidden(seg);
          assert seg in Significant(segments);
        }
        if Forbidden(segment) {
          assert segment in Significant(segments);
        }
      } else {
        assert Significant(segments) == rest;
      }
    }
  }

  /** Normalization fails exactly on a forbidden segment, and otherwise keeps all the segments
      of the raw path that are not blank, in order and nothing else. */
  lemma NormalizeKeepsSegments(raw: string)
    requires Trim(raw) != ""
    ensures var segments := Significant(Split(Trim(raw), '/'));
      && (Normalize(raw).Invalid? <==> exists seg :: seg in segments && Forbidden(seg))
      && (Normalize(raw).Path? && segments == [] ==> Normalize(raw).path == "/")
      && (Normalize(raw).Path? && segments != [] ==> Split(Normalize(raw).path[1..], '/') == segments)
  {
    var trimmed := Trim(raw);
    var rooted := if trimmed[0] == '/' then trimmed else "/" + trimmed;
    var segments := Significant(Split(trimmed, '/'));
    assert Significant(Split(rooted, '/')) == segments by {
      if trimmed[0] != '/' {
        SplitAtSeparator("", trimmed, '/');
        assert rooted == "" + ['/'] + trimmed;
        assert ([""] + Split(trimmed, '/'))[1..] == Split(trimmed, '/') && Trim("") == "";
      }
    }
    CanonicalIsSignificant(Split(rooted, '/'));
    if Normalize(raw).Path? && segments != [] {
      JoinSplit(rooted, '/');
      CanonicalIsGood(Split(rooted, '/'));
      SplitJoin(segments, '/');
      assert Normalize(raw).path[1..] == Join(segments, '/');
    }
  }

  lemma RootIsFixed()
    ensures Normalize("/") == Path("/")
  {
    assert Trim("/") == "/" by {
      TrimFixed("/");
    }
    assert Split("/", '/') == ["", ""] by {
      assert "/"[1..] == "";
    }
    assert ["", ""][1..] == [""];
    assert Canonical([""]) == Segments([]);
  }

  lemma DeepPathIsFixed(p: string)
    requires IsNormal(p) && p != "/"
    ensures Normalize(p) == Path(p)
  {
    hide Trim, Trimmed;
    NormalIsTrimmed(p);
    TrimFixed(p);
    var segments := Split(p[1..], '/');
    SplitAtSeparator("", p[1..], '/');
    assert "" + ['/'] + p[1..] == p;
    CanonicalKeepsGood(segments);
    BlankFirst(segments);
    JoinSplit(p[1..], '/');
  }

  lemma BlankFirst(segments: seq<string>)
    ensures Canonical([""] + segments) == Canonical(segments)
  {
    assert ([""] + segments)[1..] == segments && Trim("") == "";
  }

  /** Canonical paths are exactly the fixed points among non-empty strings. */
  lemma NormalizeFixed(p: string)
    ensures p != "" ==> (Normalize(p) == Path(p) <==> IsNormal(p))
  {
    hide Normalize;
    if Normalize(p) == Path(p) {
      NormalizeIsNormal(p);
    } else if IsNormal(p) && p != "/" {
      DeepPathIsFixed(p);
    } else if p == "/" {
      RootIsFixed();
    }
  }

  lemma {:induction false} LastSegmentEnds(s: string)
    requires forall seg :: seg in Split(s, '/') ==> GoodSegment(seg)
    ensures s != "" && s[|s| - 1] != '/' && !IsSpace(s[|s| - 1])
  {
    JoinSplit(s, '/');
    JoinEnds(Split(s, '/'));
  }

  lemma {:induction false} JoinEnds(segments: seq<string>)
    requires segments != [] && forall seg :: seg in segments ==> GoodSegment(seg)
    ensures var s := Join(segments, '/'); s != "" && s[|s| - 1] != '/' && !IsSpace(s[|s| - 1])
  {
    if |segments| > 1 {
      JoinEnds(segments[1..]);
    } else {
      assert segments[0] in segments;
    }
  }

  lemma NormalIsTrimmed(p: string)
    requires IsNormal(p)
    ensures Trimmed(p) && p[0] == '/' && (p != "/" ==> p[|p| - 1] != '/')
  {
    if p != "/" {
      LastSegmentEnds(p[1..]);
    }
  }

  // Ancestors

  function Parent(path: string): string {
    var idx := LastIndex(path, '/');
    if idx <= 0 then "/" else path[..idx]
  }

  /** The path and its ancestors, deepest first. */
  function AncestorsFrom(path: string): (ancestors: seq<string>)
    ensures ancestors != [] && ancestors[0] == path
    decreases |path|, path != "/"
  {
    if path == "/" || path == "" then [path] else [path] + AncestorsFrom(Parent(path))
  }

  function Ancestors(raw: string): seq<string> {
    match Normalize(raw)
    case Invalid(_) => []
    case Path(path) => if path == "" then [] else AncestorsFrom(path)
  }

  lemma AncestorsStep(done: seq<string>, current: string, all: seq<string>)
    requires current != "" && current != "/" && done + AncestorsFrom(current)[1..] == all
    ensures done + [Parent(current)] + AncestorsFrom(Parent(current))[1..] == all
    ensures Parent(current) != "" && (|Parent(current)| < |current| || Parent(current) == "/")
  {
    hide Parent;
    var rest := AncestorsFrom(Parent(current));
    assert AncestorsFrom(current)[1..] == rest;
    hide AncestorsFrom;
    assert done + rest == done + [rest[0]] + rest[1..];
    ParentShorter(current);
  }

  lemma ParentShorter(current: string)
    requires current != ""
    ensures Parent(current) != "" && (|Parent(current)| < |current| || Parent(current) == "/")
  {
  }

  method UserPathAncestors(raw: string) returns (ancestors: seq<string>)
    ensures ancestors == Ancestors(raw)
  {
    assert AncestorsFrom("/") == ["/"];
    hide Normalize, LastIndex, AncestorsFrom;
    var r := NormalizeUserPath(raw);
    if r.Invalid? || r.path == "" {
      return [];
    }
    if r.path == "/" {
      return ["/"];
    }
    ancestors := [r.path];
    var current := r.path;
    while current != "/"
      invariant current != ""
      invariant ancestors + AncestorsFrom(current)[1..] == AncestorsFrom(r.path)
      decreases |current|, current != "/"
    {
      AncestorsStep(ancestors, current, AncestorsFrom(r.path));
      var idx := LastIndex(current, '/');
      if idx <= 0 {
        current := "/";
      } else {
        current := current[..idx];
      }
      ancestors := ancestors + [current];
    }
  }

  /** `b` is the request path or lies above it, segment by segment. */
  predicate Covers(b: string, p: string) {
    b == "/" || p == b || b + "/" <= p
  }

  /** The ancestor list holds exactly the covering paths. */
  lemma {:induction false} AncestorsCover(b: string, p: string)
    requires b != "" && p != "" && p[0] == '/'
    ensures b in AncestorsFrom(p) <==> Covers(b, p)
    decreases |p|, p != "/"
  {
    if p != "/" {
      var parent := Parent(p);
      AncestorsCover(b, parent);
      var idx := LastIndex(p, '/');
      assert idx > 0 ==> p[..idx + 1] == parent + "/";
      if b + "/" <= p {
        assert p[|b|] == '/';
        assert |b| <= idx;
        if |b| < idx {
          assert parent == p[..idx];
          assert b + "/" <= parent;
        } else {
          assert parent == b;
        }
      }
    }
  }

  /** From the deepest to the root, each ancestor covering the ones before it. */
  lemma {:induction false} AncestorsDescend(p: string)
    requires p != "" && p[0] == '/'
    ensures var a := AncestorsFrom(p); a[0] == p && a[|a| - 1] == "/"
    ensures forall i :: 0 <= i < |AncestorsFrom(p)| - 1 ==> AncestorsFrom(p)[i + 1] == Parent(AncestorsFrom(p)[i])
    decreases |p|, p != "/"
  {
    if p != "/" {
      AncestorsDescend(Parent(p));
    }
  }
}
