/**
 * Route patterns (dist/server.js `normalizePathSegments`, `compileRoutePath`,
 * `matchRoutePath`): a pattern such as `/items/:id` compiles to literal and
 * parameter segments, and a request's slug matches it segment by segment at
 * exactly the same arity.
 */
module RoutePaths {
  import opened Js
  import opened Strings

  datatype Segment = Literal(value: string) | Param(name: string)

  /** A piece of a normalised path: non-empty, trimmed, no slash. */
  predicate WellFormedPiece(p: string) {
    p != "" && Trimmed(p) && '/' !in p
  }

  // ---------------------------------------------------------------------------
  // Normalisation
  // ---------------------------------------------------------------------------

  /** One piece after `.map(trim).filter(Boolean)`: its trimmed text, or nothing. */
  function TrimmedPiece(x: string): seq<string> {
    var t := Trim(x);
    if t == "" then [] else [t]
  }

  /** Trim every piece and drop the ones left empty (`.map(trim).filter(Boolean)`). */
  function TrimAndDropEmpty(xs: seq<string>): (r: seq<string>)
    ensures |r| <= |xs|
  {
    if |xs| == 0 then [] else TrimmedPiece(xs[0]) + TrimAndDropEmpty(xs[1..])
  }

  /** The piece kept from a slash-free string is well formed. */
  lemma TrimmedPieceWellFormed(x: string)
    requires '/' !in x
    ensures forall i :: 0 <= i < |TrimmedPiece(x)| ==> WellFormedPiece(TrimmedPiece(x)[i])
  {
  }

  /** Slash-free pieces normalise to well-formed pieces. */
  lemma {:induction false} TrimAndDropEmptyWellFormed(xs: seq<string>)
    requires forall i :: 0 <= i < |xs| ==> '/' !in xs[i]
    ensures forall i :: 0 <= i < |TrimAndDropEmpty(xs)| ==> WellFormedPiece(TrimAndDropEmpty(xs)[i])
    decreases |xs|
  {
    if |xs| > 0 {
      TrimmedPieceWellFormed(xs[0]);
      assert forall i :: 0 <= i < |xs| - 1 ==> xs[1..][i] == xs[i + 1];
      TrimAndDropEmptyWellFormed(xs[1..]);
    }
  }

  /** Every piece of any string is well formed. */
  lemma PiecesWellFormed(s: string)
    ensures forall i :: 0 <= i < |Pieces(s)| ==> WellFormedPiece(Pieces(s)[i])
  {
    TrimAndDropEmptyWellFormed(Split(s, '/'));
  }

  /** The reference reading of a path: split on `/`, trim, drop empties. */
  function Pieces(s: string): seq<string> {
    TrimAndDropEmpty(Split(s, '/'))
  }

  /** `normalizePathSegments`: trim; blank or `/` is no segment; strip the leading
      and trailing slashes; then split, trim and drop empty pieces. */
  function NormalizePathSegments(path: Option<string>): (r: seq<string>)
    ensures forall i :: 0 <= i < |r| ==> WellFormedPiece(r[i])
  {
    NormalizeTrimmed(Trim(path.GetOr("")))
  }

  /** The steps of `normalizePathSegments` after the initial trim. */
  function NormalizeTrimmed(raw: string): (r: seq<string>)
    ensures forall i :: 0 <= i < |r| ==> WellFormedPiece(r[i])
  {
    if |raw| == 0 || raw == ['/'] then []
    else
      var stripped := StripTrailing(StripLeading(raw, '/'), '/');
      if |stripped| == 0 then []
      else
        PiecesWellFormed(stripped);
        Pieces(stripped)
  }

  lemma TrimAndDropEmptyCons(x: string, xs: seq<string>)
    ensures TrimAndDropEmpty([x] + xs) == TrimmedPiece(x) + TrimAndDropEmpty(xs)
  {
    assert ([x] + xs)[1..] == xs;
  }

  lemma {:induction false} TrimAndDropEmptyAppend(xs: seq<string>, ys: seq<string>)
    ensures TrimAndDropEmpty(xs + ys) == TrimAndDropEmpty(xs) + TrimAndDropEmpty(ys)
    decreases |xs|
  {
    if |xs| == 0 {
      assert xs + ys == ys;
    } else {
      var rest := xs[1..];
      assert xs == [xs[0]] + rest;
      assert xs + ys == [xs[0]] + (rest + ys);
      TrimAndDropEmptyCons(xs[0], rest + ys);
      TrimAndDropEmptyCons(xs[0], rest);
      TrimAndDropEmptyAppend(rest, ys);
      SeqAssoc(TrimmedPiece(xs[0]), TrimAndDropEmpty(rest), TrimAndDropEmpty(ys));
    }
  }

  lemma SeqSnoc<T>(t: seq<T>)
    requires |t| > 0
    ensures t == t[..|t| - 1] + [t[|t| - 1]]
  {
  }

  lemma SeqAssoc<T>(a: seq<T>, b: seq<T>, c: seq<T>)
    ensures a + (b + c) == (a + b) + c
  {
  }

  lemma {:induction false} TrimAndDropEmptyOfPieces(xs: seq<string>)
    requires forall i :: 0 <= i < |xs| ==> WellFormedPiece(xs[i])
    ensures TrimAndDropEmpty(xs) == xs
    decreases |xs|
  {
    if |xs| > 0 {
      TrimOfTrimmed(xs[0]);
      TrimAndDropEmptyOfPieces(xs[1..]);
    }
  }

  lemma SplitOfEmpty(e: string)
    requires |e| == 0
    ensures Split(e, '/') == [e]
  {
  }

  lemma TrimAndDropEmptyOfEmpty(e: string)
    requires |e| == 0
    ensures TrimAndDropEmpty([e]) == []
  {
  }

  lemma PiecesOfEmpty(e: string)
    requires |e| == 0
    ensures Pieces(e) == []
  {
    SplitOfEmpty(e);
    TrimAndDropEmptyOfEmpty(e);
  }

  /** A slash between two strings separates their pieces. */
  lemma PiecesAtSlash(a: string, b: string)
    ensures Pieces(a + "/" + b) == Pieces(a) + Pieces(b)
  {
    SplitAtSeparator(a, '/', b);
    TrimAndDropEmptyAppend(Split(a, '/'), Split(b, '/'));
  }

  /** A leading slash adds no piece. */
  lemma PiecesAfterSlash(s: string)
    requires |s| > 0 && s[0] == '/'
    ensures Pieces(s) == Pieces(s[1..])
  {
    var e := s[..0];
    assert s == e + "/" + s[1..];
    PiecesAtSlash(e, s[1..]);
    PiecesOfEmpty(e);
  }

  /** A trailing slash adds no piece. */
  lemma PiecesBeforeSlash(s: string)
    requires |s| > 0 && s[|s| - 1] == '/'
    ensures Pieces(s) == Pieces(s[..|s| - 1])
  {
    var e := s[|s|..];
    assert s == s[..|s| - 1] + "/" + e;
    PiecesAtSlash(s[..|s| - 1], e);
    PiecesOfEmpty(e);
  }

  lemma {:induction false} PiecesIgnoreLeadingSlashes(s: string)
    ensures Pieces(StripLeading(s, '/')) == Pieces(s)
    decreases |s|
  {
    if |s| > 0 && s[0] == '/' {
      PiecesAfterSlash(s);
      PiecesIgnoreLeadingSlashes(s[1..]);
    }
  }

  lemma {:induction false} PiecesIgnoreTrailingSlashes(s: string)
    ensures Pieces(StripTrailing(s, '/')) == Pieces(s)
    decreases |s|
  {
    if |s| > 0 && s[|s| - 1] == '/' {
      PiecesBeforeSlash(s);
      PiecesIgnoreTrailingSlashes(s[..|s| - 1]);
    }
  }

  lemma WhitespaceHasNoSlash(w: string)
    requires AllWhitespace(w)
    ensures '/' !in w
  {
    forall k | 0 <= k < |w| ensures w[k] != '/' {
      assert IsWhitespace(w[k]);
    }
  }

  lemma PiecesIgnoreLeadingWhitespace(w: string, m: string)
    requires AllWhitespace(w)
    ensures Pieces(w + m) == Pieces(m)
  {
    WhitespaceHasNoSlash(w);
    SplitAfterPlainPrefix(w, m, '/');
    var t := Split(m, '/');
    TrimIgnoresLeadingWhitespace(w, t[0]);
    assert t == [t[0]] + t[1..];
    TrimAndDropEmptyCons(w + t[0], t[1..]);
    TrimAndDropEmptyCons(t[0], t[1..]);
  }

  /** Two last pieces that trim alike give the same normalised tail. */
  lemma TrimAndDropEmptyLast(xs: seq<string>, x: string, y: string)
    requires Trim(x) == Trim(y)
    ensures TrimAndDropEmpty(xs + [x]) == TrimAndDropEmpty(xs + [y])
  {
    TrimAndDropEmptyAppend(xs, [x]);
    TrimAndDropEmptyAppend(xs, [y]);
    TrimAndDropEmptyCons(x, []);
    TrimAndDropEmptyCons(y, []);
  }

  /** Whitespace glued onto the last piece does not change the normal form. */
  lemma TrimAndDropEmptyGlueLast(t: seq<string>, w: string)
    requires |t| > 0 && AllWhitespace(w)
    ensures var n := |t| - 1;
            TrimAndDropEmpty(t[..n] + [t[n] + w]) == TrimAndDropEmpty(t)
  {
    var n := |t| - 1;
    TrimIgnoresTrailingWhitespace(t[n], w);
    SeqSnoc(t);
    TrimAndDropEmptyLast(t[..n], t[n] + w, t[n]);
  }

  lemma PiecesIgnoreTrailingWhitespace(m: string, w: string)
    requires AllWhitespace(w)
    ensures Pieces(m + w) == Pieces(m)
  {
    var t := Split(m, '/');
    TrimAndDropEmptyGlueLast(t, w);
    WhitespaceHasNoSlash(w);
    SplitBeforePlainSuffix(m, w, '/');
    assert Split(m + w, '/') == t[..|t| - 1] + [t[|t| - 1] + w];
  }

  lemma PiecesIgnoreTrim(s: string)
    ensures Pieces(Trim(s)) == Pieces(s)
  {
    var w1, w2 := TrimSurroundings(s);
    var t := Trim(s);
    SeqAssoc3(w1, t, w2);
    PiecesIgnoreLeadingWhitespace(w1, t + w2);
    PiecesIgnoreTrailingWhitespace(t, w2);
  }

  lemma PiecesIgnoreEdgeSlashes(raw: string)
    ensures Pieces(StripTrailing(StripLeading(raw, '/'), '/')) == Pieces(raw)
  {
    PiecesIgnoreLeadingSlashes(raw);
    PiecesIgnoreTrailingSlashes(StripLeading(raw, '/'));
  }

  lemma NormalizeEmpty(raw: string)
    requires |raw| == 0
    ensures NormalizeTrimmed(raw) == Pieces(raw)
  {
    PiecesOfEmpty(raw);
  }

  lemma NormalizeRoot(raw: string)
    requires raw == ['/']
    ensures NormalizeTrimmed(raw) == Pieces(raw)
  {
    PiecesAfterSlash(raw);
    PiecesOfEmpty(raw[1..]);
  }

  lemma NormalizeStripped(raw: string)
    requires |raw| != 0 && raw != ['/']
    ensures NormalizeTrimmed(raw) == Pieces(raw)
  {
    PiecesIgnoreEdgeSlashes(raw);
    var stripped := StripTrailing(StripLeading(raw, '/'), '/');
    if |stripped| == 0 {
      PiecesOfEmpty(stripped);
    }
  }

  lemma NormalizeTrimmedIsPieces(raw: string)
    ensures NormalizeTrimmed(raw) == Pieces(raw)
  {
    if |raw| == 0 {
      NormalizeEmpty(raw);
    } else if raw == ['/'] {
      NormalizeRoot(raw);
    } else {
      NormalizeStripped(raw);
    }
  }

  /** The stripping steps of `normalizePathSegments` never change its outcome:
      a pattern's segments are simply its trimmed, non-empty `/`-pieces. */
  lemma NormalizeIsPieces(path: Option<string>)
    ensures NormalizePathSegments(path) == Pieces(path.GetOr(""))
  {
    var p := path.GetOr("");
    NormalizeTrimmedIsPieces(Trim(p));
    PiecesIgnoreTrim(p);
  }

  // ---------------------------------------------------------------------------
  // Compilation
  // ---------------------------------------------------------------------------

  /** A piece becomes a parameter only when it starts with `:` and has a name. */
  function CompileSegment(piece: string): Segment {
    if |piece| > 1 && piece[0] == ':' then Param(piece[1..]) else Literal(piece)
  }

  /** The pattern text a segment is written as. */
  function RenderSegment(s: Segment): string {
    match s
    case Literal(v) => v
    case Param(n) => ":" + n
  }

  /** A segment some pattern compiles to. */
  predicate WellFormedSegment(s: Segment) {
    WellFormedPiece(RenderSegment(s)) && CompileSegment(RenderSegment(s)) == s
  }

  lemma CompileOfPiece(piece: string)
    requires WellFormedPiece(piece)
    ensures RenderSegment(CompileSegment(piece)) == piece
    ensures WellFormedSegment(CompileSegment(piece))
  {
    if |piece| > 1 && piece[0] == ':' {
      assert ":" + piece[1..] == piece;
    }
  }

  /** `compileRoutePath`: one segment per normalised piece, in order. */
  function CompileRoutePath(path: Option<string>): (r: seq<Segment>)
    ensures |r| == |NormalizePathSegments(path)|
    ensures forall i :: 0 <= i < |r| ==>
              WellFormedSegment(r[i]) && RenderSegment(r[i]) == NormalizePathSegments(path)[i]
  {
    var pieces := NormalizePathSegments(path);
    var r := seq(|pieces|, i requires 0 <= i < |pieces| => CompileSegment(pieces[i]));
    assert forall i :: 0 <= i < |r| ==>
             WellFormedSegment(r[i]) && RenderSegment(r[i]) == pieces[i] by {
      forall i | 0 <= i < |r|
        ensures WellFormedSegment(r[i]) && RenderSegment(r[i]) == pieces[i]
      {
        CompileOfPiece(pieces[i]);
      }
    }
    r
  }

  function RenderAll(segs: seq<Segment>): (r: seq<string>)
    ensures |r| == |segs|
    ensures forall i :: 0 <= i < |segs| ==> r[i] == RenderSegment(segs[i])
  {
    seq(|segs|, i requires 0 <= i < |segs| => RenderSegment(segs[i]))
  }

  /** Write compiled segments back as a pattern, `/a/:b/c`. */
  function RenderRoutePath(segs: seq<Segment>): string {
    ['/'] + Join(RenderAll(segs), ['/'])
  }

  lemma PiecesOfJoin(pieces: seq<string>)
    requires forall i :: 0 <= i < |pieces| ==> WellFormedPiece(pieces[i])
    ensures Pieces(Join(pieces, ['/'])) == pieces
  {
    if |pieces| == 0 {
      PiecesOfEmpty(Join(pieces, ['/']));
    } else {
      SplitOfJoin(pieces, '/');
      TrimAndDropEmptyOfPieces(pieces);
    }
  }

  lemma PiecesAfterSlashPrefix(x: string)
    ensures Pieces(['/'] + x) == Pieces(x)
  {
    var s := ['/'] + x;
    assert s[1..] == x;
    PiecesAfterSlash(s);
  }

  lemma NormalizeOfSlashJoin(pieces: seq<string>)
    requires forall i :: 0 <= i < |pieces| ==> WellFormedPiece(pieces[i])
    ensures NormalizePathSegments(Some(['/'] + Join(pieces, ['/']))) == pieces
  {
    var joined := Join(pieces, ['/']);
    NormalizeIsPieces(Some(['/'] + joined));
    PiecesAfterSlashPrefix(joined);
    PiecesOfJoin(pieces);
  }

  lemma RenderAllWellFormed(segs: seq<Segment>)
    requires forall i :: 0 <= i < |segs| ==> WellFormedSegment(segs[i])
    ensures forall i :: 0 <= i < |segs| ==> WellFormedPiece(RenderAll(segs)[i])
  {
  }

  lemma NormalizeOfRender(segs: seq<Segment>)
    requires forall i :: 0 <= i < |segs| ==> WellFormedSegment(segs[i])
    ensures NormalizePathSegments(Some(RenderRoutePath(segs))) == RenderAll(segs)
  {
    RenderAllWellFormed(segs);
    NormalizeOfSlashJoin(RenderAll(segs));
  }

  /** Compiling a rendered pattern gives back its segments. */
  lemma CompileOfRender(segs: seq<Segment>)
    requires forall i :: 0 <= i < |segs| ==> WellFormedSegment(segs[i])
    ensures CompileRoutePath(Some(RenderRoutePath(segs))) == segs
  {
    NormalizeOfRender(segs);
    var r := CompileRoutePath(Some(RenderRoutePath(segs)));
    forall i | 0 <= i < |segs| ensures r[i] == segs[i] {
      assert RenderSegment(r[i]) == RenderSegment(segs[i]);
    }
  }

  /** Compilation is a normal form: recompiling its rendering changes nothing. */
  lemma CompileIsNormalForm(path: Option<string>)
    ensures var segs := CompileRoutePath(path);
            CompileRoutePath(Some(RenderRoutePath(segs))) == segs
  {
    CompileOfRender(CompileRoutePath(path));
  }

  // ---------------------------------------------------------------------------
  // Matching
  // ---------------------------------------------------------------------------

  /** Same arity, no empty request segment, every literal equal to its request segment. */
  predicate PathMatches(compiled: seq<Segment>, slug: seq<string>) {
    && |compiled| == |slug|
    && forall i :: 0 <= i < |slug| ==>
         slug[i] != "" && (compiled[i].Literal? ==> compiled[i].value == slug[i])
  }

  function ParamNames(compiled: seq<Segment>): set<string> {
    set i | 0 <= i < |compiled| && compiled[i].Param? :: compiled[i].name
  }

  /** Parameter names never hold a slash, since a pattern is cut at every `/`. */
  lemma ParamNamesSlashFree(path: Option<string>)
    ensures forall n :: n in ParamNames(CompileRoutePath(path)) ==> '/' !in n
  {
    var c := CompileRoutePath(path);
    forall n | n in ParamNames(c) ensures '/' !in n {
      var i :| 0 <= i < |c| && c[i].Param? && c[i].name == n;
      assert WellFormedPiece(RenderSegment(c[i]));
    }
  }

  /** No later segment binds the same parameter as position `i`. */
  predicate IsLastBinding(compiled: seq<Segment>, i: int)
    requires 0 <= i < |compiled|
  {
    forall j :: i < j < |compiled| ==> compiled[j] != compiled[i]
  }

  /** The parameter names of a pattern with one more segment. */
  lemma ParamNamesSnoc(compiled: seq<Segment>)
    requires |compiled| > 0
    ensures var n := |compiled| - 1;
            ParamNames(compiled) ==
            ParamNames(compiled[..n]) + (if compiled[n].Param? then {compiled[n].name} else {})
  {
    var n := |compiled| - 1;
    var c := compiled[..n];
    forall x ensures x in ParamNames(compiled) <==>
                     x in ParamNames(c) + (if compiled[n].Param? then {compiled[n].name} else {}) {
      if x in ParamNames(compiled) {
        var i :| 0 <= i < |compiled| && compiled[i].Param? && compiled[i].name == x;
        if i < n { assert c[i] == compiled[i]; }
      }
      if x in ParamNames(c) {
        var i :| 0 <= i < n && c[i].Param? && c[i].name == x;
        assert compiled[i] == c[i];
      }
    }
  }

  /** A match of one more segment is a match of the shorter prefix and of the last segment. */
  lemma PathMatchesSnoc(compiled: seq<Segment>, slug: seq<string>)
    requires |compiled| == |slug| > 0
    ensures var n := |compiled| - 1;
            PathMatches(compiled, slug) <==>
              && PathMatches(compiled[..n], slug[..n])
              && slug[n] != ""
              && (compiled[n].Literal? ==> compiled[n].value == slug[n])
  {
    var n := |compiled| - 1;
    assert forall i :: 0 <= i < n ==> compiled[..n][i] == compiled[i] && slug[..n][i] == slug[i];
  }

  /** A last binding before the final segment stays last in the prefix, and is
      not shadowed by the final segment. */
  lemma LastBindingSnoc(compiled: seq<Segment>)
    requires |compiled| > 0
    ensures var n := |compiled| - 1;
            forall i :: 0 <= i < n && compiled[i].Param? && IsLastBinding(compiled, i) ==>
              && compiled[..n][i] == compiled[i]
              && IsLastBinding(compiled[..n], i)
              && (compiled[n].Param? ==> compiled[i].name != compiled[n].name)
  {
  }

  /** One step of the loop after the checks pass: a parameter segment records
      its request segment, a literal one records nothing. */
  function BindSegment(m: map<string, string>, segment: Segment, value: string): map<string, string> {
    if segment.Param? then m[segment.name := value] else m
  }

  /** The step keeps the loop's invariant: the keys are the parameter names so
      far, and each last binding holds its request segment. */
  lemma BindSegmentSound(compiled: seq<Segment>, slug: seq<string>, m: map<string, string>)
    requires |compiled| == |slug| > 0
    requires var n := |compiled| - 1;
             && m.Keys == ParamNames(compiled[..n])
             && forall i :: 0 <= i < n && compiled[..n][i].Param? && IsLastBinding(compiled[..n], i) ==>
                  m[compiled[..n][i].name] == slug[..n][i]
    ensures var n := |compiled| - 1;
            var r := BindSegment(m, compiled[n], slug[n]);
            && r.Keys == ParamNames(compiled)
            && forall i :: 0 <= i < |compiled| && compiled[i].Param? && IsLastBinding(compiled, i) ==>
                 r[compiled[i].name] == slug[i]
  {
    var n := |compiled| - 1;
    ParamNamesSnoc(compiled);
    LastBindingSnoc(compiled);
    assert forall i :: 0 <= i < n ==> slug[..n][i] == slug[i];
  }

  /** The loop of `matchRoutePath` over equal-length sequences, position by position. */
  function Bind(compiled: seq<Segment>, slug: seq<string>): (r: Option<map<string, string>>)
    requires |compiled| == |slug|
    ensures r.Some? <==> PathMatches(compiled, slug)
    ensures r.Some? ==> r.value.Keys == ParamNames(compiled)
    ensures r.Some? ==> forall i :: 0 <= i < |compiled| && compiled[i].Param? && IsLastBinding(compiled, i) ==>
                          r.value[compiled[i].name] == slug[i]
    decreases |compiled|
  {
    if |compiled| == 0 then Some(map[])
    else
      var n := |compiled| - 1;
      PathMatchesSnoc(compiled, slug);
      match Bind(compiled[..n], slug[..n])
      case None => None
      case Some(m) =>
        if slug[n] == "" then None
        else if compiled[n].Literal? && compiled[n].value != slug[n] then None
        else
          BindSegmentSound(compiled, slug, m);
          Some(BindSegment(m, compiled[n], slug[n]))
  }

  /** `matchRoutePath`: the parameter map, or `None` (the source's `null`). Every
      parameter binds the raw request segment; a later duplicate name wins. */
  function MatchRoutePath(compiled: seq<Segment>, slug: seq<string>): (r: Option<map<string, string>>)
    ensures r.Some? <==> PathMatches(compiled, slug)
    ensures r.Some? ==> r.value.Keys == ParamNames(compiled)
    ensures r.Some? ==> forall i :: 0 <= i < |compiled| && compiled[i].Param? && IsLastBinding(compiled, i) ==>
                          r.value[compiled[i].name] == slug[i]
  {
    if |compiled| != |slug| then None else Bind(compiled, slug)
  }
}
