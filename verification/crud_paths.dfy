/**
 * The two paths of the CRUD router (dist/datatables/crud.js lines 2-16): the
 * base path, normalised, and the item path, the base path plus `/:id`.
 */
module CrudPaths {
  import opened Js
  import opened Strings
  import opened RoutePaths

  /** `normalizePath`: blank or `/` is `/`; otherwise a leading slash is added if
      missing and trailing slashes are dropped. */
  function NormalizeBasePath(value: string): (r: string)
    ensures |r| > 0 && r[0] == '/'
    ensures r == ['/'] || r[|r| - 1] != '/'
  {
    TrimmedBasePath(Trim(value))
  }

  /** `normalizePath` once the value is trimmed. */
  function TrimmedBasePath(raw: string): (r: string)
    ensures |r| > 0 && r[0] == '/'
    ensures r == ['/'] || r[|r| - 1] != '/'
  {
    if |raw| == 0 || raw == ['/'] then ['/'] else PrefixAndStrip(raw)
  }

  /** The non-trivial case: a leading slash added if missing, trailing ones dropped. */
  function PrefixAndStrip(raw: string): (r: string)
    requires |raw| > 0
    ensures |r| > 0 && r[0] == '/'
    ensures r == ['/'] || r[|r| - 1] != '/'
  {
    var stripped := StripTrailing(WithLeadingSlash(raw), '/');
    if |stripped| == 0 then ['/'] else stripped
  }

  function WithLeadingSlash(raw: string): string
    requires |raw| > 0
  {
    if raw[0] == '/' then raw else ['/'] + raw
  }

  lemma PiecesOfRoot()
    ensures Pieces(['/']) == []
  {
    PiecesAfterSlashPrefix([]);
    PiecesOfEmpty([]);
  }

  /** Normalising the base path never changes the route it stands for. */
  lemma BasePathKeepsPieces(value: string)
    ensures Pieces(NormalizeBasePath(value)) == Pieces(value)
  {
    var raw := Trim(value);
    PiecesIgnoreTrim(value);
    if |raw| == 0 {
      BlankBaseKeepsPieces(value);
    } else if raw != ['/'] {
      PrefixedBaseKeepsPieces(value);
    }
  }

  lemma BlankBaseKeepsPieces(value: string)
    requires |Trim(value)| == 0
    ensures Pieces(NormalizeBasePath(value)) == Pieces(Trim(value))
  {
    PiecesOfRoot();
    PiecesOfEmpty(Trim(value));
  }

  lemma PrefixedBaseKeepsPieces(value: string)
    requires |Trim(value)| > 0 && Trim(value) != ['/']
    ensures Pieces(NormalizeBasePath(value)) == Pieces(Trim(value))
  {
    PrefixAndStripKeepsPieces(Trim(value));
  }

  lemma PrefixAndStripKeepsPieces(raw: string)
    requires |raw| > 0
    ensures Pieces(PrefixAndStrip(raw)) == Pieces(raw)
  {
    var stripped := StripTrailing(WithLeadingSlash(raw), '/');
    PrefixKeepsPieces(raw);
    PiecesIgnoreTrailingSlashes(WithLeadingSlash(raw));
    if |stripped| == 0 {
      PiecesOfRoot();
      PiecesOfEmpty(stripped);
    }
  }

  lemma PrefixKeepsPieces(raw: string)
    requires |raw| > 0
    ensures Pieces(WithLeadingSlash(raw)) == Pieces(raw)
  {
    if raw[0] != '/' { PiecesAfterSlashPrefix(raw); }
  }

  /** Same pieces, same compiled pattern. */
  lemma CompileOfSamePieces(a: string, b: string)
    requires Pieces(a) == Pieces(b)
    ensures CompileRoutePath(Some(a)) == CompileRoutePath(Some(b))
  {
    NormalizeIsPieces(Some(a));
    NormalizeIsPieces(Some(b));
    var ca, cb := CompileRoutePath(Some(a)), CompileRoutePath(Some(b));
    forall i | 0 <= i < |ca| ensures ca[i] == cb[i] {
      assert RenderSegment(ca[i]) == RenderSegment(cb[i]);
    }
  }

  /** The base route compiles exactly as the configured base path would. */
  lemma BasePathKeepsRoute(value: string)
    ensures CompileRoutePath(Some(NormalizeBasePath(value))) == CompileRoutePath(Some(value))
  {
    BasePathKeepsPieces(value);
    CompileOfSamePieces(NormalizeBasePath(value), value);
  }

  /** `options.idParam?.trim() || 'id'`. */
  function IdParamName(idParam: Option<string>): (r: string)
    ensures |r| > 0 && Trimmed(r)
    ensures idParam.None? ==> r == "id"
    ensures idParam.Some? && |Trim(idParam.value)| > 0 ==> r == Trim(idParam.value)
    ensures idParam.Some? && AllWhitespace(idParam.value) ==> r == "id"
  {
    if idParam.Some? && |Trim(idParam.value)| > 0 then Trim(idParam.value) else "id"
  }

  /** The last piece of the item path, `:name`. */
  function ParamPiece(idParam: string): string {
    [':'] + idParam
  }

  /** `buildItemPath`. */
  function BuildItemPath(basePath: string, idParam: string): (r: string)
    ensures |r| > |ParamPiece(idParam)|
    ensures r[|r| - |ParamPiece(idParam)|..] == ParamPiece(idParam)
    ensures r[|r| - |ParamPiece(idParam)| - 1] == '/'
    ensures basePath != ['/'] ==> |basePath| < |r| && r[..|basePath|] == basePath
  {
    if basePath == ['/'] then ['/'] + ParamPiece(idParam) else basePath + ['/'] + ParamPiece(idParam)
  }

  /** `:name` is one piece of a pattern. */
  lemma ParamPieceIsWellFormed(idParam: string)
    requires |idParam| > 0 && Trimmed(idParam) && '/' !in idParam
    ensures WellFormedPiece(ParamPiece(idParam))
    ensures CompileSegment(ParamPiece(idParam)) == Param(idParam)
  {
    var p := ParamPiece(idParam);
    assert p[|p| - 1] == idParam[|idParam| - 1];
    assert p[1..] == idParam;
  }

  lemma PiecesOfOnePiece(p: string)
    requires WellFormedPiece(p)
    ensures Pieces(p) == [p]
  {
    assert Join([p], ['/']) == p;
    PiecesOfJoin([p]);
  }

  /** The item path's pieces are the base path's followed by those of `:name`,
      whatever the name holds. */
  lemma ItemPathPieces(basePath: string, idParam: string)
    ensures Pieces(BuildItemPath(basePath, idParam)) == Pieces(basePath) + Pieces(ParamPiece(idParam))
  {
    if basePath == ['/'] {
      RootItemPieces(idParam);
    } else {
      NestedItemPieces(basePath, idParam);
    }
  }

  lemma RootItemPieces(idParam: string)
    ensures Pieces(BuildItemPath(['/'], idParam)) == Pieces(['/']) + Pieces(ParamPiece(idParam))
  {
    PiecesOfRoot();
    PiecesAfterSlashPrefix(ParamPiece(idParam));
  }

  lemma NestedItemPieces(basePath: string, idParam: string)
    requires basePath != ['/']
    ensures Pieces(BuildItemPath(basePath, idParam)) == Pieces(basePath) + Pieces(ParamPiece(idParam))
  {
    PiecesAtSlash(basePath, ParamPiece(idParam));
  }

  /** A piece starting with `:` never trims away, so `:name` always yields at
      least one piece, even for a blank or slashed name. */
  lemma {:induction false} ColonPiecesNonEmpty(s: string)
    requires |s| > 0 && s[0] == ':'
    ensures |Pieces(s)| > 0
    decreases |s|
  {
    if '/' in s {
      var k :| 0 <= k < |s| && s[k] == '/';
      var a, b := s[..k], s[k + 1..];
      assert s == a + "/" + b;
      PiecesAtSlash(a, b);
      ColonPiecesNonEmpty(a);
    } else {
      var t := Trim(s);
      assert !AllWhitespace(s) by {
        assert !IsWhitespace(s[0]);
      }
      TrimKeepsChars(s);
      assert WellFormedPiece(t);
      PiecesIgnoreTrim(s);
      PiecesOfOnePiece(t);
    }
  }

  /** A path compiles piece by piece. */
  lemma CompilePiecewise(path: string)
    ensures |CompileRoutePath(Some(path))| == |Pieces(path)|
    ensures forall i :: 0 <= i < |Pieces(path)| ==>
              CompileRoutePath(Some(path))[i] == CompileSegment(Pieces(path)[i])
  {
    NormalizeIsPieces(Some(path));
  }

  /** Paths whose pieces concatenate compile to segment lists that concatenate. */
  lemma CompileOfConcatenatedPieces(a: string, b: string, c: string)
    requires Pieces(a) == Pieces(b) + Pieces(c)
    ensures CompileRoutePath(Some(a)) == CompileRoutePath(Some(b)) + CompileRoutePath(Some(c))
  {
    CompilePiecewise(a);
    CompilePiecewise(b);
    CompilePiecewise(c);
    SegmentwiseConcat(Pieces(a), Pieces(b), Pieces(c),
      CompileRoutePath(Some(a)), CompileRoutePath(Some(b)), CompileRoutePath(Some(c)));
  }

  /** Segment lists computed piece by piece from concatenated piece lists concatenate. */
  lemma SegmentwiseConcat(pa: seq<string>, pb: seq<string>, pc: seq<string>,
                          ca: seq<Segment>, cb: seq<Segment>, cc: seq<Segment>)
    requires pa == pb + pc
    requires |ca| == |pa| && |cb| == |pb| && |cc| == |pc|
    requires forall i :: 0 <= i < |pa| ==> ca[i] == CompileSegment(pa[i])
    requires forall i :: 0 <= i < |pb| ==> cb[i] == CompileSegment(pb[i])
    requires forall i :: 0 <= i < |pc| ==> cc[i] == CompileSegment(pc[i])
    ensures ca == cb + cc
  {
    forall i | 0 <= i < |ca| ensures ca[i] == (cb + cc)[i] {
      if i < |cb| {
        assert pa[i] == pb[i];
      } else {
        assert pa[i] == pc[i - |cb|];
      }
    }
  }

  /** For every id parameter name, the item route is the base route followed by
      the compiled `:name` piece, which is at least one segment. For a name
      without a slash that piece is the one parameter `name`. */
  lemma ItemPathCompiles(basePath: string, idParam: string)
    ensures CompileRoutePath(Some(BuildItemPath(basePath, idParam))) ==
            CompileRoutePath(Some(basePath)) + CompileRoutePath(Some(ParamPiece(idParam)))
    ensures |CompileRoutePath(Some(ParamPiece(idParam)))| > 0
    ensures |idParam| > 0 && Trimmed(idParam) && '/' !in idParam ==>
              CompileRoutePath(Some(ParamPiece(idParam))) == [Param(idParam)]
  {
    ItemPathPieces(basePath, idParam);
    CompileOfConcatenatedPieces(BuildItemPath(basePath, idParam), basePath, ParamPiece(idParam));
    ParamPieceCompiles(idParam);
    if |idParam| > 0 && Trimmed(idParam) && '/' !in idParam {
      PlainParamPieceCompiles(idParam);
    }
  }

  lemma ParamPieceCompiles(idParam: string)
    ensures |CompileRoutePath(Some(ParamPiece(idParam)))| > 0
  {
    ColonPiecesNonEmpty(ParamPiece(idParam));
    CompilePiecewise(ParamPiece(idParam));
  }

  lemma PlainParamPieceCompiles(idParam: string)
    requires |idParam| > 0 && Trimmed(idParam) && '/' !in idParam
    ensures CompileRoutePath(Some(ParamPiece(idParam))) == [Param(idParam)]
  {
    ParamPieceIsWellFormed(idParam);
    PiecesOfOnePiece(ParamPiece(idParam));
    CompilePiecewise(ParamPiece(idParam));
  }

  /** A name holding `/` is cut apart by compilation: the item route never
      binds a parameter under that name. */
  lemma SlashedNameNeverBound(basePath: string, idParam: string)
    requires '/' in idParam
    ensures idParam !in ParamNames(CompileRoutePath(Some(BuildItemPath(basePath, idParam))))
  {
    ParamNamesSlashFree(Some(BuildItemPath(basePath, idParam)));
  }
}
