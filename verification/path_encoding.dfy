/** The two textual forms of a declared route path
    (axum-open-api-codegen/src/compilation/mod.rs, `impl MethodPath`): the
    axum route (`/items/:id`), which the generated `path()` returns, and the
    OpenAPI path template (`/items/{id}`), under which the document is
    searched. Both are built segment by segment from the same sequence, so
    each determines the other; `DecodeAxum` and `DecodeOapi` read a path back
    and witness that. */
module PathEncoding {
  import opened Common
  import opened Parsing

  /** The text of a segment in an axum route. */
  function AxumSegment(s: Segment): string
  {
    if s.isParam then "/:" + s.ident else "/" + s.ident
  }

  /** The text of a segment in an OpenAPI path template. */
  function OapiSegment(s: Segment): string
  {
    if s.isParam then "/{" + s.ident + "}" else "/" + s.ident
  }

  /** `to_axum_path`. */
  function AxumPath(segs: seq<Segment>): string
  {
    if |segs| == 0 then "" else AxumSegment(segs[0]) + AxumPath(segs[1..])
  }

  /** `to_oapi_path`. */
  function OapiPath(segs: seq<Segment>): string
  {
    if |segs| == 0 then "" else OapiSegment(segs[0]) + OapiPath(segs[1..])
  }

  /** `path_param_idents`: the identifiers of the `{ident}` segments, in
      path order. */
  function ParamNames(segs: seq<Segment>): seq<string>
  {
    if |segs| == 0 then []
    else (if segs[0].isParam then [segs[0].ident] else []) + ParamNames(segs[1..])
  }

  /** The text a Rust identifier can have, as far as the encodings care:
      not empty, and none of the characters they use as punctuation. */
  predicate PlainIdent(s: string)
  {
    |s| > 0 && NoChar(s, '/') && NoChar(s, ':') && NoChar(s, '{') && NoChar(s, '}')
  }

  predicate PlainPath(segs: seq<Segment>)
  {
    forall i :: 0 <= i < |segs| ==> PlainIdent(segs[i].ident)
  }

  /** Reads one segment's text (without its leading `/`) back. */
  function ReadAxumPiece(piece: string): Option<Segment>
  {
    if |piece| > 0 && piece[0] == ':' then
      (if PlainIdent(piece[1..]) then Some(Segment(piece[1..], true)) else None)
    else if PlainIdent(piece) then Some(Segment(piece, false))
    else None
  }

  function ReadOapiPiece(piece: string): Option<Segment>
  {
    if |piece| >= 2 && piece[0] == '{' && piece[|piece| - 1] == '}' then
      (if PlainIdent(piece[1..|piece| - 1]) then Some(Segment(piece[1..|piece| - 1], true)) else None)
    else if PlainIdent(piece) then Some(Segment(piece, false))
    else None
  }

  /** Splits a path at its `/` separators and reads each piece with `read`. */
  function Decode(text: string, oapi: bool): Option<seq<Segment>>
    decreases |text|
  {
    if |text| == 0 then Some([])
    else if text[0] != '/' then None
    else
      var rest := text[1..];
      var k := FirstIndex(rest, '/');
      var seg := if oapi then ReadOapiPiece(rest[..k]) else ReadAxumPiece(rest[..k]);
      match seg
      case None => None
      case Some(s) =>
        match Decode(rest[k..], oapi)
        case None => None
        case Some(tail) => Some([s] + tail)
  }

  function DecodeAxum(text: string): Option<seq<Segment>>
  {
    Decode(text, false)
  }

  function DecodeOapi(text: string): Option<seq<Segment>>
  {
    Decode(text, true)
  }

  // ---------------------------------------------------------------------
  // Properties
  // ---------------------------------------------------------------------

  /** Both encodings are built piece by piece. */
  lemma {:induction false} AxumPathAppend(a: seq<Segment>, b: seq<Segment>)
    ensures AxumPath(a + b) == AxumPath(a) + AxumPath(b)
    decreases |a|
  {
    if |a| > 0 {
      assert (a + b)[1..] == a[1..] + b;
      AxumPathAppend(a[1..], b);
    } else {
      assert a + b == b;
    }
  }

  lemma {:induction false} OapiPathAppend(a: seq<Segment>, b: seq<Segment>)
    ensures OapiPath(a + b) == OapiPath(a) + OapiPath(b)
    decreases |a|
  {
    if |a| > 0 {
      assert (a + b)[1..] == a[1..] + b;
      OapiPathAppend(a[1..], b);
    } else {
      assert a + b == b;
    }
  }

  /** Every non-empty encoding starts with a `/`. */
  lemma {:induction false} PathsStartWithSlash(segs: seq<Segment>)
    ensures |AxumPath(segs)| == 0 <==> |segs| == 0
    ensures |OapiPath(segs)| == 0 <==> |segs| == 0
    ensures |segs| > 0 ==> AxumPath(segs)[0] == '/' && OapiPath(segs)[0] == '/'
  {
  }

  /** The first `/` of `x + y` is where `y` starts when `x` has none and
      `y` is empty or starts with one. */
  lemma FirstSlashAt(x: string, y: string)
    requires NoChar(x, '/')
    requires |y| == 0 || y[0] == '/'
    ensures FirstIndex(x + y, '/') == |x|
    ensures (x + y)[..|x|] == x && (x + y)[|x|..] == y
  {
    var s := x + y;
    var k := FirstIndex(s, '/');
    assert forall i :: 0 <= i < |x| ==> s[i] == x[i] && s[i] != '/';
    assert |y| > 0 ==> s[|x|] == '/';
  }

  lemma AxumPieceReads(s: Segment)
    requires PlainIdent(s.ident)
    ensures AxumSegment(s) == "/" + AxumSegment(s)[1..]
    ensures NoChar(AxumSegment(s)[1..], '/')
    ensures ReadAxumPiece(AxumSegment(s)[1..]) == Some(s)
  {
    var t := AxumSegment(s)[1..];
    if s.isParam {
      assert t == ":" + s.ident;
      assert t[1..] == s.ident;
    } else {
      assert t == s.ident;
    }
  }

  lemma OapiPieceReads(s: Segment)
    requires PlainIdent(s.ident)
    ensures OapiSegment(s) == "/" + OapiSegment(s)[1..]
    ensures NoChar(OapiSegment(s)[1..], '/')
    ensures ReadOapiPiece(OapiSegment(s)[1..]) == Some(s)
  {
    var t := OapiSegment(s)[1..];
    if s.isParam {
      assert t == "{" + s.ident + "}";
      assert t[1..|t| - 1] == s.ident;
    } else {
      assert t == s.ident;
      assert s.ident[0] != '{';
    }
  }

  lemma HeadTail<T>(xs: seq<T>)
    requires |xs| > 0
    ensures [xs[0]] + xs[1..] == xs
  {
  }

  /** One step of decoding: a segment's text in front of the rest. */
  lemma DecodeStep(piece: string, tail: string, oapi: bool)
    requires NoChar(piece, '/')
    requires |tail| == 0 || tail[0] == '/'
    ensures var seg := if oapi then ReadOapiPiece(piece) else ReadAxumPiece(piece);
            Decode("/" + piece + tail, oapi)
            == match seg
               case None => None
               case Some(s) => (match Decode(tail, oapi) case None => None case Some(r) => Some([s] + r))
  {
    var text := "/" + piece + tail;
    assert text[1..] == piece + tail;
    FirstSlashAt(piece, tail);
  }

  /** An axum route of identifier segments reads back as those segments. */
  lemma {:induction false} AxumRoundTrip(segs: seq<Segment>)
    requires PlainPath(segs)
    ensures DecodeAxum(AxumPath(segs)) == Some(segs)
    decreases |segs|
  {
    if |segs| > 0 {
      var s := segs[0];
      AxumPieceReads(s);
      var piece := AxumSegment(s)[1..];
      PathsStartWithSlash(segs[1..]);
      AxumRoundTrip(segs[1..]);
      DecodeStep(piece, AxumPath(segs[1..]), false);
      HeadTail(segs);
    }
  }

  /** So does an OpenAPI path template. */
  lemma {:induction false} OapiRoundTrip(segs: seq<Segment>)
    requires PlainPath(segs)
    ensures DecodeOapi(OapiPath(segs)) == Some(segs)
    decreases |segs|
  {
    if |segs| > 0 {
      var s := segs[0];
      OapiPieceReads(s);
      var piece := OapiSegment(s)[1..];
      PathsStartWithSlash(segs[1..]);
      OapiRoundTrip(segs[1..]);
      DecodeStep(piece, OapiPath(segs[1..]), true);
      HeadTail(segs);
    }
  }

  /** Two identifier paths share an axum route exactly when they share an
      OpenAPI template, and then they are the same path: the route the
      generated struct serves and the document entry it was checked against
      always belong together. */
  lemma EncodingsAgree(a: seq<Segment>, b: seq<Segment>)
    requires PlainPath(a) && PlainPath(b)
    ensures AxumPath(a) == AxumPath(b) <==> a == b
    ensures OapiPath(a) == OapiPath(b) <==> a == b
  {
    AxumRoundTrip(a);
    AxumRoundTrip(b);
    OapiRoundTrip(a);
    OapiRoundTrip(b);
  }

  /** The parameter names are the `{ident}` segments, in order: a segment
      contributes its identifier exactly when it is a parameter. */
  lemma {:induction false} ParamNamesAppend(a: seq<Segment>, b: seq<Segment>)
    ensures ParamNames(a + b) == ParamNames(a) + ParamNames(b)
    decreases |a|
  {
    if |a| > 0 {
      assert (a + b)[1..] == a[1..] + b;
      ParamNamesAppend(a[1..], b);
    } else {
      assert a + b == b;
    }
  }

  lemma {:induction false} ParamNamesMembers(segs: seq<Segment>, n: string)
    ensures n in ParamNames(segs) <==> exists i :: 0 <= i < |segs| && segs[i].isParam && segs[i].ident == n
    ensures |ParamNames(segs)| <= |segs|
    decreases |segs|
  {
    if |segs| > 0 {
      ParamNamesMembers(segs[1..], n);
      if n in ParamNames(segs[1..]) {
        var i :| 1 <= i + 1 <= |segs[1..]| && segs[1..][i].isParam && segs[1..][i].ident == n;
        assert segs[i + 1].isParam && segs[i + 1].ident == n;
      }
      if exists i :: 0 <= i < |segs| && segs[i].isParam && segs[i].ident == n {
        var i :| 0 <= i < |segs| && segs[i].isParam && segs[i].ident == n;
        if i > 0 {
          assert segs[1..][i - 1] == segs[i];
        }
      }
    }
  }
}
