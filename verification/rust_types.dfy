/** The Rust terms the compiler builds: type terms (`syn::Type`), the
    declarations it appends to the sink (`syn::Item` structs, enums and
    aliases), and the token text a type prints as. */
module RustTypes {
  import opened Common

  /** The four primitive targets: `String`, `f64`, `i64`, `bool`. */
  datatype PrimTy = Str | F64 | I64 | Bool

  datatype Ty =
    | Prim(prim: PrimTy)
      /** A declaration's name, used where the declaration sits. */
    | Named(name: string)
      /** `super::` written `hops` times, then `schemas::name`. */
    | SchemasPath(hops: nat, name: string)
    | VecOf(elem: Ty)
    | OptionOf(inner: Ty)
      /** `::axum::extract::name`. */
    | AxumExtract(name: string)

  datatype Field = Field(name: string, ty: Ty)

  /** convert_case's `Case::UpperCamel` form of `source`. The conversion
      itself belongs to that crate; the model keeps the text it is given. */
  datatype Tag = UpperCamel(source: string)

  /** An enum variant wrapping one value of type `payload`. Its tag is
      derived from the payload alone (see `VariantTag`), so the model keeps
      the payload and computes the tag on demand. */
  datatype Variant = Variant(payload: Ty) {
    function Tag(): Tag
    {
      VariantTag(payload)
    }
  }

  /** What the compiler appends to its declaration sink: `pub struct`,
      `pub enum` and `pub type` items (derives and doc comments omitted). */
  datatype Decl =
    | StructDecl(name: string, fields: seq<Field>)
    | EnumDecl(name: string, variants: seq<Variant>)
    | AliasDecl(name: string, target: Ty)

  function PrimText(p: PrimTy): string
  {
    match p
    case Str => "String"
    case F64 => "f64"
    case I64 => "i64"
    case Bool => "bool"
  }

  /** `super :: ` once per hop. */
  function Supers(hops: nat): string
  {
    if hops == 0 then "" else "super :: " + Supers(hops - 1)
  }

  /** `ty.to_token_stream().to_string()`: tokens separated by single
      spaces, with the two colons of a path separator printed together. */
  function TypeText(ty: Ty): string
  {
    match ty
    case Prim(p) => PrimText(p)
    case Named(n) => n
    case SchemasPath(h, n) => Supers(h) + "schemas :: " + n
    case VecOf(e) => "Vec < " + TypeText(e) + " >"
    case OptionOf(t) => "Option < " + TypeText(t) + " >"
    case AxumExtract(n) => ":: axum :: extract :: " + n
  }

  predicate SepAt(s: string, i: int)
    requires 0 <= i && i + 1 < |s|
  {
    s[i] == ':' && s[i + 1] == ':'
  }

  /** Where the last piece of `s.split("::")` starts. `split` finds the
      separators from the left, without overlaps. */
  function PieceStart(s: string): (k: nat)
    ensures k <= |s|
    decreases |s|
  {
    if |s| < 2 then 0
    else if SepAt(s, 0) then 2 + PieceStart(s[2..])
    else
      var k := PieceStart(s[1..]);
      if k == 0 then 0 else 1 + k
  }

  /** `s.split("::").last().unwrap()`. */
  function LastPiece(s: string): string
  {
    s[PieceStart(s)..]
  }

  /** The tag of the `oneOf` variant whose payload is `ty`: the UpperCamel
      form of the last `::` piece of the type's token text. */
  function VariantTag(ty: Ty): Tag
  {
    UpperCamel(LastPiece(TypeText(ty)))
  }

  // ---------------------------------------------------------------------
  // Properties
  // ---------------------------------------------------------------------

  /** The last piece starts at the beginning or right after a separator,
      and no separator begins inside it. */
  lemma {:induction false} PieceStartSpec(s: string)
    ensures var k := PieceStart(s);
            && (k == 0 || (2 <= k && SepAt(s, k - 2)))
            && forall i :: k <= i < |s| - 1 ==> !SepAt(s, i)
    decreases |s|
  {
    if |s| >= 2 {
      if SepAt(s, 0) {
        PieceStartSpec(s[2..]);
        var k := PieceStart(s[2..]);
        assert forall i :: 2 + k <= i < |s| - 1 ==> SepAt(s, i) == SepAt(s[2..], i - 2);
      } else {
        PieceStartSpec(s[1..]);
        var k := PieceStart(s[1..]);
        assert forall i :: 1 + k <= i < |s| - 1 ==> SepAt(s, i) == SepAt(s[1..], i - 1);
      }
    }
  }

  /** The last piece is a suffix holding no separator, and it is either the
      whole text or preceded by one. On a run of three or more colons this
      does not single the piece out (for `:::` both `:` and the empty text
      qualify); `PieceAfterSep` does, for the texts printed types have,
      where every `::` stands between spaces. */
  lemma LastPieceSpec(s: string)
    ensures var r := LastPiece(s);
            && |r| <= |s| && r == s[|s| - |r|..]
            && (forall i :: 0 <= i < |r| - 1 ==> !SepAt(r, i))
            && (|r| == |s| || (|r| + 2 <= |s| && SepAt(s, |s| - |r| - 2)))
  {
    var k := PieceStart(s);
    PieceStartSpec(s);
    assert forall i :: 0 <= i < |s| - k - 1 ==> SepAt(s[k..], i) == SepAt(s, k + i);
  }

  /** Text after a separator that is not preceded by a colon and is followed
      by no colon at all is the last piece. */
  lemma {:induction false} PieceAfterSep(p: string, b: string)
    requires |p| == 0 || p[|p| - 1] != ':'
    requires NoChar(b, ':')
    ensures PieceStart(p + "::" + b) == |p| + 2
    decreases |p|
  {
    var s := p + "::" + b;
    if |p| == 0 {
      assert s[2..] == b;
      NoSepIn(b);
    } else if |p| >= 2 && SepAt(s, 0) {
      assert s[2..] == p[2..] + "::" + b;
      PieceAfterSep(p[2..], b);
    } else {
      assert s[1..] == p[1..] + "::" + b;
      PieceAfterSep(p[1..], b);
    }
  }

  lemma {:induction false} NoSepIn(b: string)
    requires NoChar(b, ':')
    ensures PieceStart(b) == 0
    decreases |b|
  {
    if |b| >= 2 {
      NoSepIn(b[1..]);
    }
  }

  /** A name without colons is its own last piece. */
  lemma NameIsItsOwnPiece(n: string)
    requires NoChar(n, ':')
    ensures LastPiece(n) == n
  {
    NoSepIn(n);
  }

  /** `super :: ` printed `hops` times followed by `schemas :: name`. */
  lemma SchemasPathText(hops: nat, name: string)
    ensures TypeText(SchemasPath(hops, name)) == (Supers(hops) + "schemas ") + "::" + (" " + name)
  {
    var a := Supers(hops);
    assert a + "schemas :: " + name == (a + "schemas ") + "::" + (" " + name);
  }

  /** The tag of a reference to component `name` is the UpperCamel form of
      the name with the space that precedes it in the token text, whatever
      the number of `super` hops. */
  lemma SchemasPathTag(hops: nat, name: string)
    requires NoChar(name, ':')
    ensures VariantTag(SchemasPath(hops, name)) == UpperCamel(" " + name)
  {
    SchemasPathText(hops, name);
    var p := Supers(hops) + "schemas ";
    assert p[|p| - 1] == ' ';
    PieceAfterSep(p, " " + name);
  }

  /** A declared name prints as itself, so it is its own tag. */
  lemma NamedTag(name: string)
    requires NoChar(name, ':')
    ensures VariantTag(Named(name)) == UpperCamel(name)
  {
    NameIsItsOwnPiece(name);
  }

  /** So does a primitive. */
  lemma PrimTag(p: PrimTy)
    ensures VariantTag(Prim(p)) == UpperCamel(PrimText(p))
  {
    assert NoChar(PrimText(p), ':') by {
      var t := PrimText(p);
      forall i | 0 <= i < |t| ensures t[i] != ':' {
        assert 'a' <= t[i] <= 'z' || 'A' <= t[i] <= 'Z' || '0' <= t[i] <= '9';
      }
    }
    NameIsItsOwnPiece(PrimText(p));
  }

  /** `Option<T>` is never `T` itself. */
  lemma {:induction false} WrapChanges(ty: Ty)
    ensures OptionOf(ty) != ty
  {
    if ty.OptionOf? {
      WrapChanges(ty.inner);
    }
  }
}
