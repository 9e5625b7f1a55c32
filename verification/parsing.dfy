/** The routing DSL read by `validate_routes!` and its parser
    (axum-open-api-codegen/src/parsing/mod.rs).

    The input is the macro's token tree. The parser follows syn's cursor
    discipline: every step that succeeds advances the cursor, and a step
    that fails leaves behind whatever its sub-steps had already consumed
    (syn does not roll back a failed `input.parse::<T>()`). */
module Parsing {
  import opened Common

  datatype Delimiter = Brace | Paren | Bracket

  /** A token tree: identifiers (keywords included), single punctuation
      characters, literals, and delimited groups. */
  datatype Token =
    | Ident(name: string)
    | Punct(ch: char)
    | StrLit(value: string)
    | OtherLit(text: string)
    | Group(delim: Delimiter, inner: seq<Token>)

  function TokenText(t: Token): string
  {
    match t
    case Ident(n) => n
    case Punct(c) => [c]
    case StrLit(v) => "\"" + v + "\""
    case OtherLit(x) => x
    case Group(d, _) => match d case Brace => "{" case Paren => "(" case Bracket => "["
  }

  /** The words syn refuses to parse as an `Ident` (Rust keywords). */
  const Keywords: seq<string> := [
    "_", "abstract", "as", "async", "await", "become", "box", "break", "const",
    "continue", "crate", "do", "dyn", "else", "enum", "extern", "false", "final",
    "fn", "for", "if", "impl", "in", "let", "loop", "macro", "match", "mod", "move",
    "mut", "override", "priv", "pub", "ref", "return", "self", "Self", "static",
    "struct", "super", "trait", "true", "try", "type", "typeof", "unsafe",
    "unsized", "use", "virtual", "where", "while", "yield"
  ]

  /** Membership in `Keywords`. Every keyword starts with `_`, `S` or a
      lower-case letter; the guard says so, which settles most words without
      looking at the list. */
  predicate IsKeyword(s: string)
  {
    && |s| > 0
    && (s[0] == '_' || s[0] == 'S' || 'a' <= s[0] <= 'z')
    && exists i :: 0 <= i < |Keywords| && Keywords[i] == s
  }

  /** `pub` is a keyword, so no identifier can be mistaken for it. */
  lemma PubIsKeyword()
    ensures IsKeyword("pub")
  {
    assert Keywords[32] == "pub";
  }

  /** `MethodType`: eight verbs are representable, five are parseable. */
  datatype Verb = Get | Post | Put | Delete | Patch | Head | Options | Trace

  /** `Display for MethodType`: the upper-case verb. */
  function DisplayName(v: Verb): string
  {
    match v
    case Get => "GET"
    case Post => "POST"
    case Put => "PUT"
    case Delete => "DELETE"
    case Patch => "PATCH"
    case Head => "HEAD"
    case Options => "OPTIONS"
    case Trace => "TRACE"
  }

  /** `ToTokens for MethodType`: the lower-case verb, the name of the
      routing function on axum's `MethodRouter`. */
  function LowerName(v: Verb): string
  {
    match v
    case Get => "get"
    case Post => "post"
    case Put => "put"
    case Delete => "delete"
    case Patch => "patch"
    case Head => "head"
    case Options => "options"
    case Trace => "trace"
  }

  const ParseableVerbNames: set<string> := {"GET", "POST", "PUT", "DELETE", "PATCH"}

  /** One path segment: an identifier, and whether it was written `{ident}`. */
  datatype Segment = Segment(ident: string, isParam: bool)

  /** `GET /api/{id} as pub GetThing;` */
  datatype MethodItem = MethodItem(verb: Verb, path: seq<Segment>, structVis: Vis, structName: string)

  /** `pub mod api { ... }` */
  datatype ModuleItem = ModuleItem(vis: Vis, name: string, items: seq<Item>)

  datatype Item = Module(moduleItem: ModuleItem) | Method(methodItem: MethodItem)

  /** `path = "spec.yaml";` followed by the items. */
  datatype Root = Root(specPath: string, items: seq<Item>)

  /** The outcome of one parse step. `used` counts the tokens the cursor
      moved past, successful or not: syn does not roll a failed step back.
      `stray` is the first token that syn found left unconsumed inside a
      brace group when that group's buffer was dropped; syn reports it as an
      "unexpected token" once the whole input has been parsed. */
  datatype PResult<+T> =
    | Done(value: T, used: nat, stray: Option<Token>)
    | Stuck(error: Error, used: nat, stray: Option<Token>)

  function First(a: Option<Token>, b: Option<Token>): Option<Token>
  {
    if a.Some? then a else b
  }

  /** What a dropped group buffer records when tokens remain in it. */
  function Leftover(ts: seq<Token>): Option<Token>
  {
    if |ts| == 0 then None else Some(ts[0])
  }

  function Expected(what: string, ts: seq<Token>): Error
  {
    Error("expected " + what, if |ts| == 0 then EndOfInput else At(TokenText(ts[0])))
  }

  /** The result of a step that ran after `n` tokens had been consumed, as
      seen from where those tokens started, with `s` a stray recorded before. */
  function After<T>(n: nat, s: Option<Token>, r: PResult<T>): PResult<T>
  {
    match r
    case Done(x, u, s') => Done(x, n + u, First(s, s'))
    case Stuck(e, u, s') => Stuck(e, n + u, First(s, s'))
  }

  /** Prepends `x` to a sequence result that ran after `n` tokens. */
  function Prepend<T>(x: T, n: nat, s: Option<Token>, r: PResult<seq<T>>): PResult<seq<T>>
  {
    match r
    case Done(xs, u, s') => Done([x] + xs, n + u, First(s, s'))
    case Stuck(e, u, s') => Stuck(e, n + u, First(s, s'))
  }

  // ---------------------------------------------------------------------
  // Single-token steps (syn's built-in parsers)
  // ---------------------------------------------------------------------

  /** `input.parse::<Ident>()`: any identifier that is not a keyword. */
  function ParseIdent(ts: seq<Token>): (r: PResult<string>)
    ensures r.Done? <==> |ts| > 0 && ts[0].Ident? && !IsKeyword(ts[0].name)
    ensures r.used == if r.Done? then 1 else 0
  {
    if |ts| > 0 && ts[0].Ident? && !IsKeyword(ts[0].name) then Done(ts[0].name, 1, None)
    else Stuck(Expected("identifier", ts), 0, None)
  }

  /** A fixed token: `Token![;]`, `Token![as]`, `Mod`, `kw::path`, ... */
  function ParseExact(t: Token, ts: seq<Token>): (r: PResult<()>)
    ensures r.Done? <==> |ts| > 0 && ts[0] == t
    ensures r.used == if r.Done? then 1 else 0
  {
    if |ts| > 0 && ts[0] == t then Done((), 1, None)
    else Stuck(Expected("`" + TokenText(t) + "`", ts), 0, None)
  }

  function ParseStrLit(ts: seq<Token>): (r: PResult<string>)
    ensures r.Done? <==> |ts| > 0 && ts[0].StrLit?
    ensures r.used == if r.Done? then 1 else 0
  {
    if |ts| > 0 && ts[0].StrLit? then Done(ts[0].value, 1, None)
    else Stuck(Expected("string literal", ts), 0, None)
  }

  /** `braced!(inner in input)`: the contents of a `{ ... }` group. */
  function ParseBraced(ts: seq<Token>): (r: PResult<seq<Token>>)
    ensures r.Done? <==> |ts| > 0 && ts[0].Group? && ts[0].delim == Brace
    ensures r.used == if r.Done? then 1 else 0
  {
    if |ts| > 0 && ts[0].Group? && ts[0].delim == Brace then Done(ts[0].inner, 1, None)
    else Stuck(Expected("curly braces", ts), 0, None)
  }

  /** `input.parse::<Visibility>()`: never fails; `pub` or nothing. Returns
      the visibility and the number of tokens it took. */
  function ParseVis(ts: seq<Token>): (r: (Vis, nat))
    ensures r.1 == if r.0 == Pub then 1 else 0
    ensures r.0 == Pub <==> |ts| > 0 && ts[0] == Ident("pub")
  {
    if |ts| > 0 && ts[0] == Ident("pub") then (Pub, 1) else (Inherited, 0)
  }

  // ---------------------------------------------------------------------
  // The DSL's own parsers
  // ---------------------------------------------------------------------

  predicate ParseableVerb(v: Verb)
  {
    v in {Get, Post, Put, Delete, Patch}
  }

  /** The `match` of `MethodType::parse`: the verb an identifier names. */
  function VerbNamed(name: string): (r: Option<Verb>)
    ensures r.Some? ==> DisplayName(r.value) == name && ParseableVerb(r.value)
  {
    if name == "GET" then Some(Get)
    else if name == "POST" then Some(Post)
    else if name == "PUT" then Some(Put)
    else if name == "DELETE" then Some(Delete)
    else if name == "PATCH" then Some(Patch)
    else None
  }

  /** Exactly the five names are recognised, and none of them is a keyword. */
  lemma VerbNamedExactly(name: string)
    ensures VerbNamed(name).Some? <==> name in ParseableVerbNames
    ensures name in ParseableVerbNames ==> !IsKeyword(name)
  {
  }

  /** `MethodType::parse`: reads an identifier, then accepts exactly the five
      names GET, POST, PUT, DELETE, PATCH. The identifier stays consumed when
      it is refused. */
  function ParseVerb(ts: seq<Token>): (r: PResult<Verb>)
    ensures r.Done? ==> |ts| > 0 && ts[0] == Ident(DisplayName(r.value)) && ParseableVerb(r.value)
    ensures r.Stuck? && |ts| > 0 && ts[0].Ident? && !IsKeyword(ts[0].name) ==>
              r.error == Error("Invalid method", At(ts[0].name))
    ensures r.used == (if |ts| > 0 && ts[0].Ident? && !IsKeyword(ts[0].name) then 1 else 0)
    ensures r.stray == None
  {
    match ParseIdent(ts)
    case Stuck(e, u, s) => Stuck(e, u, s)
    case Done(name, u, _) =>
      match VerbNamed(name)
      case Some(v) => Done(v, u, None)
      case None => Stuck(Error("Invalid method", At(name)), u, None)
  }

  /** The verb parser accepts exactly an identifier among the five names. */
  lemma ParseVerbAccepts(ts: seq<Token>)
    ensures ParseVerb(ts).Done? <==> |ts| > 0 && ts[0].Ident? && ts[0].name in ParseableVerbNames
  {
    if |ts| > 0 && ts[0].Ident? {
      VerbNamedExactly(ts[0].name);
    }
  }

  /** `MethodPath::parse`: while a `/` can be read, read either a braced
      identifier (a parameter) or a bare identifier (a literal segment). */
  function ParsePath(ts: seq<Token>): (r: PResult<seq<Segment>>)
    ensures r.used <= |ts|
    ensures (|ts| == 0 || ts[0] != Punct('/')) ==> r == Done([], 0, None)
    decreases |ts|
  {
    if |ts| == 0 || ts[0] != Punct('/') then Done([], 0, None)
    else
      var after := ts[1..];
      if |after| > 0 && after[0].Group? && after[0].delim == Brace then
        var inner := after[0].inner;
        match ParseIdent(inner)
        case Stuck(e, u, _) => Stuck(e, 2, Leftover(inner[u..]))
        case Done(id, u, _) => Prepend(Segment(id, true), 2, Leftover(inner[u..]), ParsePath(ts[2..]))
      else
        match ParseIdent(after)
        case Stuck(e, u, _) => Stuck(e, 1 + u, None)
        case Done(id, u, _) => Prepend(Segment(id, false), 1 + u, None, ParsePath(ts[1 + u..]))
  }

  /** `MethodItem::parse`: `VERB path as vis Name ;`. */
  function ParseMethod(ts: seq<Token>): (r: PResult<MethodItem>)
    ensures r.used <= |ts|
    ensures r.Done? ==> 0 < r.used && ts[0] == Ident(DisplayName(r.value.verb))
  {
    match ParseVerb(ts)
    case Stuck(e, u, s) => Stuck(e, u, s)
    case Done(verb, u1, _) =>
      match ParsePath(ts[u1..])
      case Stuck(e, u2, s) => Stuck(e, u1 + u2, s)
      case Done(path, u2, s) => After(u1 + u2, None, ParseMethodTail(verb, path, s, ts[u1 + u2..]))
  }

  /** The part of `MethodItem::parse` after the path: `as vis Name ;`. */
  function ParseMethodTail(verb: Verb, path: seq<Segment>, s: Option<Token>, ts: seq<Token>): (r: PResult<MethodItem>)
    ensures r.used <= |ts| && r.stray == s
    ensures r.Done? ==> r.value == MethodItem(verb, path, r.value.structVis, r.value.structName)
  {
    match ParseExact(Ident("as"), ts)
    case Stuck(e, u, _) => Stuck(e, u, s)
    case Done(_, u1, _) =>
      var (vis, u2) := ParseVis(ts[u1..]);
      var n := u1 + u2;
      match ParseIdent(ts[n..])
      case Stuck(e, u, _) => Stuck(e, n + u, s)
      case Done(name, u3, _) =>
        match ParseExact(Punct(';'), ts[n + u3..])
        case Stuck(e, u, _) => Stuck(e, n + u3 + u, s)
        case Done(_, u4, _) => Done(MethodItem(verb, path, vis, name), n + u3 + u4, s)
  }

  /** `ModuleItem::parse`: `vis mod name { items }`. Inside the braces items
      are parsed until the contents are exhausted, and the first item that
      fails makes the module fail; the cursor of the enclosing stream is then
      already past the braces. */
  function ParseModule(ts: seq<Token>): (r: PResult<ModuleItem>)
    ensures r.used <= |ts|
    ensures r.Done? ==> 0 < r.used
    decreases ts, 0
  {
    var (vis, n) := ParseVis(ts);
    match ParseExact(Ident("mod"), ts[n..])
    case Stuck(e, u, _) => Stuck(e, n + u, None)
    case Done(_, _, _) =>
      match ParseIdent(ts[n + 1..])
      case Stuck(e, u, _) => Stuck(e, n + 1 + u, None)
      case Done(name, _, _) =>
        match ParseBraced(ts[n + 2..])
        case Stuck(e, u, _) => Stuck(e, n + 2 + u, None)
        case Done(inner, _, _) =>
          match ParseItemsIn(inner)
          case Stuck(e, left, s) => Stuck(e, n + 3, First(s, Leftover(inner[left..])))
          case Done(items, _, s) => Done(ModuleItem(vis, name, items), n + 3, s)
  }

  /** `Item::parse`: a module is attempted first; when that fails the item
      is parsed as a method from wherever the module attempt left the
      cursor, and the method's error is the one returned. */
  function ParseItem(ts: seq<Token>): (r: PResult<Item>)
    ensures r.used <= |ts|
    ensures r.Done? ==> 0 < r.used
    decreases ts, 1
  {
    match ParseModule(ts)
    case Done(m, u, s) => Done(Module(m), u, s)
    case Stuck(_, u1, s1) =>
      match ParseMethod(ts[u1..])
      case Done(m, u2, s2) => Done(Method(m), u1 + u2, First(s1, s2))
      case Stuck(e, u2, s2) => Stuck(e, u1 + u2, First(s1, s2))
  }

  /** The loop inside a module's braces: `while !inner.is_empty()`, with
      every item failure fatal. */
  function ParseItemsIn(ts: seq<Token>): (r: PResult<seq<Item>>)
    ensures r.used <= |ts|
    ensures r.Done? ==> r.used == |ts|
    ensures |ts| > 0 && ParseItem(ts).Stuck? ==> r.Stuck? && r.error == ParseItem(ts).error
    decreases ts, 2
  {
    if |ts| == 0 then Done([], 0, None)
    else
      match ParseItem(ts)
      case Stuck(e, u, s) => Stuck(e, u, s)
      case Done(it, u, s) => Prepend(it, u, s, ParseItemsIn(ts[u..]))
  }

  /** The loop at the root: `while let Ok(item) = input.parse::<Item>()`.
      It never fails; the first item that fails ends it, and the tokens that
      failed attempt consumed stay consumed. */
  function ParseItemsWhileOk(ts: seq<Token>): (r: PResult<seq<Item>>)
    ensures r.Done? && r.used <= |ts|
    decreases |ts|
  {
    match ParseItem(ts)
    case Stuck(_, u, s) => Done([], u, s)
    case Done(it, u, s) => Prepend(it, u, s, ParseItemsWhileOk(ts[u..]))
  }

  /** `Root::parse`: the header `path = "lit" ;`, then the items. */
  function ParseRoot(ts: seq<Token>): (r: PResult<Root>)
    ensures r.used <= |ts|
    ensures r.Done? ==>
              && 4 <= r.used
              && ts[..4] == [Ident("path"), Punct('='), StrLit(r.value.specPath), Punct(';')]
  {
    match ParseExact(Ident("path"), ts)
    case Stuck(e, u, s) => Stuck(e, u, s)
    case Done(_, _, _) =>
      match ParseExact(Punct('='), ts[1..])
      case Stuck(e, u, s) => Stuck(e, 1 + u, s)
      case Done(_, _, _) =>
        match ParseStrLit(ts[2..])
        case Stuck(e, u, s) => Stuck(e, 2 + u, s)
        case Done(specPath, _, _) =>
          match ParseExact(Punct(';'), ts[3..])
          case Stuck(e, u, s) => Stuck(e, 3 + u, s)
          case Done(_, _, _) =>
            var items := ParseItemsWhileOk(ts[4..]);
            Done(Root(specPath, items.value), 4 + items.used, items.stray)
  }

  /** `parse_macro_input!(item as Root)`: syn's entry point fails on a parse
      error, then on a stray token left inside a brace group, then on any
      token the root parser did not consume. */
  function ParseMacroInput(ts: seq<Token>): (r: Result<Root>)
    ensures r.Ok? <==> (ParseRoot(ts).Done? && ParseRoot(ts).used == |ts| && ParseRoot(ts).stray == None)
    ensures r.Ok? ==> r.value == ParseRoot(ts).value
  {
    match ParseRoot(ts)
    case Stuck(e, _, _) => Err(e)
    case Done(root, used, stray) =>
      if stray.Some? then Err(Error("unexpected token", At(TokenText(stray.value))))
      else if used < |ts| then Err(Error("unexpected token", At(TokenText(ts[used]))))
      else Ok(root)
  }

  // ---------------------------------------------------------------------
  // Rendering a declaration tree back to tokens
  // ---------------------------------------------------------------------

  function RenderVis(v: Vis): seq<Token>
  {
    match v
    case Pub => [Ident("pub")]
    case Inherited => []
  }

  function RenderSegment(s: Segment): seq<Token>
  {
    if s.isParam then [Punct('/'), Group(Brace, [Ident(s.ident)])] else [Punct('/'), Ident(s.ident)]
  }

  function RenderPath(segs: seq<Segment>): seq<Token>
  {
    if |segs| == 0 then [] else RenderSegment(segs[0]) + RenderPath(segs[1..])
  }

  function RenderMethod(m: MethodItem): seq<Token>
  {
    [Ident(DisplayName(m.verb))] + RenderPath(m.path) + RenderMethodTail(m)
  }

  /** `as vis Name ;` */
  function RenderMethodTail(m: MethodItem): seq<Token>
  {
    [Ident("as")] + RenderVis(m.structVis) + [Ident(m.structName), Punct(';')]
  }

  function RenderItem(it: Item): seq<Token>
  {
    match it
    case Method(m) => RenderMethod(m)
    case Module(m) => RenderModule(m)
  }

  function RenderModule(m: ModuleItem): seq<Token>
  {
    RenderVis(m.vis) + [Ident("mod"), Ident(m.name), Group(Brace, RenderItems(m.items))]
  }

  function RenderItems(items: seq<Item>): seq<Token>
  {
    if |items| == 0 then [] else RenderItem(items[0]) + RenderItems(items[1..])
  }

  function RenderRoot(root: Root): seq<Token>
  {
    [Ident("path"), Punct('='), StrLit(root.specPath), Punct(';')] + RenderItems(root.items)
  }

  /** Declaration trees the concrete syntax can express: identifiers are not
      keywords and every verb is one of the five parseable ones. */
  predicate ValidIdent(s: string)
  {
    !IsKeyword(s)
  }

  predicate WellFormedPath(segs: seq<Segment>)
  {
    forall i :: 0 <= i < |segs| ==> ValidIdent(segs[i].ident)
  }

  predicate WellFormedMethod(m: MethodItem)
  {
    ParseableVerb(m.verb) && WellFormedPath(m.path) && ValidIdent(m.structName)
  }

  predicate WellFormedItem(it: Item)
    decreases it, 1
  {
    match it
    case Method(m) => WellFormedMethod(m)
    case Module(m) => ValidIdent(m.name) && WellFormedItems(m.items)
  }

  predicate WellFormedItems(items: seq<Item>)
    decreases items, 0
  {
    |items| == 0 || (WellFormedItem(items[0]) && WellFormedItems(items[1..]))
  }

  // ---------------------------------------------------------------------
  // Properties
  // ---------------------------------------------------------------------

  /** Splitting a prefix of `ts` in two. */
  lemma TakeSplit(ts: seq<Token>, a: nat, b: nat)
    requires a + b <= |ts|
    ensures ts[..a + b] == ts[..a] + ts[a..][..b]
  {
    assert forall i :: 0 <= i < a + b ==> ts[..a + b][i] == (ts[..a] + ts[a..][..b])[i];
  }

  lemma AppendAssoc<T>(a: seq<T>, b: seq<T>, c: seq<T>)
    ensures (a + b) + c == a + (b + c)
  {
    assert forall i :: 0 <= i < |a| + |b| + |c| ==> ((a + b) + c)[i] == (a + (b + c))[i];
  }

  /** Parsing what `Display` prints gives the verb back for the five
      parseable verbs; HEAD, OPTIONS and TRACE are refused as invalid, with
      the identifier consumed. */
  lemma DisplayThenParse(v: Verb, rest: seq<Token>)
    ensures ParseableVerb(v) ==> ParseVerb([Ident(DisplayName(v))] + rest) == Done(v, 1, None)
    ensures !ParseableVerb(v) ==>
              ParseVerb([Ident(DisplayName(v))] + rest) == Stuck(Error("Invalid method", At(DisplayName(v))), 1, None)
  {
    var ts := [Ident(DisplayName(v))] + rest;
    assert ts[0] == Ident(DisplayName(v));
    assert !IsKeyword(DisplayName(v)) by {
      assert 'A' <= DisplayName(v)[0] <= 'Z' && DisplayName(v)[0] != 'S';
    }
  }

  /** `ToTokens` prints the verb `Display` prints, in lower case. */
  lemma LowerNameIsLowercasedDisplay(v: Verb)
    ensures LowerName(v) == AsciiLower(DisplayName(v))
  {
    var d := DisplayName(v);
    assert forall i :: 0 <= i < |d| ==> AsciiLower(d)[i] == LowerName(v)[i];
  }

  function AsciiLower(s: string): string
  {
    seq(|s|, i requires 0 <= i < |s| => if 'A' <= s[i] <= 'Z' then (s[i] as int + 32) as char else s[i])
  }

  /** Rendering path segments to tokens and parsing them again gives the
      segments back, and parsing stops at the first token that is not `/`. */
  lemma {:induction false} PathRoundTrip(segs: seq<Segment>, rest: seq<Token>)
    requires WellFormedPath(segs)
    requires |rest| == 0 || rest[0] != Punct('/')
    ensures ParsePath(RenderPath(segs) + rest) == Done(segs, |RenderPath(segs)|, None)
    decreases |segs|
  {
    if |segs| == 0 {
      assert RenderPath(segs) + rest == rest;
    } else {
      var seg := segs[0];
      var tail := RenderPath(segs[1..]) + rest;
      var ts := RenderSegment(seg) + tail;
      AppendAssoc(RenderSegment(seg), RenderPath(segs[1..]), rest);
      assert RenderPath(segs) + rest == ts;
      assert WellFormedPath(segs[1..]) by {
        forall i | 0 <= i < |segs[1..]| ensures ValidIdent(segs[1..][i].ident) {
          assert segs[1..][i] == segs[i + 1];
        }
      }
      PathRoundTrip(segs[1..], rest);
      assert ValidIdent(seg.ident);
      assert ts[2..] == tail;
      if seg.isParam {
        assert ts[1] == Group(Brace, [Ident(seg.ident)]);
        assert ParseIdent([Ident(seg.ident)]) == Done(seg.ident, 1, None);
      } else {
        assert ts[1..][0] == Ident(seg.ident);
      }
      assert [seg] + segs[1..] == segs;
    }
  }

  /** Every path the parser accepts without a stray token is exactly the
      rendering of the segments it returns: `/`, then `{ident}` or `ident`. */
  lemma {:induction false} PathSound(ts: seq<Token>)
    requires ParsePath(ts).Done? && ParsePath(ts).stray == None
    ensures ts[..ParsePath(ts).used] == RenderPath(ParsePath(ts).value)
    decreases |ts|
  {
    var r := ParsePath(ts);
    if |ts| == 0 || ts[0] != Punct('/') {
    } else {
      var seg: Segment;
      if |ts| > 1 && ts[1].Group? && ts[1].delim == Brace {
        var id := ParseIdent(ts[1].inner).value;
        assert ts[1].inner == [Ident(id)];
        seg := Segment(id, true);
      } else {
        seg := Segment(ParseIdent(ts[1..]).value, false);
      }
      assert ts[..2] == RenderSegment(seg);
      var t := ParsePath(ts[2..]);
      assert r == Done([seg] + t.value, 2 + t.used, None);
      PathSound(ts[2..]);
      TakeSplit(ts, 2, t.used);
      assert ([seg] + t.value)[1..] == t.value;
    }
  }

  /** `as vis Name ;` for a valid name reads back, whatever follows. */
  lemma TailRoundTrip(m: MethodItem, rest: seq<Token>)
    requires ValidIdent(m.structName)
    ensures ParseMethodTail(m.verb, m.path, None, RenderMethodTail(m) + rest) == Done(m, |RenderMethodTail(m)|, None)
  {
    var ts := RenderMethodTail(m) + rest;
    var n := |RenderVis(m.structVis)| + 1;
    assert ts[0] == Ident("as");
    assert ts[n] == Ident(m.structName) && ts[n + 1] == Punct(';');
    if m.structVis == Pub {
      assert ts[1] == Ident("pub");
    } else {
      PubIsKeyword();
      assert ts[1] != Ident("pub");
    }
    assert ts[n..][0] == ts[n] && ts[n + 1..][0] == ts[n + 1];
  }

  /** The tail parser accepts nothing but the rendering of what it returns. */
  lemma TailSound(verb: Verb, path: seq<Segment>, s: Option<Token>, ts: seq<Token>)
    requires ParseMethodTail(verb, path, s, ts).Done?
    ensures var r := ParseMethodTail(verb, path, s, ts);
            ts[..r.used] == RenderMethodTail(r.value)
  {
    var r := ParseMethodTail(verb, path, s, ts);
    var vis := r.value.structVis;
    assert ts[0] == Ident("as");
    if vis == Pub {
      assert ts[1] == Ident("pub");
      assert ts[2] == Ident(r.value.structName) && ts[3] == Punct(';');
      assert ts[..r.used] == [ts[0], ts[1], ts[2], ts[3]];
    } else {
      assert ts[1] == Ident(r.value.structName) && ts[2] == Punct(';');
      assert ts[..r.used] == [ts[0], ts[1], ts[2]];
    }
  }

  /** A well-formed method renders to tokens the method parser reads back,
      whatever follows it. */
  lemma MethodRoundTrip(m: MethodItem, rest: seq<Token>)
    requires WellFormedMethod(m)
    ensures ParseMethod(RenderMethod(m) + rest) == Done(m, |RenderMethod(m)|, None)
  {
    var ts := RenderMethod(m) + rest;
    var path := RenderPath(m.path);
    var tail := RenderMethodTail(m) + rest;
    MethodSplit(m, rest);
    VerbAt(ts, m.verb);
    PathRoundTrip(m.path, tail);
    TailRoundTrip(m, rest);
    MethodSteps(ts, m.verb, m.path, |path|);
  }

  /** Where the parts of a rendered method sit in the token stream. */
  lemma MethodSplit(m: MethodItem, rest: seq<Token>)
    ensures var ts := RenderMethod(m) + rest;
            var path := RenderPath(m.path);
            && |RenderMethod(m)| == 1 + |path| + |RenderMethodTail(m)|
            && |ts| > 0 && ts[0] == Ident(DisplayName(m.verb))
            && ts[1..] == path + (RenderMethodTail(m) + rest)
            && ts[1 + |path|..] == RenderMethodTail(m) + rest
  {
    var v := [Ident(DisplayName(m.verb))];
    var path := RenderPath(m.path);
    AppendAssoc(v + path, RenderMethodTail(m), rest);
    AppendAssoc(v, path, RenderMethodTail(m) + rest);
    var ts := v + (path + (RenderMethodTail(m) + rest));
    assert ts[1..] == path + (RenderMethodTail(m) + rest);
    assert ts[1 + |path|..] == RenderMethodTail(m) + rest;
  }

  /** The verb parser reads a parseable verb's display name. */
  lemma VerbAt(ts: seq<Token>, v: Verb)
    requires ParseableVerb(v)
    requires |ts| > 0 && ts[0] == Ident(DisplayName(v))
    ensures ParseVerb(ts) == Done(v, 1, None)
  {
    DisplayThenParse(v, ts[1..]);
    assert [ts[0]] + ts[1..] == ts;
  }

  /** The method parser once the verb and the path have been read. */
  lemma MethodSteps(ts: seq<Token>, verb: Verb, path: seq<Segment>, n: nat)
    requires ParseVerb(ts) == Done(verb, 1, None)
    requires ParsePath(ts[1..]) == Done(path, n, None)
    ensures ParseMethod(ts) == After(1 + n, None, ParseMethodTail(verb, path, None, ts[1 + n..]))
  {
  }

  /** The method parser accepts nothing but the rendering of the method it
      returns: the verb, the path, `as`, the visibility, the name and `;`
      are each required. */
  lemma MethodSound(ts: seq<Token>)
    requires ParseMethod(ts).Done? && ParseMethod(ts).stray == None
    ensures ts[..ParseMethod(ts).used] == RenderMethod(ParseMethod(ts).value)
  {
    MethodParts(ts);
    var verb := ParseVerb(ts).value;
    var p := ParsePath(ts[1..]);
    var t := ParseMethodTail(verb, p.value, p.stray, ts[1 + p.used..]);
    PathSound(ts[1..]);
    TailSound(verb, p.value, p.stray, ts[1 + p.used..]);
    PrefixOfThree(ts, Ident(DisplayName(verb)), RenderPath(p.value), RenderMethodTail(t.value));
  }

  /** A method the parser accepts was read as a verb token, a path and a tail. */
  lemma MethodParts(ts: seq<Token>)
    requires ParseMethod(ts).Done?
    ensures |ts| > 0 && ParseVerb(ts).Done? && ParsePath(ts[1..]).Done?
    ensures var p := ParsePath(ts[1..]);
            ParseMethod(ts) == After(1 + p.used, None, ParseMethodTail(ParseVerb(ts).value, p.value, p.stray, ts[1 + p.used..]))
  {
  }

  /** A token followed by two runs of tokens, found at the start of `ts`. */
  lemma PrefixOfThree(ts: seq<Token>, x: Token, b: seq<Token>, c: seq<Token>)
    requires 1 + |b| + |c| <= |ts| && ts[0] == x
    requires ts[1..][..|b|] == b && ts[1 + |b|..][..|c|] == c
    ensures ts[..1 + |b| + |c|] == [x] + b + c
  {
    TakeSplit(ts, 1, |b|);
    TakeSplit(ts, 1 + |b|, |c|);
    assert ts[..1] == [x];
  }

  /** A method preceded by a stray `pub` still parses as that method: the
      failed module attempt keeps the `pub` it consumed, so the token is
      silently dropped. */
  lemma StrayPubBeforeMethod(m: MethodItem, rest: seq<Token>)
    requires WellFormedMethod(m)
    ensures ParseItem([Ident("pub")] + (RenderMethod(m) + rest)) == Done(Method(m), 1 + |RenderMethod(m)|, None)
  {
    var ts := [Ident("pub")] + (RenderMethod(m) + rest);
    assert ts[1..] == RenderMethod(m) + rest;
    assert ts[1] == Ident(DisplayName(m.verb));
    ModuleRefusesPubNonMod(ts);
    MethodRoundTrip(m, rest);
  }

  /** A method name with nothing after it: the verb is read, then `as` is
      missing. */
  lemma LoneVerbFails()
    ensures var r := ParseItemsIn([Ident("GET")]);
            r.Stuck? && r.used == 1 && r.stray == None
  {
    var ts := [Ident("GET")];
    ModuleRefusesNonMod(ts);
    assert ts[0..] == ts && ts[1..] == [];
  }

  /** `mod Users { GET }`: the module's body fails, having consumed the
      whole group, and the method attempt after it finds nothing. */
  lemma FailedModuleConsumed()
    ensures var r := ParseItem([Ident("mod"), Ident("Users"), Group(Brace, [Ident("GET")])]);
            r.Stuck? && r.used == 3 && r.stray == None
  {
    var ts := [Ident("mod"), Ident("Users"), Group(Brace, [Ident("GET")])];
    LoneVerbFails();
    assert ts[1..][0] == Ident("Users") && ts[2..][0] == Group(Brace, [Ident("GET")]);
    assert ParseModule(ts).Stuck? && ParseModule(ts).used == 3 && ParseModule(ts).stray == None;
    MethodRefusesNonIdent(ts[3..]);
  }

  /** A module whose body does not parse is silently dropped at the root:
      the failed item ends the root loop with all its tokens consumed, so
      the macro input is accepted with no items at all. */
  lemma FailedModuleDropped()
    ensures ParseMacroInput([Ident("path"), Punct('='), StrLit("x"), Punct(';'),
                             Ident("mod"), Ident("Users"), Group(Brace, [Ident("GET")])])
            == Ok(Root("x", []))
  {
    var body := [Ident("mod"), Ident("Users"), Group(Brace, [Ident("GET")])];
    FailedModuleConsumed();
    assert ParseItemsWhileOk(body) == Done([], 3, None);
    RootHeader("x", body);
    assert [Ident("path"), Punct('='), StrLit("x"), Punct(';')] + body
           == [Ident("path"), Punct('='), StrLit("x"), Punct(';'),
               Ident("mod"), Ident("Users"), Group(Brace, [Ident("GET")])];
  }

  /** The module parser consumes nothing from input that starts with
      neither `pub` nor `mod`. */
  lemma ModuleRefusesNonMod(ts: seq<Token>)
    requires |ts| == 0 || (ts[0] != Ident("pub") && ts[0] != Ident("mod"))
    ensures ParseModule(ts).Stuck? && ParseModule(ts).used == 0 && ParseModule(ts).stray == None
  {
    assert ts[0..] == ts;
  }

  /** Without `mod` after a `pub`, the module parser fails having consumed
      the `pub`. */
  lemma ModuleRefusesPubNonMod(ts: seq<Token>)
    requires |ts| > 0 && ts[0] == Ident("pub")
    requires |ts| == 1 || ts[1] != Ident("mod")
    ensures ParseModule(ts).Stuck? && ParseModule(ts).used == 1 && ParseModule(ts).stray == None
  {
  }

  /** The method parser consumes nothing from input that does not start
      with an identifier. */
  lemma MethodRefusesNonIdent(ts: seq<Token>)
    requires |ts| == 0 || !ts[0].Ident?
    ensures ParseMethod(ts).Stuck? && ParseMethod(ts).used == 0 && ParseMethod(ts).stray == None
  {
  }

  /** A module whose rendered contents parse back to its items parses back
      to itself. */
  lemma ModuleRoundTrip(m: ModuleItem, rest: seq<Token>)
    requires ValidIdent(m.name)
    requires ParseItemsIn(RenderItems(m.items)) == Done(m.items, |RenderItems(m.items)|, None)
    ensures ParseModule(RenderModule(m) + rest) == Done(m, |RenderModule(m)|, None)
  {
    var ts := RenderModule(m) + rest;
    var n := |RenderVis(m.vis)|;
    assert ts[n] == Ident("mod") && ts[n + 1] == Ident(m.name);
    assert ts[n + 2] == Group(Brace, RenderItems(m.items));
    if m.vis == Pub {
      assert ts[0] == Ident("pub");
    }
    assert ts[n..][0] == ts[n] && ts[n + 1..][0] == ts[n + 1] && ts[n + 2..][0] == ts[n + 2];
  }

  /** Rendering a well-formed item and parsing it again gives it back. */
  lemma {:induction false} ItemRoundTrip(it: Item, rest: seq<Token>)
    requires WellFormedItem(it)
    ensures ParseItem(RenderItem(it) + rest) == Done(it, |RenderItem(it)|, None)
    decreases it, 1
  {
    var ts := RenderItem(it) + rest;
    match it
    case Method(m) =>
      assert ts[0] == Ident(DisplayName(m.verb));
      ModuleRefusesNonMod(ts);
      assert ts[0..] == ts;
      MethodRoundTrip(m, rest);
    case Module(m) =>
      ItemsInRoundTrip(m.items);
      ModuleRoundTrip(m, rest);
  }

  lemma {:induction false} ItemsInRoundTrip(items: seq<Item>)
    requires WellFormedItems(items)
    ensures ParseItemsIn(RenderItems(items)) == Done(items, |RenderItems(items)|, None)
    decreases items, 0
  {
    if |items| > 0 {
      ItemRoundTrip(items[0], RenderItems(items[1..]));
      ItemsInRoundTrip(items[1..]);
      ItemsInCons(items);
    }
  }

  /** One more item in front of a module body that reads back. */
  lemma ItemsInCons(items: seq<Item>)
    requires |items| > 0
    requires ParseItem(RenderItem(items[0]) + RenderItems(items[1..])) == Done(items[0], |RenderItem(items[0])|, None)
    requires ParseItemsIn(RenderItems(items[1..])) == Done(items[1..], |RenderItems(items[1..])|, None)
    ensures ParseItemsIn(RenderItems(items)) == Done(items, |RenderItems(items)|, None)
  {
    ItemsSplit(items, []);
    ItemsInStep(RenderItems(items), items[0], |RenderItem(items[0])|);
  }

  /** Where the first item and the rest sit in a rendered item list. */
  lemma ItemsSplit(items: seq<Item>, rest: seq<Token>)
    requires |items| > 0
    ensures var ts := RenderItems(items) + rest;
            && [items[0]] + items[1..] == items
            && ts == RenderItem(items[0]) + (RenderItems(items[1..]) + rest)
            && ts[|RenderItem(items[0])|..] == RenderItems(items[1..]) + rest
  {
    var head := RenderItem(items[0]);
    AppendAssoc(head, RenderItems(items[1..]), rest);
    var ts := head + (RenderItems(items[1..]) + rest);
    assert ts[|head|..] == RenderItems(items[1..]) + rest;
  }

  /** The module-body loop after one item was read without a stray token. */
  lemma ItemsInStep(ts: seq<Token>, it: Item, u: nat)
    requires ParseItem(ts) == Done(it, u, None)
    ensures ParseItemsIn(ts) == Prepend(it, u, None, ParseItemsIn(ts[u..]))
  {
  }

  /** No item starts with punctuation, and an item attempt at such a token
      consumes nothing. */
  lemma ItemRefusesPunct(ts: seq<Token>)
    requires |ts| == 0 || ts[0].Punct?
    ensures ParseItem(ts).Stuck? && ParseItem(ts).used == 0 && ParseItem(ts).stray == None
  {
    ModuleRefusesNonMod(ts);
    MethodRefusesNonIdent(ts);
    ItemFallsThrough(ts);
  }

  /** When neither the module nor the method attempt consumes anything, the
      item attempt consumes nothing. */
  lemma ItemFallsThrough(ts: seq<Token>)
    requires ParseModule(ts).Stuck? && ParseModule(ts).used == 0 && ParseModule(ts).stray == None
    requires ParseMethod(ts).Stuck? && ParseMethod(ts).used == 0 && ParseMethod(ts).stray == None
    ensures ParseItem(ts).Stuck? && ParseItem(ts).used == 0 && ParseItem(ts).stray == None
    ensures ParseItem(ts).error == ParseMethod(ts).error
  {
    assert ts[0..] == ts;
  }

  /** A module attempt that fails is discarded: the item is whatever the
      method parser makes of the tokens after the ones the module attempt
      consumed, and a failure reports the method's error. */
  lemma ItemAfterFailedModule(ts: seq<Token>)
    requires ParseModule(ts).Stuck?
    ensures var u := ParseModule(ts).used;
            var m := ParseMethod(ts[u..]);
            var r := ParseItem(ts);
            && (r.Done? <==> m.Done?)
            && r.used == u + m.used
            && (m.Done? ==> r.value == Method(m.value))
            && (m.Stuck? ==> r.error == m.error)
  {
  }

  lemma WhileOkStops(ts: seq<Token>)
    requires |ts| == 0 || ts[0].Punct?
    ensures ParseItemsWhileOk(ts) == Done([], 0, None)
  {
    ItemRefusesPunct(ts);
  }

  /** The root loop reads every rendered item and stops, without error, at
      the first punctuation token (or at the end). */
  lemma {:induction false} ItemsWhileOkRoundTrip(items: seq<Item>, rest: seq<Token>)
    requires WellFormedItems(items)
    requires |rest| == 0 || rest[0].Punct?
    ensures ParseItemsWhileOk(RenderItems(items) + rest) == Done(items, |RenderItems(items)|, None)
    decreases |items|
  {
    if |items| == 0 {
      WhileOkNil(items, rest);
    } else {
      ItemRoundTrip(items[0], RenderItems(items[1..]) + rest);
      ItemsWhileOkRoundTrip(items[1..], rest);
      WhileOkCons(items, rest);
    }
  }

  lemma WhileOkNil(items: seq<Item>, rest: seq<Token>)
    requires |items| == 0
    requires |rest| == 0 || rest[0].Punct?
    ensures ParseItemsWhileOk(RenderItems(items) + rest) == Done(items, |RenderItems(items)|, None)
  {
    assert RenderItems(items) + rest == rest;
    WhileOkStops(rest);
  }

  /** One more item in front of items the root loop reads back. */
  lemma WhileOkCons(items: seq<Item>, rest: seq<Token>)
    requires |items| > 0
    requires ParseItem(RenderItem(items[0]) + (RenderItems(items[1..]) + rest)) == Done(items[0], |RenderItem(items[0])|, None)
    requires ParseItemsWhileOk(RenderItems(items[1..]) + rest) == Done(items[1..], |RenderItems(items[1..])|, None)
    ensures ParseItemsWhileOk(RenderItems(items) + rest) == Done(items, |RenderItems(items)|, None)
  {
    ItemsSplit(items, rest);
    WhileOkStep(RenderItems(items) + rest, items[0], |RenderItem(items[0])|);
  }

  /** The root loop after one item was read without a stray token. */
  lemma WhileOkStep(ts: seq<Token>, it: Item, u: nat)
    requires ParseItem(ts) == Done(it, u, None)
    ensures ParseItemsWhileOk(ts) == Prepend(it, u, None, ParseItemsWhileOk(ts[u..]))
  {
  }

  /** The header `path = "lit" ;` reads back, and the items after it are
      handed to the root loop. */
  lemma RootHeader(specPath: string, body: seq<Token>)
    ensures var ts := [Ident("path"), Punct('='), StrLit(specPath), Punct(';')] + body;
            var items := ParseItemsWhileOk(body);
            ParseRoot(ts) == Done(Root(specPath, items.value), 4 + items.used, items.stray)
  {
    var ts := [Ident("path"), Punct('='), StrLit(specPath), Punct(';')] + body;
    assert ts[1..][0] == Punct('=') && ts[2..][0] == StrLit(specPath) && ts[3..][0] == Punct(';');
    assert ts[4..] == body;
  }

  /** A well-formed declaration tree renders to a token tree that the macro
      input parser reads back exactly. */
  lemma RootRoundTrip(root: Root)
    requires WellFormedItems(root.items)
    ensures ParseMacroInput(RenderRoot(root)) == Ok(root)
  {
    var body := RenderItems(root.items);
    ItemsWhileOkRoundTrip(root.items, []);
    assert body + [] == body;
    RootHeader(root.specPath, body);
  }

  /** Tokens after the last item that no item can start with end the root
      loop quietly; the entry point then refuses them. */
  lemma TrailingPunctRefused(root: Root, p: char)
    requires WellFormedItems(root.items)
    ensures ParseRoot(RenderRoot(root) + [Punct(p)]) == Done(root, |RenderRoot(root)|, None)
    ensures ParseMacroInput(RenderRoot(root) + [Punct(p)]) == Err(Error("unexpected token", At([p])))
  {
    var header := [Ident("path"), Punct('='), StrLit(root.specPath), Punct(';')];
    var body := RenderItems(root.items) + [Punct(p)];
    AppendAssoc(header, RenderItems(root.items), [Punct(p)]);
    ItemsWhileOkRoundTrip(root.items, [Punct(p)]);
    RootHeader(root.specPath, body);
    var ts := RenderRoot(root) + [Punct(p)];
    assert ts[|RenderRoot(root)|] == Punct(p);
  }
}
