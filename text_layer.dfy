/** `build_text_layer`: scans each page's top-level tokens with a two-token
    lookback and the current font, turns every string into a mutable text
    unit, and collects the units that text-showing operators show. */
module TextLayer {
  import opened Common
  import opened Tokens
  import Tokenizer
  import opened Codec

  /** A resource dictionary: its `/Font` dictionary, its `/Parent`, and how
      many other entries it has (an empty dictionary is false in Python). */
  datatype Resources = Resources(fonts: Option<map<string, Font>>, parent: Option<Resources>, otherKeys: nat)

  /** A page: its decompressed content streams (`None` when `/Contents` is
      absent) and its `/Resources`. */
  datatype Page = Page(contents: Option<seq<seq<Byte>>>, resources: Option<Resources>)

  /** A `TextToken`: the string's bytes and the font active where it stood,
      the text they decode to, and the current (possibly rewritten) text. */
  datatype TextUnit = TextUnit(raw: seq<Byte>, font: Option<Font>, original: UString, value: UString)

  predicate TruthyResources(res: Option<Resources>)
  {
    res.Some? && (res.value.fonts.Some? || res.value.parent.Some? || res.value.otherKeys > 0)
  }

  /** `resources.Font[name]`: a missing entry reads as `None`. */
  function FontAt(res: Resources, name: string): Option<Font>
    requires res.fonts.Some?
  {
    if name in res.fonts.value then Some(res.fonts.value[name]) else None
  }

  /** The `Tf` lookup loop from `res` on, with the font found so far; a
      walked level without `/Font` fails (`None[name]`). */
  function Walk(res: Option<Resources>, name: string, cur: Option<Font>): Result<Option<Font>>
    decreases res
  {
    if !TruthyResources(res) || Truthy(cur) then Ok(cur)
    else if res.value.fonts.None? then Err(TypeError)
    else Walk(res.value.parent, name, FontAt(res.value, name))
  }

  /** The loop of the `Tf` branch. */
  method FindFont(resources: Option<Resources>, name: string) returns (r: Result<Option<Font>>)
    ensures r == Walk(resources, name, None)
  {
    var res := resources;
    var cur: Option<Font> := None;
    while TruthyResources(res) && !Truthy(cur)
      invariant Walk(resources, name, None) == Walk(res, name, cur)
      decreases res
    {
      if res.value.fonts.None? {
        return Err(TypeError);
      }
      cur := FontAt(res.value, name);
      res := res.value.parent;
    }
    return Ok(cur);
  }

  /** The resource dictionaries the lookup may visit: the `/Parent` chain
      up to the first missing or empty dictionary. */
  function Chain(res: Option<Resources>): (c: seq<Resources>)
    ensures forall k :: 0 <= k < |c| ==> TruthyResources(Some(c[k]))
    decreases res
  {
    if !TruthyResources(res) then [] else [res.value] + Chain(res.value.parent)
  }

  /** No walked level before `n` has a true font for `name`, and all of
      them have a `/Font` dictionary. */
  ghost predicate NoneBefore(c: seq<Resources>, name: string, n: nat)
    requires n <= |c|
  {
    forall j :: 0 <= j < n ==> c[j].fonts.Some? && !Truthy(FontAt(c[j], name))
  }

  /** What the lookup result `r` is along the chain `c`: the first true
      font, if any; a false value when there is none; and a failure exactly
      when a level without `/Font` comes before any font. */
  ghost predicate FindsFirst(c: seq<Resources>, name: string, r: Result<Option<Font>>)
  {
    (r.Ok? && Truthy(r.value) ==>
       exists k :: 0 <= k < |c| && NoneBefore(c, name, k) && c[k].fonts.Some? && FontAt(c[k], name) == r.value)
    && (r.Ok? && !Truthy(r.value) ==> NoneBefore(c, name, |c|))
    && (r.Err? <==> exists k :: 0 <= k < |c| && NoneBefore(c, name, k) && c[k].fonts.None?)
  }

  /** The lookup (started from `None` or another false value) yields the
      first true font along the chain; if there is none it yields a false
      value; it fails exactly when it reaches a level
      without `/Font` before finding a font. */
  lemma {:induction false} WalkFindsFirst(res: Option<Resources>, name: string, cur: Option<Font>)
    requires !Truthy(cur)
    ensures FindsFirst(Chain(res), name, Walk(res, name, cur))
    decreases res
  {
    var c := Chain(res);
    if TruthyResources(res) {
      var top := res.value;
      assert c == [top] + Chain(top.parent);
      if top.fonts.Some? {
        var f := FontAt(top, name);
        if Truthy(f) {
          assert Walk(top.parent, name, f) == Ok(f);
          assert NoneBefore(c, name, 0);
        } else {
          WalkFindsFirst(top.parent, name, f);
          FindsFirstCons(top, Chain(top.parent), name, Walk(top.parent, name, f));
        }
      } else {
        assert NoneBefore(c, name, 0);
      }
    }
  }

  /** A level with a `/Font` dictionary but no true font for `name` passes
      the lookup on to the rest of the chain. */
  lemma FindsFirstCons(top: Resources, rest: seq<Resources>, name: string, r: Result<Option<Font>>)
    requires top.fonts.Some? && !Truthy(FontAt(top, name)) && FindsFirst(rest, name, r)
    ensures FindsFirst([top] + rest, name, r)
  {
    var c := [top] + rest;
    assert forall k :: 0 <= k < |rest| ==> c[k + 1] == rest[k];
    forall k | 0 <= k <= |rest| && NoneBefore(rest, name, k)
      ensures NoneBefore(c, name, k + 1)
    {
    }
    forall k | 0 < k <= |c| && NoneBefore(c, name, k)
      ensures NoneBefore(rest, name, k - 1)
    {
      assert forall j :: 0 <= j < k - 1 ==> rest[j] == c[j + 1];
    }
    if r.Ok? && Truthy(r.value) {
      var k :| 0 <= k < |rest| && NoneBefore(rest, name, k) && rest[k].fonts.Some? && FontAt(rest[k], name) == r.value;
      assert NoneBefore(c, name, k + 1) && c[k + 1] == rest[k];
    }
    if r.Err? {
      var k :| 0 <= k < |rest| && NoneBefore(rest, name, k) && rest[k].fonts.None?;
      assert NoneBefore(c, name, k + 1) && c[k + 1] == rest[k];
    }
  }

  /** The builder's state inside one page: the text units made so far, the
      collected `text_tokens` (unit indices), the font cache, the page's
      token list so far, and the current font. The previous and the
      before-previous token are the last two entries of the token list. */
  datatype Scan = Scan(units: seq<TextUnit>, textTokens: seq<nat>, cache: Cache, list: seq<Token>, font: Option<Font>)

  /** `make_mutable_string_token`: a string becomes a new text unit decoded
      with the current font; any other token stays as it is. */
  function Mutable(env: Env, st: Scan, tok: Token): (r: Result<(Token, Scan)>)
    requires Tokenizer.Advances(env.lex)
    ensures r.Ok? && !tok.Str? ==> r.value == (tok, st)
    ensures r.Ok? ==> r.value.1.list == st.list && r.value.1.font == st.font && r.value.1.textTokens == st.textTokens
    ensures r.Ok? && tok.Str? ==>
      r.value.0 == Text(|st.units|) && |r.value.1.units| == |st.units| + 1
      && r.value.1.units[..|st.units|] == st.units
      && var u := r.value.1.units[|st.units|];
         u.raw == tok.bytes && u.font == st.font && u.value == u.original
  {
    if !tok.Str? then Ok((tok, st))
    else
      match ToUnicode(env, tok.bytes, st.font, st.cache)
      case Err(e) => Err(e)
      case Ok((text, cache)) =>
        Ok((Text(|st.units|), st.(units := st.units + [TextUnit(tok.bytes, st.font, text, text)], cache := cache)))
  }

  /** `process_text`: a unit whose text is empty is not collected. */
  function Process(st: Scan, id: nat): Scan
  {
    if id >= |st.units| || st.units[id].value == [] then st else st.(textTokens := st.textTokens + [id])
  }

  /** The `TJ` loop over the array elements from `i` on: each string element
      is replaced by a new text unit, which is collected. */
  function ConvertElems(env: Env, st: Scan, elems: seq<Token>, i: nat): (r: Result<(seq<Token>, Scan)>)
    requires Tokenizer.Advances(env.lex) && i <= |elems|
    ensures r.Ok? ==> |r.value.0| == |elems| && r.value.1.list == st.list && r.value.1.font == st.font
    decreases |elems| - i
  {
    if i == |elems| then Ok((elems, st))
    else
      match Mutable(env, st, elems[i])
      case Err(e) => Err(e)
      case Ok((e, st')) =>
        var st'' := if e.Text? then Process(st', e.id) else st';
        ConvertElems(env, st'', elems[i := e], i + 1)
  }

  predicate IsShowOperator(t: Token)
  {
    t == Keyword("Tj") || t == Keyword("'") || t == Keyword("\"")
  }

  /** One top-level token of the page: it is made mutable and appended,
      then the operator acts on the tokens before it. */
  function ScanToken(env: Env, res: Option<Resources>, st: Scan, tok: Token): Result<Scan>
    requires Tokenizer.Advances(env.lex)
  {
    match Mutable(env, st, tok)
    case Err(e) => Err(e)
    case Ok((t, st1)) => Dispatch(env, res, st.list, t, st1.(list := st1.list + [t]))
  }

  /** The branch on the operator `t`, which follows the tokens `list`;
      `st2` is the state with `t` appended. */
  function Dispatch(env: Env, res: Option<Resources>, list: seq<Token>, t: Token, st2: Scan): Result<Scan>
    requires Tokenizer.Advances(env.lex) && st2.list == list + [t]
  {
    var n := |list|;
    if IsShowOperator(t) && n >= 1 && list[n - 1].Text? then
      Ok(Process(st2, list[n - 1].id))
    else if t == Keyword("TJ") && n >= 1 && list[n - 1].Arr? then
      match ConvertElems(env, st2, list[n - 1].elems, 0)
      case Err(e) => Err(e)
      case Ok((elems, st3)) => Ok(st3.(list := st3.list[n - 1 := Arr(elems)]))
    else if t == Keyword("Tf") && n >= 2 && list[n - 2].Name? then
      match Walk(res, list[n - 2].text, None)
      case Err(e) => Err(e)
      case Ok(f) => Ok(st2.(font := f))
    else Ok(st2)
  }

  function ScanTokens(env: Env, res: Option<Resources>, st: Scan, toks: seq<Token>): Result<Scan>
    requires Tokenizer.Advances(env.lex)
    decreases |toks|
  {
    if toks == [] then Ok(st)
    else
      match ScanToken(env, res, st, toks[0])
      case Err(e) => Err(e)
      case Ok(st') => ScanTokens(env, res, st', toks[1..])
  }

  /** What `build_text_layer` returns (`text_tokens`, `page_tokens`), with
      the text units the handles in them refer to and the font cache. */
  datatype Layer = Layer(units: seq<TextUnit>, textTokens: seq<nat>, cache: Cache, pages: seq<seq<Token>>)

  /** One page: its content streams are tokenized as one stream; the
      lookback and the current font start afresh. */
  function ScanPage(env: Env, ly: Layer, page: Page): Result<Layer>
    requires Tokenizer.Advances(env.lex)
  {
    if page.contents.None? then Ok(ly.(pages := ly.pages + [[]]))
    else
      match Tokenizer.TokenizeSpec(env.lex, page.contents.value)
      case Err(e) => Err(e)
      case Ok(toks) =>
        match ScanTokens(env, page.resources, Scan(ly.units, ly.textTokens, ly.cache, [], None), toks)
        case Err(e) => Err(e)
        case Ok(sc) => Ok(Layer(sc.units, sc.textTokens, sc.cache, ly.pages + [sc.list]))
  }

  function ScanPages(env: Env, ly: Layer, pages: seq<Page>): Result<Layer>
    requires Tokenizer.Advances(env.lex)
    decreases |pages|
  {
    if pages == [] then Ok(ly)
    else
      match ScanPage(env, ly, pages[0])
      case Err(e) => Err(e)
      case Ok(ly') => ScanPages(env, ly', pages[1..])
  }

  function TextLayerOf(env: Env, pages: seq<Page>): Result<Layer>
    requires Tokenizer.Advances(env.lex)
  {
    ScanPages(env, Layer([], [], map[], []), pages)
  }

  /** The page loop at token `k`. */
  lemma ScanTokensAt(env: Env, res: Option<Resources>, st: Scan, toks: seq<Token>, k: nat, r: Result<Scan>)
    requires Tokenizer.Advances(env.lex) && k < |toks| && r == ScanToken(env, res, st, toks[k])
    ensures r.Err? ==> ScanTokens(env, res, st, toks[k..]) == Err(r.error)
    ensures r.Ok? ==> ScanTokens(env, res, st, toks[k..]) == ScanTokens(env, res, r.value, toks[k + 1..])
  {
    assert toks[k..][0] == toks[k] && toks[k..][1..] == toks[k + 1..];
  }

  /** `make_mutable_string_token`. */
  method MakeMutable(env: Env, st: Scan, tok: Token) returns (r: Result<(Token, Scan)>)
    requires Tokenizer.Advances(env.lex)
    ensures r == Mutable(env, st, tok)
  {
    if !tok.Str? {
      return Ok((tok, st));
    }
    var dec := ToUnicode(env, tok.bytes, st.font, st.cache);
    if dec.Err? {
      return Err(dec.error);
    }
    var text := dec.value.0;
    return Ok((Text(|st.units|), st.(units := st.units + [TextUnit(tok.bytes, st.font, text, text)], cache := dec.value.1)));
  }

  /** The `TJ` branch's loop: `prev_token[i] = make_mutable_string_token(prev_token[i])`
      and `process_text` for each element that is then a text unit. */
  method ConvertArray(env: Env, st0: Scan, elems0: seq<Token>) returns (r: Result<(seq<Token>, Scan)>)
    requires Tokenizer.Advances(env.lex)
    ensures r == ConvertElems(env, st0, elems0, 0)
  {
    var st := st0;
    var elems := elems0;
    var i := 0;
    while i < |elems|
      invariant i <= |elems| && |elems| == |elems0|
      invariant ConvertElems(env, st0, elems0, 0) == ConvertElems(env, st, elems, i)
    {
      var m := MakeMutable(env, st, elems[i]);
      if m.Err? {
        return Err(m.error);
      }
      var e;
      e, st := m.value.0, m.value.1;
      elems := elems[i := e];
      if e.Text? {
        st := Process(st, e.id);
      }
      i := i + 1;
    }
    return Ok((elems, st));
  }

  /** The `n`-th token from the end of the list, if there is one:
      `prev_token` is `Lookback(list, 1)`, `prev_prev_token` is
      `Lookback(list, 2)`. */
  function Lookback(list: seq<Token>, n: nat): (r: Option<Token>)
    requires n >= 1
    ensures r.Some? <==> |list| >= n
    ensures r.Some? ==> r.value == list[|list| - n]
  {
    if |list| >= n then Some(list[|list| - n]) else None
  }

  /** The loop over one page's tokens, with `prev_token`, `prev_prev_token`
      and `current_font` (in `st.font`) as variables. */
  method ScanPageTokens(env: Env, res: Option<Resources>, st0: Scan, toks: seq<Token>) returns (r: Result<Scan>)
    requires Tokenizer.Advances(env.lex)
    ensures r == ScanTokens(env, res, st0, toks)
  {
    var st := st0;
    var prev: Option<Token> := if |st.list| >= 1 then Some(st.list[|st.list| - 1]) else None;
    var prevPrev: Option<Token> := if |st.list| >= 2 then Some(st.list[|st.list| - 2]) else None;
    assert prev == Lookback(st.list, 1) && prevPrev == Lookback(st.list, 2);
    var k := 0;
    while k < |toks|
      invariant k <= |toks|
      invariant ScanTokens(env, res, st0, toks) == ScanTokens(env, res, st, toks[k..])
      invariant prev == Lookback(st.list, 1) && prevPrev == Lookback(st.list, 2)
    {
      var next;
      next, prev, prevPrev := ScanOne(env, res, st, toks[k], prev, prevPrev);
      ScanTokensAt(env, res, st, toks, k, next);
      if next.Err? {
        return Err(next.error);
      }
      st := next.value;
      k := k + 1;
    }
    return Ok(st);
  }

  /** One pass of the page loop: the token is made mutable and appended,
      then the branch on the operator runs; `prev_token` and
      `prev_prev_token` move on. */
  method ScanOne(env: Env, res: Option<Resources>, st0: Scan, tok: Token, prev0: Option<Token>, prevPrev0: Option<Token>)
    returns (r: Result<Scan>, prev: Option<Token>, prevPrev: Option<Token>)
    requires Tokenizer.Advances(env.lex)
    requires prev0 == Lookback(st0.list, 1) && prevPrev0 == Lookback(st0.list, 2)
    ensures r == ScanToken(env, res, st0, tok)
    ensures r.Ok? ==> prev == Lookback(r.value.list, 1) && prevPrev == Lookback(r.value.list, 2)
  {
    var m := MakeMutable(env, st0, tok);
    if m.Err? {
      ScanTokenParts(env, res, st0, tok, m);
      return Err(m.error), prev0, prevPrev0;
    }
    var token, st := m.value.0, m.value.1;
    var st2 := st.(list := st.list + [token]);
    r, prev := RunOperator(env, res, st0.list, token, st2, prev0, prevPrev0);
    ScanTokenParts(env, res, st0, tok, m);
    LookbackStep(st0.list, token, r, prev);
    prevPrev := prev;
    prev := Some(token);
  }

  lemma ScanTokenParts(env: Env, res: Option<Resources>, st0: Scan, tok: Token, m: Result<(Token, Scan)>)
    requires Tokenizer.Advances(env.lex) && m == Mutable(env, st0, tok)
    ensures m.Err? ==> ScanToken(env, res, st0, tok) == Err(m.error)
    ensures m.Ok? ==> m.value.1.list == st0.list
    ensures m.Ok? ==> ScanToken(env, res, st0, tok) == Dispatch(env, res, st0.list, m.value.0, m.value.1.(list := m.value.1.list + [m.value.0]))
  {
  }

  /** After the step the old `prev_token` is the new `prev_prev_token`. */
  lemma LookbackStep(list: seq<Token>, token: Token, r: Result<Scan>, prev: Option<Token>)
    requires r.Ok? ==> |r.value.list| == |list| + 1 && r.value.list[|list|] == token && prev == Lookback(r.value.list[..|list|], 1)
    ensures r.Ok? ==> Some(token) == Lookback(r.value.list, 1) && prev == Lookback(r.value.list, 2)
  {
  }

  /** The branch on the operator just appended (`Tj`, `'`, `"`, `TJ`,
      `Tf`); it returns the new `prev_token` the `TJ` branch sets. */
  method RunOperator(env: Env, res: Option<Resources>, list: seq<Token>, token: Token, st0: Scan,
                     prev0: Option<Token>, prevPrev0: Option<Token>)
    returns (r: Result<Scan>, prev: Option<Token>)
    requires Tokenizer.Advances(env.lex) && st0.list == list + [token]
    requires prev0 == Lookback(list, 1) && prevPrev0 == Lookback(list, 2)
    ensures r == Dispatch(env, res, list, token, st0)
    ensures r.Ok? ==>
              |r.value.list| == |list| + 1 && r.value.list[|list|] == token &&
              prev == Lookback(r.value.list[..|list|], 1)
  {
    var st := st0;
    prev := prev0;
    if IsShowOperator(token) && prev.Some? && prev.value.Text? {
      st := Process(st, prev.value.id);
    } else if token == Keyword("TJ") && prev.Some? && prev.value.Arr? {
      var conv := ConvertArray(env, st, prev.value.elems);
      if conv.Err? {
        return Err(conv.error), prev;
      }
      st := conv.value.1.(list := conv.value.1.list[|st.list| - 2 := Arr(conv.value.0)]);
      prev := Some(Arr(conv.value.0));
    } else if token == Keyword("Tf") && prevPrev0.Some? && prevPrev0.value.Name? {
      var found := FindFont(res, prevPrev0.value.text);
      if found.Err? {
        return Err(found.error), prev;
      }
      st := st.(font := found.value);
    }
    r := Ok(st);
  }

  /** `build_text_layer`: the loop over the pages, sharing the text units,
      the collected units and the font cache. */
  method BuildTextLayer(env: Env, pages: seq<Page>) returns (r: Result<Layer>)
    requires Tokenizer.Advances(env.lex)
    ensures r == TextLayerOf(env, pages)
  {
    var units: seq<TextUnit> := [];
    var textTokens: seq<nat> := [];
    var cache: Cache := map[];
    var pageTokens: seq<seq<Token>> := [];
    var p := 0;
    while p < |pages|
      invariant p <= |pages|
      invariant TextLayerOf(env, pages) == ScanPages(env, Layer(units, textTokens, cache, pageTokens), pages[p..])
    {
      assert pages[p..][0] == pages[p] && pages[p..][1..] == pages[p + 1..];
      var page := pages[p];
      if page.contents.None? {
        pageTokens := pageTokens + [[]];
      } else {
        var toks := Tokenizer.Tokenize(env.lex, page.contents.value);
        if toks.Err? {
          return Err(toks.error);
        }
        var sc := ScanPageTokens(env, page.resources, Scan(units, textTokens, cache, [], None), toks.value);
        if sc.Err? {
          return Err(sc.error);
        }
        units, textTokens, cache := sc.value.units, sc.value.textTokens, sc.value.cache;
        pageTokens := pageTokens + [sc.value.list];
      }
      p := p + 1;
    }
    return Ok(Layer(units, textTokens, cache, pageTokens));
  }

  // ---------------------------------------------------------------------
  // Which units the text layer collects

  /** `process_text`'s test, on the final units. */
  predicate Kept(id: nat, units: seq<TextUnit>)
  {
    id < |units| && units[id].value != []
  }

  /** The kept text handles among `elems`, in order. */
  function Collect(elems: seq<Token>, units: seq<TextUnit>): seq<nat>
  {
    if elems == [] then []
    else (if elems[0].Text? && Kept(elems[0].id, units) then [elems[0].id] else []) + Collect(elems[1..], units)
  }

  /** What the operator at `i + 1` shows of its operand at `i`. */
  function ShownAt(list: seq<Token>, i: nat, units: seq<TextUnit>): seq<nat>
    requires i + 1 < |list|
  {
    if IsShowOperator(list[i + 1]) && list[i].Text? then Collect([list[i]], units)
    else if list[i + 1] == Keyword("TJ") && list[i].Arr? then Collect(list[i].elems, units)
    else []
  }

  /** Everything a page's final token list shows, left to right. */
  function Shown(list: seq<Token>, units: seq<TextUnit>): seq<nat>
  {
    if |list| < 2 then [] else Shown(list[..|list| - 1], units) + ShownAt(list, |list| - 2, units)
  }

  /** A token as the lexer yields it: no text handle at top level or
      directly inside an array. */
  predicate Fresh(t: Token)
  {
    !t.Text? && (t.Arr? ==> forall j :: 0 <= j < |t.elems| ==> !t.elems[j].Text?)
  }

  /** Every text handle at top level or directly inside an array names an
      existing unit. */
  predicate IdsBelow(t: Token, n: nat)
  {
    (t.Text? ==> t.id < n) && (t.Arr? ==> forall j :: 0 <= j < |t.elems| && t.elems[j].Text? ==> t.elems[j].id < n)
  }

  predicate Extends(units: seq<TextUnit>, units': seq<TextUnit>)
  {
    |units| <= |units'| && units'[..|units|] == units
  }

  lemma {:induction false} CollectExtend(elems: seq<Token>, units: seq<TextUnit>, units': seq<TextUnit>)
    requires Extends(units, units')
    requires forall j :: 0 <= j < |elems| && elems[j].Text? ==> elems[j].id < |units|
    ensures Collect(elems, units) == Collect(elems, units')
    decreases |elems|
  {
    if elems != [] {
      if elems[0].Text? {
        assert units'[elems[0].id] == units'[..|units|][elems[0].id];
      }
      CollectExtend(elems[1..], units, units');
    }
  }

  lemma {:induction false} ShownExtend(list: seq<Token>, units: seq<TextUnit>, units': seq<TextUnit>)
    requires Extends(units, units')
    requires forall i :: 0 <= i < |list| ==> IdsBelow(list[i], |units|)
    ensures Shown(list, units) == Shown(list, units')
    decreases |list|
  {
    if |list| >= 2 {
      var n := |list|;
      ShownExtend(list[..n - 1], units, units');
      var t := list[n - 2];
      if t.Text? {
        CollectExtend([t], units, units');
      } else if t.Arr? {
        CollectExtend(t.elems, units, units');
      }
    }
  }

  /** The first step of the `TJ` loop from `i`. */
  function ConvertHead(env: Env, st: Scan, elems: seq<Token>, i: nat): (r: (Token, Scan))
    requires Tokenizer.Advances(env.lex) && i < |elems| && Mutable(env, st, elems[i]).Ok?
  {
    var (e, s1) := Mutable(env, st, elems[i]).value;
    (e, if e.Text? then Process(s1, e.id) else s1)
  }

  lemma ConvertUnfold(env: Env, st: Scan, elems: seq<Token>, i: nat)
    requires Tokenizer.Advances(env.lex) && i < |elems| && ConvertElems(env, st, elems, i).Ok?
    ensures Mutable(env, st, elems[i]).Ok?
    ensures var (e, s2) := ConvertHead(env, st, elems, i);
      ConvertElems(env, st, elems, i) == ConvertElems(env, s2, elems[i := e], i + 1)
      && Extends(st.units, s2.units)
      && (elems[i].Str? ==> e.Text? && e.id == |st.units| && |s2.units| == |st.units| + 1 && s2.units[e.id].raw == elems[i].bytes)
      && (!elems[i].Str? ==> e == elems[i] && s2.units == st.units)
      && s2.textTokens == st.textTokens + (if e.Text? && Kept(e.id, s2.units) then [e.id] else [])
  {
  }

  /** The `TJ` loop from `i` turned `elems` into `elems'` and `units` into
      `units'`: the units only grow, the elements before `i` are as they
      were, each string from `i` on became a handle on a new unit holding
      its bytes, every other element from `i` on is kept, and every handle
      names an existing unit. */
  predicate ConvertedShape(elems: seq<Token>, i: nat, elems': seq<Token>, units: seq<TextUnit>, units': seq<TextUnit>)
  {
    i <= |elems| == |elems'| && Extends(units, units')
    && elems'[..i] == elems[..i]
    && (forall j :: i <= j < |elems| && elems[j].Str? ==>
          elems'[j].Text? && |units| <= elems'[j].id < |units'| && units'[elems'[j].id].raw == elems[j].bytes)
    && (forall j :: i <= j < |elems| && !elems[j].Str? ==> elems'[j] == elems[j])
    && (forall j :: 0 <= j < |elems'| && elems'[j].Text? ==> elems'[j].id < |units'|)
  }

  /** One element of the `TJ` loop in front of the rest. */
  lemma ShapeStep(elems: seq<Token>, i: nat, e: Token, next: seq<Token>, elems': seq<Token>,
                  units: seq<TextUnit>, units2: seq<TextUnit>, units': seq<TextUnit>)
    requires i < |elems| && next == elems[i := e] && Extends(units, units2)
    requires elems[i].Str? ==> e.Text? && e.id == |units| && |units2| == |units| + 1 && units2[e.id].raw == elems[i].bytes
    requires !elems[i].Str? ==> e == elems[i]
    requires ConvertedShape(next, i + 1, elems', units2, units')
    ensures ConvertedShape(elems, i, elems', units, units')
  {
    ExtendsTrans(units, units2, units');
    assert elems'[i] == elems'[..i + 1][i] == next[i] == e;
    assert elems'[..i] == elems'[..i + 1][..i];
    if elems[i].Str? {
      assert units'[e.id] == units'[..|units2|][e.id];
    }
    assert forall j :: i < j < |elems| ==> next[j] == elems[j];
  }

  /** The `TJ` loop replaces each string element in place by a new unit
      holding that string's bytes and leaves every other element alone. */
  lemma {:induction false} ConvertShape(env: Env, st: Scan, elems: seq<Token>, i: nat)
    requires Tokenizer.Advances(env.lex) && i <= |elems|
    requires forall j :: 0 <= j < |elems| && elems[j].Text? ==> elems[j].id < |st.units|
    requires ConvertElems(env, st, elems, i).Ok?
    ensures var (elems', st') := ConvertElems(env, st, elems, i).value;
      ConvertedShape(elems, i, elems', st.units, st'.units)
    decreases |elems| - i
  {
    var (elems', st') := ConvertElems(env, st, elems, i).value;
    if i < |elems| {
      ConvertUnfold(env, st, elems, i);
      var (e, s2) := ConvertHead(env, st, elems, i);
      var next := elems[i := e];
      NextIds(elems, i, e, next, |st.units|, |s2.units|);
      ConvertShape(env, s2, next, i + 1);
      ShapeStep(elems, i, e, next, elems', st.units, s2.units, st'.units);
    } else {
      assert forall j :: 0 <= j < |elems'| && elems'[j].Text? ==> elems'[j].id < |st'.units|;
    }
  }

  /** The `TJ` loop collects the kept handles of the converted elements, in
      order. */
  lemma {:induction false} ConvertCollects(env: Env, st: Scan, elems: seq<Token>, i: nat)
    requires Tokenizer.Advances(env.lex) && i <= |elems|
    requires forall j :: 0 <= j < |elems| && elems[j].Text? ==> elems[j].id < |st.units|
    requires ConvertElems(env, st, elems, i).Ok?
    ensures var (elems', st') := ConvertElems(env, st, elems, i).value;
      st'.textTokens == st.textTokens + Collect(elems'[i..], st'.units)
    decreases |elems| - i
  {
    var (elems', st') := ConvertElems(env, st, elems, i).value;
    if i == |elems| {
      assert elems'[i..] == [];
    } else {
      ConvertUnfold(env, st, elems, i);
      var (e, s2) := ConvertHead(env, st, elems, i);
      var next := elems[i := e];
      NextIds(elems, i, e, next, |st.units|, |s2.units|);
      ConvertCollects(env, s2, next, i + 1);
      ConvertShape(env, s2, next, i + 1);
      assert elems'[i] == next[..i + 1][i];
      CollectFrom(elems', i, st'.units);
      var head := if e.Text? && Kept(e.id, st'.units) then [e.id] else [];
      if e.Text? {
        KeptExtend(e.id, s2.units, st'.units);
      }
      assert s2.textTokens == st.textTokens + head;
      Assoc3(s2.textTokens, st.textTokens, head, Collect(elems'[i + 1..], st'.units));
    }
  }

  /** The handles among `elems` from `i` on: the first one, then the rest. */
  lemma CollectFrom(elems: seq<Token>, i: nat, units: seq<TextUnit>)
    requires i < |elems|
    ensures Collect(elems[i..], units)
         == (if elems[i].Text? && Kept(elems[i].id, units) then [elems[i].id] else []) + Collect(elems[i + 1..], units)
  {
    assert elems[i..][0] == elems[i] && elems[i..][1..] == elems[i + 1..];
  }

  /** Appending units changes no existing unit's `Kept`. */
  lemma KeptExtend(id: nat, units: seq<TextUnit>, units': seq<TextUnit>)
    requires Extends(units, units') && id < |units|
    ensures Kept(id, units) == Kept(id, units')
  {
    assert units'[id] == units'[..|units|][id];
  }

  /** Replacing element `i` by a handle in range keeps all handles in range. */
  lemma NextIds(elems: seq<Token>, i: nat, e: Token, next: seq<Token>, n: nat, n': nat)
    requires i < |elems| && n <= n' && (e.Text? ==> e.id < n') && next == elems[i := e]
    requires forall j :: 0 <= j < |elems| && elems[j].Text? ==> elems[j].id < n
    ensures forall j :: 0 <= j < |next| && next[j].Text? ==> next[j].id < n'
  {
  }

  lemma ShownSnoc(l: seq<Token>, x: Token, units: seq<TextUnit>)
    ensures Shown(l + [x], units) == Shown(l, units) + (if |l| >= 1 then ShownAt(l + [x], |l| - 1, units) else [])
  {
    assert (l + [x])[..|l|] == l;
  }

  /** Rewriting a trailing array operand in place changes nothing shown. */
  lemma ShownReplaceLast(l: seq<Token>, a: seq<Token>, units: seq<TextUnit>)
    requires |l| >= 1 && l[|l| - 1].Arr?
    ensures Shown(l[|l| - 1 := Arr(a)], units) == Shown(l, units)
  {
    var n := |l|;
    if n >= 2 {
      assert l[n - 1 := Arr(a)][..n - 1] == l[..n - 1];
    }
  }

  /** A page's collected units so far are `base` followed by what its token
      list shows, and every handle in the list names an existing unit. */
  predicate Tracks(st: Scan, base: seq<nat>)
  {
    (forall i :: 0 <= i < |st.list| ==> IdsBelow(st.list[i], |st.units|))
    && st.textTokens == base + Shown(st.list, st.units)
  }

  lemma MutableExtends(env: Env, st: Scan, tok: Token)
    requires Tokenizer.Advances(env.lex) && Fresh(tok) && Mutable(env, st, tok).Ok?
    ensures var (t, s1) := Mutable(env, st, tok).value;
      Extends(st.units, s1.units) && IdsBelow(t, |s1.units|) && s1.list == st.list && s1.textTokens == st.textTokens
      && (t.Text? || t.Arr? ==> tok.Str? || t == tok)
  {
  }

  /** `process_text` collects the unit exactly when it is kept. */
  lemma ProcessTokens(st: Scan, id: nat)
    ensures Process(st, id) == st.(textTokens := st.textTokens + (if Kept(id, st.units) then [id] else []))
  {
  }

  /** A handle operand shows itself when it is kept. */
  lemma ShownAtText(l: seq<Token>, i: nat, units: seq<TextUnit>)
    requires i + 1 < |l| && IsShowOperator(l[i + 1]) && l[i].Text?
    ensures ShownAt(l, i, units) == if Kept(l[i].id, units) then [l[i].id] else []
  {
    var h := if Kept(l[i].id, units) then [l[i].id] else [];
    assert [l[i]][1..] == [];
    assert Collect([l[i]], units) == h + [];
  }

  /** Appending a token keeps every handle of the list in range. */
  lemma ListGrow(list: seq<Token>, t: Token, n: nat, n': nat)
    requires forall i :: 0 <= i < |list| ==> IdsBelow(list[i], n)
    requires n <= n' && IdsBelow(t, n')
    ensures forall i :: 0 <= i < |list + [t]| ==> IdsBelow((list + [t])[i], n')
  {
  }

  /** The case of a string operand before `Tj`, `'` or `"`. */
  lemma TracksShow(st: Scan, s1: Scan, t: Token, base: seq<nat>)
    requires Tracks(st, base) && Extends(st.units, s1.units) && IdsBelow(t, |s1.units|)
    requires s1.textTokens == st.textTokens
    requires IsShowOperator(t) && |st.list| >= 1 && st.list[|st.list| - 1].Text?
    ensures Tracks(Process(s1.(list := st.list + [t]), st.list[|st.list| - 1].id), base)
  {
    var n := |st.list|;
    var l := st.list + [t];
    var id := st.list[n - 1].id;
    ListGrow(st.list, t, |st.units|, |s1.units|);
    ShownSnoc(st.list, t, s1.units);
    ShownExtend(st.list, st.units, s1.units);
    assert l[n] == t && l[n - 1] == st.list[n - 1];
    ShownAtText(l, n - 1, s1.units);
    ProcessTokens(s1.(list := l), id);
    Assoc3(st.textTokens, base, Shown(st.list, st.units), if Kept(id, s1.units) then [id] else []);
  }

  /** What the `TJ` loop over a whole array amounts to. */
  lemma ConvertSummary(env: Env, st: Scan, elems: seq<Token>)
    requires Tokenizer.Advances(env.lex)
    requires forall j :: 0 <= j < |elems| && elems[j].Text? ==> elems[j].id < |st.units|
    requires ConvertElems(env, st, elems, 0).Ok?
    ensures var (elems', st') := ConvertElems(env, st, elems, 0).value;
      Extends(st.units, st'.units) && IdsBelow(Arr(elems'), |st'.units|)
      && st'.textTokens == st.textTokens + Collect(elems', st'.units)
  {
    ConvertShape(env, st, elems, 0);
    ConvertCollects(env, st, elems, 0);
    var elems' := ConvertElems(env, st, elems, 0).value.0;
    assert elems'[0..] == elems';
  }

  /** Rewriting the trailing array operand of a tracked list. */
  lemma TracksReplace(l: seq<Token>, t: Token, a: seq<Token>, units: seq<TextUnit>, units': seq<TextUnit>)
    requires |l| >= 1 && l[|l| - 1].Arr?
    requires forall i :: 0 <= i < |l| ==> IdsBelow(l[i], |units|)
    requires Extends(units, units') && IdsBelow(Arr(a), |units'|) && t == Keyword("TJ")
    ensures var l' := (l + [t])[|l| - 1 := Arr(a)];
      (forall i :: 0 <= i < |l'| ==> IdsBelow(l'[i], |units'|))
      && Shown(l', units') == Shown(l, units) + Collect(a, units')
  {
    var n := |l|;
    var l' := (l + [t])[n - 1 := Arr(a)];
    ShownReplaceLast(l, a, units');
    assert l[n - 1 := Arr(a)] + [t] == l';
    ShownSnoc(l[n - 1 := Arr(a)], t, units');
    ShownExtend(l, units, units');
  }

  /** The case of an array operand before `TJ`, once the array is converted. */
  lemma TracksArray(st: Scan, s3: Scan, t: Token, elems': seq<Token>, base: seq<nat>)
    requires Tracks(st, base) && Extends(st.units, s3.units) && IdsBelow(Arr(elems'), |s3.units|)
    requires t == Keyword("TJ") && |st.list| >= 1 && st.list[|st.list| - 1].Arr?
    requires s3.list == st.list + [t] && s3.textTokens == st.textTokens + Collect(elems', s3.units)
    ensures Tracks(s3.(list := s3.list[|st.list| - 1 := Arr(elems')]), base)
  {
    TracksReplace(st.list, t, elems', st.units, s3.units);
    Assoc3(st.textTokens, base, Shown(st.list, st.units), Collect(elems', s3.units));
  }

  /** The cases that show nothing. */
  lemma TracksOther(st: Scan, s1: Scan, t: Token, base: seq<nat>)
    requires Tracks(st, base) && Extends(st.units, s1.units) && IdsBelow(t, |s1.units|)
    requires s1.textTokens == st.textTokens
    requires !(IsShowOperator(t) && |st.list| >= 1 && st.list[|st.list| - 1].Text?)
    requires !(t == Keyword("TJ") && |st.list| >= 1 && st.list[|st.list| - 1].Arr?)
    ensures Tracks(s1.(list := st.list + [t]), base)
  {
    ShownSnoc(st.list, t, s1.units);
    ShownExtend(st.list, st.units, s1.units);
  }

  lemma ScanTokenTracks(env: Env, res: Option<Resources>, st: Scan, tok: Token, base: seq<nat>)
    requires Tokenizer.Advances(env.lex) && Fresh(tok) && Tracks(st, base)
    requires ScanToken(env, res, st, tok).Ok?
    ensures Tracks(ScanToken(env, res, st, tok).value, base)
    ensures Extends(st.units, ScanToken(env, res, st, tok).value.units)
  {
    MutableExtends(env, st, tok);
    var (t, s1) := Mutable(env, st, tok).value;
    DispatchTracks(env, res, st, t, s1, base);
  }

  /** The operator branch keeps `Tracks` once the token is appended. */
  lemma DispatchTracks(env: Env, res: Option<Resources>, st: Scan, t: Token, s1: Scan, base: seq<nat>)
    requires Tokenizer.Advances(env.lex) && Tracks(st, base)
    requires Extends(st.units, s1.units) && IdsBelow(t, |s1.units|) && s1.list == st.list && s1.textTokens == st.textTokens
    requires Dispatch(env, res, st.list, t, s1.(list := s1.list + [t])).Ok?
    ensures Tracks(Dispatch(env, res, st.list, t, s1.(list := s1.list + [t])).value, base)
    ensures Extends(st.units, Dispatch(env, res, st.list, t, s1.(list := s1.list + [t])).value.units)
  {
    var n := |st.list|;
    if IsShowOperator(t) && n >= 1 && st.list[n - 1].Text? {
      TracksShow(st, s1, t, base);
    } else if t == Keyword("TJ") && n >= 1 && st.list[n - 1].Arr? {
      var s2 := s1.(list := st.list + [t]);
      assert IdsBelow(st.list[n - 1], |st.units|);
      ConvertSummary(env, s2, st.list[n - 1].elems);
      var (elems', s3) := ConvertElems(env, s2, st.list[n - 1].elems, 0).value;
      TracksArray(st, s3, t, elems', base);
      ExtendsTrans(st.units, s1.units, s3.units);
    } else {
      TracksOther(st, s1, t, base);
    }
  }

  lemma ExtendsTrans(a: seq<TextUnit>, b: seq<TextUnit>, c: seq<TextUnit>)
    requires Extends(a, b) && Extends(b, c)
    ensures Extends(a, c)
  {
    assert c[..|a|] == c[..|b|][..|a|];
  }

  lemma {:induction false} ScanTokensTracks(env: Env, res: Option<Resources>, st: Scan, toks: seq<Token>, base: seq<nat>)
    requires Tokenizer.Advances(env.lex) && Tracks(st, base)
    requires forall i :: 0 <= i < |toks| ==> Fresh(toks[i])
    requires ScanTokens(env, res, st, toks).Ok?
    ensures Tracks(ScanTokens(env, res, st, toks).value, base)
    ensures Extends(st.units, ScanTokens(env, res, st, toks).value.units)
    decreases |toks|
  {
    if toks != [] {
      ScanTokenTracks(env, res, st, toks[0], base);
      var st' := ScanToken(env, res, st, toks[0]).value;
      ScanTokensTracks(env, res, st', toks[1..], base);
      ExtendsTrans(st.units, st'.units, ScanTokens(env, res, st, toks).value.units);
    }
  }

  /** Text collection on one page: the units collected are exactly the
      non-empty ones the final token list shows, left to right — a handle
      just before `Tj`, `'` or `"`, or a handle inside an array just before
      `TJ` — after those collected on earlier pages. */
  lemma PageCollects(env: Env, res: Option<Resources>, units: seq<TextUnit>, collected: seq<nat>, cache: Cache, toks: seq<Token>)
    requires Tokenizer.Advances(env.lex)
    requires forall i :: 0 <= i < |toks| ==> Fresh(toks[i])
    requires ScanTokens(env, res, Scan(units, collected, cache, [], None), toks).Ok?
    ensures var sc := ScanTokens(env, res, Scan(units, collected, cache, [], None), toks).value;
      sc.textTokens == collected + Shown(sc.list, sc.units) && Extends(units, sc.units)
  {
    ScanTokensTracks(env, res, Scan(units, collected, cache, [], None), toks, collected);
  }

  /** Everything the pages' final token lists show, page by page. */
  function ShownAll(pages: seq<seq<Token>>, units: seq<TextUnit>): seq<nat>
  {
    if pages == [] then [] else ShownAll(pages[..|pages| - 1], units) + Shown(pages[|pages| - 1], units)
  }

  predicate ListBelow(list: seq<Token>, n: nat)
  {
    forall i :: 0 <= i < |list| ==> IdsBelow(list[i], n)
  }

  /** The layer's collected units are what its pages show, and every handle
      names an existing unit. */
  predicate LayerTracks(ly: Layer)
  {
    (forall p :: 0 <= p < |ly.pages| ==> ListBelow(ly.pages[p], |ly.units|))
    && ly.textTokens == ShownAll(ly.pages, ly.units)
  }

  /** The tokens of a page's content, when it tokenizes, are as the lexer
      yields them. */
  predicate PageFresh(env: Env, page: Page)
    requires Tokenizer.Advances(env.lex)
  {
    page.contents.Some? && Tokenizer.TokenizeSpec(env.lex, page.contents.value).Ok? ==>
      forall i :: 0 <= i < |Tokenizer.TokenizeSpec(env.lex, page.contents.value).value| ==>
        Fresh(Tokenizer.TokenizeSpec(env.lex, page.contents.value).value[i])
  }

  /** Since the tokenizer yields no text handle, every page's tokens are as
      the lexer yields them. */
  lemma PagesFresh(env: Env, pages: seq<Page>)
    requires Tokenizer.Advances(env.lex)
    ensures forall p :: 0 <= p < |pages| ==> PageFresh(env, pages[p])
  {
    forall p | 0 <= p < |pages| ensures PageFresh(env, pages[p]) {
      if pages[p].contents.Some? {
        Tokenizer.TokenizeNoHandles(env.lex, pages[p].contents.value);
        var r := Tokenizer.TokenizeSpec(env.lex, pages[p].contents.value);
        if r.Ok? {
          forall i | 0 <= i < |r.value| ensures Fresh(r.value[i]) {
            NoHandlesFresh(r.value[i]);
          }
        }
      }
    }
  }

  lemma NoHandlesFresh(t: Token)
    requires HandlesBelow(t, 0)
    ensures Fresh(t)
  {
    if t.Arr? {
      assert forall j :: 0 <= j < |t.elems| ==> HandlesBelow(t.elems[j], 0);
    }
  }

  lemma {:induction false} ShownAllExtend(pages: seq<seq<Token>>, units: seq<TextUnit>, units': seq<TextUnit>)
    requires Extends(units, units')
    requires forall p :: 0 <= p < |pages| ==> ListBelow(pages[p], |units|)
    ensures ShownAll(pages, units) == ShownAll(pages, units')
    decreases |pages|
  {
    if pages != [] {
      ShownAllExtend(pages[..|pages| - 1], units, units');
      ShownExtend(pages[|pages| - 1], units, units');
    }
  }

  lemma ScanPageTracks(env: Env, ly: Layer, page: Page)
    requires Tokenizer.Advances(env.lex) && LayerTracks(ly) && PageFresh(env, page)
    requires ScanPage(env, ly, page).Ok?
    ensures LayerTracks(ScanPage(env, ly, page).value) && Extends(ly.units, ScanPage(env, ly, page).value.units)
  {
    var ly' := ScanPage(env, ly, page).value;
    assert ly'.pages[..|ly.pages|] == ly.pages;
    if page.contents.Some? {
      var toks := Tokenizer.TokenizeSpec(env.lex, page.contents.value).value;
      PageCollects(env, page.resources, ly.units, ly.textTokens, ly.cache, toks);
      var sc := ScanTokens(env, page.resources, Scan(ly.units, ly.textTokens, ly.cache, [], None), toks).value;
      ScanTokensTracks(env, page.resources, Scan(ly.units, ly.textTokens, ly.cache, [], None), toks, ly.textTokens);
      ShownAllExtend(ly.pages, ly.units, sc.units);
      assert ly'.textTokens == ShownAll(ly.pages, ly'.units) + Shown(sc.list, ly'.units);
    }
  }

  lemma {:induction false} ScanPagesTracks(env: Env, ly: Layer, pages: seq<Page>)
    requires Tokenizer.Advances(env.lex) && LayerTracks(ly)
    requires forall p :: 0 <= p < |pages| ==> PageFresh(env, pages[p])
    requires ScanPages(env, ly, pages).Ok?
    ensures LayerTracks(ScanPages(env, ly, pages).value)
    ensures |ScanPages(env, ly, pages).value.pages| == |ly.pages| + |pages|
    decreases |pages|
  {
    if pages != [] {
      ScanPageTracks(env, ly, pages[0]);
      ScanPagesTracks(env, ScanPage(env, ly, pages[0]).value, pages[1..]);
    }
  }

  /** Text collection over the document: one token list per page, and the
      collected units are exactly the non-empty ones the pages show, in
      page order and, within a page, in stream order. */
  lemma TextLayerCollects(env: Env, pages: seq<Page>)
    requires Tokenizer.Advances(env.lex)
    requires TextLayerOf(env, pages).Ok?
    ensures var ly := TextLayerOf(env, pages).value;
      |ly.pages| == |pages| && ly.textTokens == ShownAll(ly.pages, ly.units)
  {
    PagesFresh(env, pages);
    ScanPagesTracks(env, Layer([], [], map[], []), pages);
  }

  // ---------------------------------------------------------------------
  // Order and shape of what is collected

  predicate Increasing(xs: seq<nat>)
  {
    forall i, j :: 0 <= i < j < |xs| ==> xs[i] < xs[j]
  }

  /** Every collected unit exists and has non-empty text; every unit still
      holds its original text. */
  predicate UnitsSound(units: seq<TextUnit>, collected: seq<nat>)
  {
    Increasing(collected)
    && (forall k :: 0 <= k < |collected| ==> collected[k] < |units| && units[collected[k]].value != [])
    && (forall u :: 0 <= u < |units| ==> units[u].value == units[u].original)
  }

  /** The builder's invariant within a page: no string is left at top
      level, and the lookback operand is newer than everything collected
      (a handle) or untouched (an array). */
  predicate Sound(st: Scan)
  {
    UnitsSound(st.units, st.textTokens)
    && (forall i :: 0 <= i < |st.list| ==> IdsBelow(st.list[i], |st.units|) && !st.list[i].Str?)
    && (|st.list| >= 1 && st.list[|st.list| - 1].Text? ==>
          forall k :: 0 <= k < |st.textTokens| ==> st.textTokens[k] < st.list[|st.list| - 1].id)
    && (|st.list| >= 1 && st.list[|st.list| - 1].Arr? ==> Fresh(st.list[|st.list| - 1]))
  }

  lemma {:induction false} ConvertSound(env: Env, st: Scan, elems: seq<Token>, i: nat)
    requires Tokenizer.Advances(env.lex) && i <= |elems|
    requires forall j :: i <= j < |elems| ==> !elems[j].Text?
    requires UnitsSound(st.units, st.textTokens)
    requires ConvertElems(env, st, elems, i).Ok?
    ensures UnitsSound(ConvertElems(env, st, elems, i).value.1.units, ConvertElems(env, st, elems, i).value.1.textTokens)
    decreases |elems| - i
  {
    if i < |elems| {
      ConvertUnfold(env, st, elems, i);
      var (e, s2) := ConvertHead(env, st, elems, i);
      if elems[i].Str? {
        var s1 := Mutable(env, st, elems[i]).value.1;
        assert s2.units == s1.units;
        SoundStep(st.units, st.textTokens, s2.units, s2.textTokens, e);
      } else {
        assert s2 == st;
      }
      ConvertSound(env, s2, elems[i := e], i + 1);
    }
  }

  /** A new unit holding its original text, collected when kept, keeps the
      units sound. */
  lemma SoundStep(units: seq<TextUnit>, tt: seq<nat>, units': seq<TextUnit>, tt': seq<nat>, e: Token)
    requires UnitsSound(units, tt) && Extends(units, units') && |units'| == |units| + 1
    requires units'[|units|].value == units'[|units|].original
    requires e.Text? && e.id == |units| && tt' == tt + (if Kept(e.id, units') then [e.id] else [])
    ensures UnitsSound(units', tt')
  {
    forall u | 0 <= u < |units|
      ensures units'[u] == units[u]
    {
      assert units'[u] == units'[..|units|][u];
    }
  }

  lemma SoundShow(st: Scan, t: Token)
    requires Sound(st) && IsShowOperator(t) && |st.list| >= 1 && st.list[|st.list| - 1].Text?
    ensures Sound(Process(st.(list := st.list + [t]), st.list[|st.list| - 1].id))
  {
  }

  lemma SoundArray(st: Scan, s3: Scan, t: Token, elems': seq<Token>)
    requires Sound(st) && Extends(st.units, s3.units) && IdsBelow(Arr(elems'), |s3.units|)
    requires t == Keyword("TJ") && |st.list| >= 1 && st.list[|st.list| - 1].Arr?
    requires s3.list == st.list + [t] && UnitsSound(s3.units, s3.textTokens)
    ensures Sound(s3.(list := s3.list[|st.list| - 1 := Arr(elems')]))
  {
  }

  lemma SoundOther(st: Scan, s1: Scan, t: Token)
    requires Sound(st) && Extends(st.units, s1.units) && IdsBelow(t, |s1.units|) && !t.Str?
    requires s1.textTokens == st.textTokens && UnitsSound(s1.units, s1.textTokens)
    requires t.Text? ==> t.id == |st.units|
    requires t.Arr? ==> Fresh(t)
    ensures Sound(s1.(list := st.list + [t]))
  {
  }

  lemma ScanTokenSound(env: Env, res: Option<Resources>, st: Scan, tok: Token)
    requires Tokenizer.Advances(env.lex) && Fresh(tok) && Sound(st)
    requires ScanToken(env, res, st, tok).Ok?
    ensures Sound(ScanToken(env, res, st, tok).value)
  {
    MutableExtends(env, st, tok);
    var (t, s1) := Mutable(env, st, tok).value;
    assert t.Text? || s1 == st;
    assert UnitsSound(s1.units, s1.textTokens);
    DispatchSound(env, res, st, t, s1);
  }

  /** The operator branch keeps `Sound` once the token is appended. */
  lemma DispatchSound(env: Env, res: Option<Resources>, st: Scan, t: Token, s1: Scan)
    requires Tokenizer.Advances(env.lex) && Sound(st)
    requires Extends(st.units, s1.units) && IdsBelow(t, |s1.units|) && s1.list == st.list && s1.textTokens == st.textTokens
    requires UnitsSound(s1.units, s1.textTokens) && !t.Str? && (t.Text? ==> t.id == |st.units|) && (t.Arr? ==> Fresh(t))
    requires t.Text? || s1 == st
    requires Dispatch(env, res, st.list, t, s1.(list := s1.list + [t])).Ok?
    ensures Sound(Dispatch(env, res, st.list, t, s1.(list := s1.list + [t])).value)
  {
    var n := |st.list|;
    if IsShowOperator(t) && n >= 1 && st.list[n - 1].Text? {
      SoundShow(st, t);
    } else if t == Keyword("TJ") && n >= 1 && st.list[n - 1].Arr? {
      var s2 := s1.(list := st.list + [t]);
      var elems := st.list[n - 1].elems;
      assert IdsBelow(st.list[n - 1], |st.units|) && Fresh(st.list[n - 1]);
      ConvertSummary(env, s2, elems);
      ConvertSound(env, s2, elems, 0);
      var (elems', s3) := ConvertElems(env, s2, elems, 0).value;
      SoundArray(st, s3, t, elems');
    } else {
      SoundOther(st, s1, t);
      if t == Keyword("Tf") && n >= 2 && st.list[n - 2].Name? {
        var f := Walk(res, st.list[n - 2].text, None).value;
        assert Sound(s1.(list := st.list + [t]).(font := f));
      }
    }
  }

  lemma {:induction false} ScanTokensSound(env: Env, res: Option<Resources>, st: Scan, toks: seq<Token>)
    requires Tokenizer.Advances(env.lex) && Sound(st)
    requires forall i :: 0 <= i < |toks| ==> Fresh(toks[i])
    requires ScanTokens(env, res, st, toks).Ok?
    ensures Sound(ScanTokens(env, res, st, toks).value)
    decreases |toks|
  {
    if toks != [] {
      ScanTokenSound(env, res, st, toks[0]);
      ScanTokensSound(env, res, ScanToken(env, res, st, toks[0]).value, toks[1..]);
    }
  }

  predicate NoStrings(list: seq<Token>)
  {
    forall i :: 0 <= i < |list| ==> !list[i].Str?
  }

  lemma {:induction false} ScanPagesSound(env: Env, ly: Layer, pages: seq<Page>)
    requires Tokenizer.Advances(env.lex) && UnitsSound(ly.units, ly.textTokens)
    requires forall p :: 0 <= p < |ly.pages| ==> NoStrings(ly.pages[p])
    requires forall p :: 0 <= p < |pages| ==> PageFresh(env, pages[p])
    requires ScanPages(env, ly, pages).Ok?
    ensures var ly' := ScanPages(env, ly, pages).value;
      UnitsSound(ly'.units, ly'.textTokens) && forall p :: 0 <= p < |ly'.pages| ==> NoStrings(ly'.pages[p])
    decreases |pages|
  {
    if pages != [] {
      var page := pages[0];
      var ly1 := ScanPage(env, ly, page).value;
      if page.contents.Some? {
        var toks := Tokenizer.TokenizeSpec(env.lex, page.contents.value).value;
        ScanTokensSound(env, page.resources, Scan(ly.units, ly.textTokens, ly.cache, [], None), toks);
      }
      assert forall p :: 0 <= p < |ly1.pages| ==> NoStrings(ly1.pages[p]) by {
        assert ly1.pages[..|ly.pages|] == ly.pages;
        forall p | 0 <= p < |ly1.pages| ensures NoStrings(ly1.pages[p]) {
          if p < |ly.pages| {
            assert ly1.pages[p] == ly.pages[p];
          }
        }
      }
      ScanPagesSound(env, ly1, pages[1..]);
    }
  }

  /** The collected units come in strictly increasing creation order (page
      order, then stream order), each exists and has non-empty text, every
      unit's text is still its original decoding, and no page's token list
      holds a string at top level. */
  lemma TextLayerSound(env: Env, pages: seq<Page>)
    requires Tokenizer.Advances(env.lex)
    requires TextLayerOf(env, pages).Ok?
    ensures var ly := TextLayerOf(env, pages).value;
      UnitsSound(ly.units, ly.textTokens) && forall p :: 0 <= p < |ly.pages| ==> NoStrings(ly.pages[p])
  {
    PagesFresh(env, pages);
    ScanPagesSound(env, Layer([], [], map[], []), pages);
  }

  // ---------------------------------------------------------------------
  // Handles in the returned pages

  /** Every handle anywhere in the list names one of the first `n` units. */
  predicate ListHandles(list: seq<Token>, n: nat)
  {
    forall i :: 0 <= i < |list| ==> HandlesBelow(list[i], n)
  }

  lemma ListHandlesMono(list: seq<Token>, m: nat, n: nat)
    requires ListHandles(list, m) && m <= n
    ensures ListHandles(list, n)
  {
    forall i | 0 <= i < |list| ensures HandlesBelow(list[i], n) {
      HandlesMono(list[i], m, n);
    }
  }

  /** After the `TJ` loop every handle anywhere in the array names an
      existing unit. */
  lemma ConvertHandles(env: Env, st: Scan, elems: seq<Token>)
    requires Tokenizer.Advances(env.lex)
    requires forall j :: 0 <= j < |elems| ==> HandlesBelow(elems[j], |st.units|)
    requires ConvertElems(env, st, elems, 0).Ok?
    ensures var (elems', st') := ConvertElems(env, st, elems, 0).value;
      Extends(st.units, st'.units) && forall j :: 0 <= j < |elems'| ==> HandlesBelow(elems'[j], |st'.units|)
  {
    var (elems', st') := ConvertElems(env, st, elems, 0).value;
    ConvertShape(env, st, elems, 0);
    forall j | 0 <= j < |elems'| ensures HandlesBelow(elems'[j], |st'.units|) {
      if !elems[j].Str? {
        HandlesMono(elems[j], |st.units|, |st'.units|);
      }
    }
  }

  /** Making a lexer token mutable appends a token whose handles are in
      range. */
  lemma MutableHandles(env: Env, st: Scan, tok: Token)
    requires Tokenizer.Advances(env.lex) && HandlesBelow(tok, 0) && ListHandles(st.list, |st.units|)
    requires Mutable(env, st, tok).Ok?
    ensures var (t, st1) := Mutable(env, st, tok).value;
      Extends(st.units, st1.units) && ListHandles(st1.list + [t], |st1.units|)
  {
    var (t, st1) := Mutable(env, st, tok).value;
    if !tok.Str? {
      HandlesMono(tok, 0, |st1.units|);
    }
    ListHandlesMono(st.list, |st.units|, |st1.units|);
  }

  /** The operator branch keeps every handle in the list in range. */
  lemma DispatchHandles(env: Env, res: Option<Resources>, list: seq<Token>, t: Token, st2: Scan)
    requires Tokenizer.Advances(env.lex) && st2.list == list + [t] && ListHandles(st2.list, |st2.units|)
    requires Dispatch(env, res, list, t, st2).Ok?
    ensures var st' := Dispatch(env, res, list, t, st2).value;
      Extends(st2.units, st'.units) && ListHandles(st'.list, |st'.units|)
  {
    var n := |list|;
    if !(IsShowOperator(t) && n >= 1 && list[n - 1].Text?) && t == Keyword("TJ") && n >= 1 && list[n - 1].Arr? {
      assert HandlesBelow(st2.list[n - 1], |st2.units|);
      ConvertHandles(env, st2, list[n - 1].elems);
      var (elems', st3) := ConvertElems(env, st2, list[n - 1].elems, 0).value;
      ListHandlesMono(st2.list, |st2.units|, |st3.units|);
      assert HandlesBelow(Arr(elems'), |st3.units|);
    }
  }

  /** One token of the page keeps every handle in the list in range. */
  lemma ScanTokenHandles(env: Env, res: Option<Resources>, st: Scan, tok: Token)
    requires Tokenizer.Advances(env.lex) && HandlesBelow(tok, 0) && ListHandles(st.list, |st.units|)
    requires ScanToken(env, res, st, tok).Ok?
    ensures var st' := ScanToken(env, res, st, tok).value;
      Extends(st.units, st'.units) && ListHandles(st'.list, |st'.units|)
  {
    MutableHandles(env, st, tok);
    var (t, st1) := Mutable(env, st, tok).value;
    var st2 := st1.(list := st1.list + [t]);
    DispatchHandles(env, res, st.list, t, st2);
    ExtendsTrans(st.units, st2.units, Dispatch(env, res, st.list, t, st2).value.units);
  }

  lemma {:induction false} ScanTokensHandles(env: Env, res: Option<Resources>, st: Scan, toks: seq<Token>)
    requires Tokenizer.Advances(env.lex) && ListHandles(st.list, |st.units|)
    requires forall i :: 0 <= i < |toks| ==> HandlesBelow(toks[i], 0)
    requires ScanTokens(env, res, st, toks).Ok?
    ensures var st' := ScanTokens(env, res, st, toks).value;
      Extends(st.units, st'.units) && ListHandles(st'.list, |st'.units|)
    decreases |toks|
  {
    if toks != [] {
      ScanTokenHandles(env, res, st, toks[0]);
      var st1 := ScanToken(env, res, st, toks[0]).value;
      ScanTokensHandles(env, res, st1, toks[1..]);
      ExtendsTrans(st.units, st1.units, ScanTokens(env, res, st1, toks[1..]).value.units);
    }
  }

  predicate PagesHandles(pages: seq<seq<Token>>, n: nat)
  {
    forall p :: 0 <= p < |pages| ==> ListHandles(pages[p], n)
  }

  lemma {:induction false} ScanPagesHandles(env: Env, ly: Layer, pages: seq<Page>)
    requires Tokenizer.Advances(env.lex) && PagesHandles(ly.pages, |ly.units|)
    requires ScanPages(env, ly, pages).Ok?
    ensures var ly' := ScanPages(env, ly, pages).value;
      |ly.units| <= |ly'.units| && PagesHandles(ly'.pages, |ly'.units|)
    decreases |pages|
  {
    if pages != [] {
      var page := pages[0];
      var ly1 := ScanPage(env, ly, page).value;
      if page.contents.Some? {
        var toks := Tokenizer.TokenizeSpec(env.lex, page.contents.value).value;
        Tokenizer.TokenizeNoHandles(env.lex, page.contents.value);
        ScanTokensHandles(env, page.resources, Scan(ly.units, ly.textTokens, ly.cache, [], None), toks);
      }
      forall p | 0 <= p < |ly1.pages| ensures ListHandles(ly1.pages[p], |ly1.units|) {
        if p < |ly.pages| {
          assert ly1.pages[p] == ly.pages[p];
          ListHandlesMono(ly.pages[p], |ly.units|, |ly1.units|);
        }
      }
      ScanPagesHandles(env, ly1, pages[1..]);
    }
  }

  /** Every handle anywhere in the pages `build_text_layer` returns names
      one of its units, so each page can be written out over those units
      (or over the same number of rewritten ones). */
  lemma TextLayerHandles(env: Env, pages: seq<Page>)
    requires Tokenizer.Advances(env.lex)
    requires TextLayerOf(env, pages).Ok?
    ensures var ly := TextLayerOf(env, pages).value;
      forall p, i :: 0 <= p < |ly.pages| && 0 <= i < |ly.pages[p]| ==> HandlesBelow(ly.pages[p][i], |ly.units|)
  {
    ScanPagesHandles(env, Layer([], [], map[], []), pages);
  }
}
