/** The serializer: `TextToken.__str__` and `tok_str`, which turn a page's
    (possibly rewritten) tokens back into content-stream text. */
module Serialize {
  import opened Common
  import opened Tokens
  import opened Codec
  import Tokenizer
  import TextLayer

  /** `PdfString.from_bytes`: the string literal pdfrw writes for some
      bytes. Its choice of spelling is not part of this model. */
  type Spell = seq<Byte> -> string

  /** Bytes as the characters pdfrw holds them in (one per byte). */
  function Chars(data: seq<Byte>): (r: string)
    ensures |r| == |data| && forall i :: 0 <= i < |data| ==> r[i] as int == data[i]
  {
    seq(|data|, i requires 0 <= i < |data| => data[i] as char)
  }

  /** `sep.join(parts)`. */
  function Join(sep: string, parts: seq<string>): string
  {
    if parts == [] then [] else if |parts| == 1 then parts[0] else parts[0] + sep + Join(sep, parts[1..])
  }

  /** `TextToken.__str__`: an unchanged unit is written from its raw bytes,
      a changed one is encoded for the font it was shown in. */
  function UnitStr(env: Env, spell: Spell, unit: TextLayer.TextUnit, cache: Cache): (r: Result<string>)
    ensures unit.value == unit.original ==> r == Ok(spell(unit.raw))
    ensures unit.value != unit.original ==>
      (r.Ok? <==> FromUnicode(env, unit.value, unit.font, cache).Ok?)
      && (r.Ok? ==> r == Ok(spell(FromUnicode(env, unit.value, unit.font, cache).value)))
  {
    if unit.value == unit.original then Ok(spell(unit.raw))
    else
      match FromUnicode(env, unit.value, unit.font, cache)
      case Err(e) => Err(e)
      case Ok(bytes) => Ok(spell(bytes))
  }

  /** The first failure among the parts, or all their values. */
  function Gather(parts: seq<Result<string>>): (r: Result<seq<string>>)
    ensures r.Ok? <==> forall i :: 0 <= i < |parts| ==> parts[i].Ok?
    ensures r.Ok? ==> |r.value| == |parts| && forall i :: 0 <= i < |parts| ==> r.value[i] == parts[i].value
    ensures r.Err? ==> exists i :: 0 <= i < |parts| && parts[i] == Err(r.error)
    decreases |parts|
  {
    if parts == [] then Ok([])
    else
      match parts[0]
      case Err(e) => Err(e)
      case Ok(s) =>
        match Gather(parts[1..])
        case Err(e) => assert parts[1..][0] == parts[1]; Err(e)
        case Ok(rest) => Ok([s] + rest)
  }

  /** `tok_str`: arrays, inline images and dictionaries are written out
      element by element (an inline image is tested before a dictionary,
      and its payload goes out as it was read); any other token is written
      as itself. */
  function TokStr(env: Env, spell: Spell, units: seq<TextLayer.TextUnit>, cache: Cache, t: Token): (r: Result<string>)
    requires HandlesBelow(t, |units|)
    ensures (t.Keyword? || t.Name?) ==> r == Ok(t.text)
    ensures t.Str? ==> r == Ok(t.lexeme)
    ensures t.Arr? && r.Ok? ==> |r.value| >= 4 && r.value[..2] == "[ " && r.value[|r.value| - 2..] == "] "
    ensures t.Dict? && r.Ok? ==> |r.value| >= 6 && r.value[..3] == "<< " && r.value[|r.value| - 3..] == ">> "
    decreases t, 1
  {
    match t
    case Keyword(text) => Ok(text)
    case Name(text) => Ok(text)
    case Str(lexeme, _) => Ok(lexeme)
    case Text(id) => UnitStr(env, spell, units[id], cache)
    case Arr(elems) =>
      var parts := Gather(seq(|elems|, i requires 0 <= i < |elems| => TokStr(env, spell, units, cache, elems[i])));
      if parts.Err? then Err(parts.error) else Ok("[ " + Join(" ", parts.value) + "] ")
    case Image(entries, data) =>
      var parts := Gather(EntryStrs(env, spell, units, cache, t, entries));
      if parts.Err? then Err(parts.error) else Ok("BI " + Join(" ", parts.value) + " ID " + Chars(data) + " EI ")
    case Dict(entries) =>
      var parts := Gather(EntryStrs(env, spell, units, cache, t, entries));
      if parts.Err? then Err(parts.error) else Ok("<< " + Join(" ", parts.value) + ">> ")
  }

  /** `tok_str(x) + " " + tok_str(y)` for each entry of a dictionary or an
      inline image `t`. */
  function EntryStrs(env: Env, spell: Spell, units: seq<TextLayer.TextUnit>, cache: Cache, t: Token, entries: seq<(Token, Token)>): (r: seq<Result<string>>)
    requires (t.Dict? || t.Image?) && entries == t.entries && HandlesBelow(t, |units|)
    ensures |r| == |entries|
    decreases t, 0
  {
    seq(|entries|, i requires 0 <= i < |entries| =>
      Pair(TokStr(env, spell, units, cache, entries[i].0), TokStr(env, spell, units, cache, entries[i].1)))
  }

  /** `tok_str(x) + " " + tok_str(y)`, failing with the key's error first. */
  function Pair(k: Result<string>, v: Result<string>): (r: Result<string>)
    ensures r.Ok? <==> k.Ok? && v.Ok?
    ensures r.Err? ==> r == (if k.Err? then k else v)
  {
    if k.Err? then k else if v.Err? then v else Ok(k.value + " " + v.value)
  }

  /** The content stream a page's tokens are written to: one token per
      line. */
  function PageStream(env: Env, spell: Spell, units: seq<TextLayer.TextUnit>, cache: Cache, tokens: seq<Token>): (r: Result<string>)
    requires forall i :: 0 <= i < |tokens| ==> HandlesBelow(tokens[i], |units|)
    ensures r.Ok? <==> forall i :: 0 <= i < |tokens| ==> Writable(env, units, cache, tokens[i])
    ensures r.Err? ==> r.error == UnicodeError || r.error == ValueError
  {
    PageOk(env, spell, units, cache, tokens);
    PageErrors(env, spell, units, cache, tokens);
    var strs := seq(|tokens|, i requires 0 <= i < |tokens| => TokStr(env, spell, units, cache, tokens[i]));
    assert forall i :: 0 <= i < |tokens| ==> strs[i] == TokStr(env, spell, units, cache, tokens[i]);
    var parts := Gather(strs);
    if parts.Err? then Err(parts.error) else Ok(Join("\n", parts.value))
  }

  // ---------------------------------------------------------------------
  // Properties

  /** Every text handle in the token names a unit whose text was never
      changed. */
  predicate Unedited(t: Token, units: seq<TextLayer.TextUnit>)
  {
    match t
    case Text(id) => id < |units| && units[id].value == units[id].original
    case Arr(elems) => forall i :: 0 <= i < |elems| ==> Unedited(elems[i], units)
    case Dict(entries) => forall i :: 0 <= i < |entries| ==> Unedited(entries[i].0, units) && Unedited(entries[i].1, units)
    case Image(entries, _) => forall i :: 0 <= i < |entries| ==> Unedited(entries[i].0, units) && Unedited(entries[i].1, units)
    case _ => true
  }

  lemma {:induction false} UneditedBelow(t: Token, units: seq<TextLayer.TextUnit>)
    requires Unedited(t, units)
    ensures HandlesBelow(t, |units|)
    decreases t
  {
    match t
    case Arr(elems) =>
      forall i | 0 <= i < |elems| ensures HandlesBelow(elems[i], |units|) { UneditedBelow(elems[i], units); }
    case Dict(entries) =>
      forall i | 0 <= i < |entries| ensures HandlesBelow(entries[i].0, |units|) && HandlesBelow(entries[i].1, |units|) {
        UneditedBelow(entries[i].0, units);
        UneditedBelow(entries[i].1, units);
      }
    case Image(entries, _) =>
      forall i | 0 <= i < |entries| ensures HandlesBelow(entries[i].0, |units|) && HandlesBelow(entries[i].1, |units|) {
        UneditedBelow(entries[i].0, units);
        UneditedBelow(entries[i].1, units);
      }
    case _ =>
  }

  /** Unedited text is written from its raw bytes whatever the codec tables
      and the font cache hold, so a token holding only unedited text is
      written the same way under any of them. */
  lemma {:induction false} UneditedIndependent(env: Env, env': Env, spell: Spell, units: seq<TextLayer.TextUnit>, cache: Cache, cache': Cache, t: Token)
    requires Unedited(t, units)
    ensures HandlesBelow(t, |units|)
    ensures TokStr(env, spell, units, cache, t) == TokStr(env', spell, units, cache', t)
    decreases t
  {
    UneditedBelow(t, units);
    match t
    case Arr(elems) =>
      forall i | 0 <= i < |elems|
        ensures TokStr(env, spell, units, cache, elems[i]) == TokStr(env', spell, units, cache', elems[i])
      {
        UneditedIndependent(env, env', spell, units, cache, cache', elems[i]);
      }
      assert seq(|elems|, i requires 0 <= i < |elems| => TokStr(env, spell, units, cache, elems[i]))
          == seq(|elems|, i requires 0 <= i < |elems| => TokStr(env', spell, units, cache', elems[i]));
    case Dict(entries) =>
      EntriesIndependent(env, env', spell, units, cache, cache', t);
    case Image(entries, _) =>
      EntriesIndependent(env, env', spell, units, cache, cache', t);
    case _ =>
  }

  lemma {:induction false} EntriesIndependent(env: Env, env': Env, spell: Spell, units: seq<TextLayer.TextUnit>, cache: Cache, cache': Cache, t: Token)
    requires (t.Dict? || t.Image?) && Unedited(t, units) && HandlesBelow(t, |units|)
    ensures EntryStrs(env, spell, units, cache, t, t.entries) == EntryStrs(env', spell, units, cache', t, t.entries)
    decreases t, 0
  {
    var entries := t.entries;
    forall i | 0 <= i < |entries|
      ensures TokStr(env, spell, units, cache, entries[i].0) == TokStr(env', spell, units, cache', entries[i].0)
      ensures TokStr(env, spell, units, cache, entries[i].1) == TokStr(env', spell, units, cache', entries[i].1)
    {
      UneditedIndependent(env, env', spell, units, cache, cache', entries[i].0);
      UneditedIndependent(env, env', spell, units, cache, cache', entries[i].1);
    }
  }

  /** Every text handle in the token names a unit that can be written:
      unedited, or encodable for its font. */
  predicate Writable(env: Env, units: seq<TextLayer.TextUnit>, cache: Cache, t: Token)
  {
    match t
    case Text(id) => id < |units| && (units[id].value == units[id].original || FromUnicode(env, units[id].value, units[id].font, cache).Ok?)
    case Arr(elems) => forall i :: 0 <= i < |elems| ==> Writable(env, units, cache, elems[i])
    case Dict(entries) => forall i :: 0 <= i < |entries| ==> EntryWritable(env, units, cache, entries[i])
    case Image(entries, _) => forall i :: 0 <= i < |entries| ==> EntryWritable(env, units, cache, entries[i])
    case _ => true
  }

  predicate EntryWritable(env: Env, units: seq<TextLayer.TextUnit>, cache: Cache, e: (Token, Token))
  {
    Writable(env, units, cache, e.0) && Writable(env, units, cache, e.1)
  }

  /** A token is written out exactly when every text in it can be: one
      text that its font cannot encode makes the whole token fail. */
  lemma {:induction false} TokStrOk(env: Env, spell: Spell, units: seq<TextLayer.TextUnit>, cache: Cache, t: Token)
    requires HandlesBelow(t, |units|)
    ensures TokStr(env, spell, units, cache, t).Ok? <==> Writable(env, units, cache, t)
    decreases t
  {
    match t
    case Arr(elems) =>
      forall i | 0 <= i < |elems|
        ensures TokStr(env, spell, units, cache, elems[i]).Ok? <==> Writable(env, units, cache, elems[i])
      {
        TokStrOk(env, spell, units, cache, elems[i]);
      }
      var parts := seq(|elems|, i requires 0 <= i < |elems| => TokStr(env, spell, units, cache, elems[i]));
      assert forall i :: 0 <= i < |elems| ==> parts[i] == TokStr(env, spell, units, cache, elems[i]);
      assert TokStr(env, spell, units, cache, t).Ok? <==> Gather(parts).Ok?;
    case Dict(entries) =>
      EntriesOk(env, spell, units, cache, t);
      assert Gather(EntryStrs(env, spell, units, cache, t, entries)).Ok? <==> Writable(env, units, cache, t);
    case Image(entries, _) =>
      EntriesOk(env, spell, units, cache, t);
      assert Gather(EntryStrs(env, spell, units, cache, t, entries)).Ok? <==> Writable(env, units, cache, t);
    case _ =>
  }

  lemma {:induction false} EntriesOk(env: Env, spell: Spell, units: seq<TextLayer.TextUnit>, cache: Cache, t: Token)
    requires (t.Dict? || t.Image?) && HandlesBelow(t, |units|)
    ensures forall i :: 0 <= i < |t.entries| ==>
      (EntryStrs(env, spell, units, cache, t, t.entries)[i].Ok? <==> EntryWritable(env, units, cache, t.entries[i]))
    decreases t, 0
  {
    var entries := t.entries;
    var parts := EntryStrs(env, spell, units, cache, t, entries);
    forall i | 0 <= i < |entries|
      ensures parts[i].Ok? <==> EntryWritable(env, units, cache, entries[i])
    {
      TokStrOk(env, spell, units, cache, entries[i].0);
      TokStrOk(env, spell, units, cache, entries[i].1);
    }
  }

  /** The payload of an inline image is written verbatim between ` ID `
      and ` EI `, after the image's entries. */
  lemma ImagePayload(env: Env, spell: Spell, units: seq<TextLayer.TextUnit>, cache: Cache, entries: seq<(Token, Token)>, data: seq<Byte>)
    requires HandlesBelow(Image(entries, data), |units|)
    requires TokStr(env, spell, units, cache, Image(entries, data)).Ok?
    ensures var w := TokStr(env, spell, units, cache, Image(entries, data)).value;
      |w| >= |data| + 7 && w[..3] == "BI " && w[|w| - |data| - 8..] == " ID " + Chars(data) + " EI "
  {
    var w := TokStr(env, spell, units, cache, Image(entries, data)).value;
    var body := Join(" ", Gather(EntryStrs(env, spell, units, cache, Image(entries, data), entries)).value);
    assert w == "BI " + body + (" ID " + Chars(data) + " EI ");
  }

  lemma PageErrors(env: Env, spell: Spell, units: seq<TextLayer.TextUnit>, cache: Cache, tokens: seq<Token>)
    requires forall i :: 0 <= i < |tokens| ==> HandlesBelow(tokens[i], |units|)
    ensures forall i :: 0 <= i < |tokens| && TokStr(env, spell, units, cache, tokens[i]).Err? ==>
      TokStr(env, spell, units, cache, tokens[i]).error in {UnicodeError, ValueError}
  {
    forall i | 0 <= i < |tokens| && TokStr(env, spell, units, cache, tokens[i]).Err?
      ensures TokStr(env, spell, units, cache, tokens[i]).error in {UnicodeError, ValueError}
    {
      TokStrErrors(env, spell, units, cache, tokens[i]);
    }
  }

  /** Each token of a page is written out exactly when its texts can be. */
  lemma PageOk(env: Env, spell: Spell, units: seq<TextLayer.TextUnit>, cache: Cache, tokens: seq<Token>)
    requires forall i :: 0 <= i < |tokens| ==> HandlesBelow(tokens[i], |units|)
    ensures forall i :: 0 <= i < |tokens| ==>
      (TokStr(env, spell, units, cache, tokens[i]).Ok? <==> Writable(env, units, cache, tokens[i]))
  {
    forall i | 0 <= i < |tokens|
      ensures TokStr(env, spell, units, cache, tokens[i]).Ok? <==> Writable(env, units, cache, tokens[i])
    {
      TokStrOk(env, spell, units, cache, tokens[i]);
    }
  }

  /** Writing fails only because a font cannot encode the text given to it:
      the unknown-encoding `ValueError` or a charmap's `UnicodeError`. */
  lemma {:induction false} TokStrErrors(env: Env, spell: Spell, units: seq<TextLayer.TextUnit>, cache: Cache, t: Token)
    requires HandlesBelow(t, |units|)
    ensures TokStr(env, spell, units, cache, t).Err? ==>
      TokStr(env, spell, units, cache, t).error in {UnicodeError, ValueError}
    decreases t
  {
    match t
    case Arr(elems) =>
      var parts := seq(|elems|, i requires 0 <= i < |elems| => TokStr(env, spell, units, cache, elems[i]));
      forall i | 0 <= i < |elems| ensures parts[i].Err? ==> parts[i].error in {UnicodeError, ValueError} {
        TokStrErrors(env, spell, units, cache, elems[i]);
      }
      GatherErrors(parts);
    case Dict(entries) =>
      EntriesErrors(env, spell, units, cache, t);
    case Image(entries, _) =>
      EntriesErrors(env, spell, units, cache, t);
    case _ =>
  }

  lemma GatherErrors(parts: seq<Result<string>>)
    requires forall i :: 0 <= i < |parts| && parts[i].Err? ==> parts[i].error in {UnicodeError, ValueError}
    ensures Gather(parts).Err? ==> Gather(parts).error in {UnicodeError, ValueError}
  {
  }

  lemma {:induction false} EntriesErrors(env: Env, spell: Spell, units: seq<TextLayer.TextUnit>, cache: Cache, t: Token)
    requires (t.Dict? || t.Image?) && HandlesBelow(t, |units|)
    ensures Gather(EntryStrs(env, spell, units, cache, t, t.entries)).Err? ==>
      Gather(EntryStrs(env, spell, units, cache, t, t.entries)).error in {UnicodeError, ValueError}
    decreases t, 0
  {
    var entries := t.entries;
    var parts := EntryStrs(env, spell, units, cache, t, entries);
    forall i | 0 <= i < |entries| ensures parts[i].Err? ==> parts[i].error in {UnicodeError, ValueError} {
      TokStrErrors(env, spell, units, cache, entries[i].0);
      TokStrErrors(env, spell, units, cache, entries[i].1);
    }
    GatherErrors(parts);
  }

  /** A page `build_text_layer` returned, written over its units or over
      as many rewritten ones: every handle in it is in range, so it is
      written exactly when each of its tokens is. */
  lemma BuiltPageStream(env: Env, spell: Spell, pages: seq<TextLayer.Page>, units: seq<TextLayer.TextUnit>, cache: Cache, p: nat)
    requires Tokenizer.Advances(env.lex) && TextLayer.TextLayerOf(env, pages).Ok?
    requires p < |TextLayer.TextLayerOf(env, pages).value.pages|
    requires |units| == |TextLayer.TextLayerOf(env, pages).value.units|
    ensures var page := TextLayer.TextLayerOf(env, pages).value.pages[p];
      forall i :: 0 <= i < |page| ==> HandlesBelow(page[i], |units|)
    ensures var page := TextLayer.TextLayerOf(env, pages).value.pages[p];
      PageStream(env, spell, units, cache, page).Ok? <==> forall i :: 0 <= i < |page| ==> Writable(env, units, cache, page[i])
  {
    TextLayer.TextLayerHandles(env, pages);
  }
}
