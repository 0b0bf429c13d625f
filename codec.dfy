/** Font-directed text codecs (`toUnicode` and `fromUnicode`): no font means
    Latin-1, a font with a ToUnicode CMap uses the CMap, and the WinAnsi and
    MacRoman encodings use their single-byte charmaps. */
module Codec {
  import opened Common
  import opened Tokens
  import Tokenizer
  import CMap

  /** The font dictionary parts the codecs read: its decompressed ToUnicode
      stream, its `/Encoding` entry, and how many other entries it has (a
      dictionary with no entries is false in Python). */
  datatype Font = Font(toUnicode: Option<seq<Byte>>, encoding: Option<Token>, otherKeys: nat)

  /** `not font` is false: there is a font and it is not an empty dictionary. */
  predicate Truthy(font: Option<Font>)
  {
    font.Some? && (font.value.toUnicode.Some? || font.value.encoding.Some? || font.value.otherKeys > 0)
  }

  /** A single-byte charmap codec (cp1252, mac_roman), which is not part of
      this model: its decoding table and its encoding table. */
  datatype Charmap = Charmap(dec: map<Byte, CodePoint>, enc: map<CodePoint, Byte>)

  /** The encoding table is the inverse of the decoding table, as for the
      charmap codecs built from a decoding table. */
  predicate Consistent(c: Charmap)
  {
    (forall b :: b in c.dec ==> c.dec[b] in c.enc && c.enc[c.dec[b]] == b)
    && (forall u :: u in c.enc ==> c.enc[u] in c.dec && c.dec[c.enc[u]] == u)
  }

  /** What the codecs need from outside: the lexer for CMap streams and the
      two charmaps. */
  datatype Env = Env(lex: Tokenizer.Lexer, winAnsi: Charmap, macRoman: Charmap)

  /** `fontcache`: CMaps already built, by ToUnicode stream content. */
  type Cache = map<seq<Byte>, CMap.Table>

  const Replacement: CodePoint := 0xFFFD
  const Unknown: CodePoint := 0x3F

  function Latin1Decode(s: seq<Byte>): (u: UString)
    ensures |u| == |s| && forall i :: 0 <= i < |s| ==> u[i] == s[i] as int
  {
    seq(|s|, i requires 0 <= i < |s| => s[i] as int)
  }

  /** Strict Latin-1 encoding: every character must be below 256. */
  function Latin1Encode(u: UString): (r: Result<seq<Byte>>)
    ensures r.Ok? <==> forall i :: 0 <= i < |u| ==> u[i] < 256
    ensures r.Ok? ==> |r.value| == |u| && forall i :: 0 <= i < |u| ==> r.value[i] as int == u[i]
    ensures r.Err? ==> r.error == UnicodeError
  {
    if forall i :: 0 <= i < |u| ==> u[i] < 256 then Ok(seq(|u|, i requires 0 <= i < |u| => u[i] as Byte))
    else Err(UnicodeError)
  }

  /** Decoding with `"replace"`: an undefined byte becomes U+FFFD. */
  function CharmapDecode(c: Charmap, s: seq<Byte>): (u: UString)
    ensures |u| == |s|
    ensures forall i :: 0 <= i < |s| ==> u[i] == (if s[i] in c.dec then c.dec[s[i]] else Replacement)
  {
    seq(|s|, i requires 0 <= i < |s| => if s[i] in c.dec then c.dec[s[i]] else Replacement)
  }

  /** Strict encoding: every character must have a byte. */
  function CharmapEncode(c: Charmap, u: UString): (r: Result<seq<Byte>>)
    ensures r.Ok? <==> forall i :: 0 <= i < |u| ==> u[i] in c.enc
    ensures r.Ok? ==> |r.value| == |u| && forall i :: 0 <= i < |u| ==> r.value[i] == c.enc[u[i]]
    ensures r.Err? ==> r.error == UnicodeError
  {
    if forall i :: 0 <= i < |u| ==> u[i] in c.enc then Ok(seq(|u|, i requires 0 <= i < |u| && u[i] in c.enc => c.enc[u[i]]))
    else Err(UnicodeError)
  }

  /** `CMap(font.ToUnicode)`: the stream is tokenized and replayed. */
  function LoadCMap(env: Env, stream: seq<Byte>): (r: Result<CMap.Table>)
    requires Tokenizer.Advances(env.lex)
    ensures Tokenizer.TokenizeSpec(env.lex, [stream]).Err? ==> r == Err(Tokenizer.TokenizeSpec(env.lex, [stream]).error)
    ensures r.Ok? ==> CMap.Coherent(r.value)
  {
    match Tokenizer.TokenizeSpec(env.lex, [stream])
    case Err(e) => Err(e)
    case Ok(toks) =>
      if CMap.TableOf(toks).Ok? then CMap.TableOfCoherent(toks); CMap.TableOf(toks)
      else CMap.TableOf(toks)
  }

  predicate IsEncoding(font: Font, name: string)
  {
    font.encoding == Some(Name(name))
  }

  /** `toUnicode(string, font, fontcache)`, with the cache after the call. */
  function ToUnicode(env: Env, s: seq<Byte>, font: Option<Font>, cache: Cache): (r: Result<(UString, Cache)>)
    requires Tokenizer.Advances(env.lex)
    ensures r.Ok? ==> cache.Keys <= r.value.1.Keys && forall k :: k in cache ==> r.value.1[k] == cache[k]
    ensures r.Ok? && Truthy(font) && font.value.toUnicode.Some? ==> font.value.toUnicode.value in r.value.1
    ensures r.Err? ==> Truthy(font) && font.value.toUnicode.Some? && font.value.toUnicode.value !in cache
  {
    if !Truthy(font) then Ok((Latin1Decode(s), cache))
    else
      var f := font.value;
      if f.toUnicode.Some? then
        var stream := f.toUnicode.value;
        if stream in cache then Ok((CMap.Decode(cache[stream], s), cache))
        else
          match LoadCMap(env, stream)
          case Err(e) => Err(e)
          case Ok(table) => Ok((CMap.Decode(table, s), cache[stream := table]))
      else if IsEncoding(f, "/WinAnsiEncoding") then Ok((CharmapDecode(env.winAnsi, s), cache))
      else if IsEncoding(f, "/MacRomanEncoding") then Ok((CharmapDecode(env.macRoman, s), cache))
      else Ok(([Unknown], cache))
  }

  /** `fromUnicode(string, font, fontcache)`. A CMap is used only once it is
      in the cache; an unknown encoding cannot be written. */
  function FromUnicode(env: Env, u: UString, font: Option<Font>, cache: Cache): (r: Result<seq<Byte>>)
    ensures !Truthy(font) ==> r == Latin1Encode(u)
    ensures Truthy(font) && font.value.toUnicode.Some? && font.value.toUnicode.value in cache ==>
      r == Ok(CMap.Encode(cache[font.value.toUnicode.value].toCode, u))
    ensures r.Err? ==> r.error in {UnicodeError, ValueError}
  {
    if !Truthy(font) then Latin1Encode(u)
    else
      var f := font.value;
      if f.toUnicode.Some? && f.toUnicode.value in cache then Ok(CMap.Encode(cache[f.toUnicode.value].toCode, u))
      else if IsEncoding(f, "/WinAnsiEncoding") then CharmapEncode(env.winAnsi, u)
      else if IsEncoding(f, "/MacRomanEncoding") then CharmapEncode(env.macRoman, u)
      else Err(ValueError)
  }

  /** With no font, text read from bytes writes back to the same bytes. */
  lemma Latin1RoundTrip(env: Env, s: seq<Byte>, cache: Cache, cache': Cache)
    requires Tokenizer.Advances(env.lex)
    ensures ToUnicode(env, s, None, cache).Ok?
    ensures FromUnicode(env, ToUnicode(env, s, None, cache).value.0, None, cache') == Ok(s)
  {
    var u := Latin1Decode(s);
    assert Latin1Encode(u).value == s;
  }

  /** With no font, text that Latin-1 can write reads back unchanged. */
  lemma Latin1Inverse(env: Env, u: UString, cache: Cache)
    requires Tokenizer.Advances(env.lex)
    requires FromUnicode(env, u, None, cache).Ok?
    ensures ToUnicode(env, FromUnicode(env, u, None, cache).value, None, cache) == Ok((u, cache))
  {
    var bs := Latin1Encode(u).value;
    assert Latin1Decode(bs) == u;
  }

  /** For a consistent charmap that does not map U+FFFD, decoding with
      replacement and encoding strictly gives back the bytes exactly when
      every byte is defined. */
  lemma {:induction false} CharmapRoundTrip(c: Charmap, s: seq<Byte>)
    requires Consistent(c) && Replacement !in c.enc
    ensures CharmapEncode(c, CharmapDecode(c, s)) == Ok(s) <==> forall i :: 0 <= i < |s| ==> s[i] in c.dec
  {
    var u := CharmapDecode(c, s);
    if forall i :: 0 <= i < |s| ==> s[i] in c.dec {
      assert forall i :: 0 <= i < |u| ==> u[i] in c.enc && c.enc[u[i]] == s[i];
      assert CharmapEncode(c, u).value == s;
    } else {
      var i :| 0 <= i < |s| && s[i] !in c.dec;
      assert u[i] == Replacement;
    }
  }

  /** Bytes a consistent charmap wrote read back as the same text. */
  lemma CharmapInverse(c: Charmap, u: UString)
    requires Consistent(c) && CharmapEncode(c, u).Ok?
    ensures CharmapDecode(c, CharmapEncode(c, u).value) == u
  {
    var bs := CharmapEncode(c, u).value;
    assert forall i :: 0 <= i < |u| ==> bs[i] in c.dec && c.dec[bs[i]] == u[i];
  }

  /** Once a font's CMap has been read, writing uses the same CMap's inverse
      table; together with `CMap.DecodeEncode` this gives the round trip of
      two-byte codes. */
  lemma CMapPathAgrees(env: Env, s: seq<Byte>, font: Option<Font>, cache: Cache, u: UString)
    requires Tokenizer.Advances(env.lex)
    requires Truthy(font) && font.value.toUnicode.Some?
    requires ToUnicode(env, s, font, cache).Ok?
    ensures
      var (text, cache') := ToUnicode(env, s, font, cache).value;
      var table := cache'[font.value.toUnicode.value];
      text == CMap.Decode(table, s) && FromUnicode(env, u, font, cache') == Ok(CMap.Encode(table.toCode, u))
  {
  }

  /** A font with a ToUnicode CMap decodes through the cached table for its
      stream; a stream not cached yet is read with `LoadCMap` first, and
      its table is added to the cache, or reading it fails with the error
      `LoadCMap` reports and decodes nothing. */
  lemma CMapFont(env: Env, s: seq<Byte>, font: Option<Font>, cache: Cache)
    requires Tokenizer.Advances(env.lex) && Truthy(font) && font.value.toUnicode.Some?
    ensures var st := font.value.toUnicode.value;
      st in cache ==> ToUnicode(env, s, font, cache) == Ok((CMap.Decode(cache[st], s), cache))
    ensures var st := font.value.toUnicode.value;
      st !in cache && LoadCMap(env, st).Err? ==> ToUnicode(env, s, font, cache) == Err(LoadCMap(env, st).error)
    ensures var st := font.value.toUnicode.value;
      st !in cache && LoadCMap(env, st).Ok? ==>
        ToUnicode(env, s, font, cache) == Ok((CMap.Decode(LoadCMap(env, st).value, s), cache[st := LoadCMap(env, st).value]))
  {
  }

  /** A font with neither a ToUnicode CMap nor a known encoding reads as one
      question mark and cannot be written. */
  lemma UnknownFont(env: Env, s: seq<Byte>, font: Option<Font>, cache: Cache, u: UString)
    requires Tokenizer.Advances(env.lex)
    requires Truthy(font) && font.value.toUnicode.None?
    requires !IsEncoding(font.value, "/WinAnsiEncoding") && !IsEncoding(font.value, "/MacRomanEncoding")
    ensures ToUnicode(env, s, font, cache) == Ok(([Unknown], cache))
    ensures FromUnicode(env, u, font, cache) == Err(ValueError)
  {
  }

  /** A font with no ToUnicode CMap and the WinAnsi or MacRoman encoding
      reads through that charmap, replacing undefined bytes, and leaves the
      cache alone; it writes through the same charmap whenever its CMap is
      absent or not yet cached. For a consistent charmap that does not map
      U+FFFD, the bytes read write back unchanged exactly when each of them
      is defined. */
  lemma CharmapFont(env: Env, s: seq<Byte>, font: Option<Font>, cache: Cache, cache': Cache, u: UString,
                    name: string, c: Charmap)
    requires Tokenizer.Advances(env.lex) && Truthy(font) && IsEncoding(font.value, name)
    requires (name == "/WinAnsiEncoding" && c == env.winAnsi) || (name == "/MacRomanEncoding" && c == env.macRoman)
    ensures font.value.toUnicode.None? ==> ToUnicode(env, s, font, cache) == Ok((CharmapDecode(c, s), cache))
    ensures font.value.toUnicode.None? || font.value.toUnicode.value !in cache' ==>
      FromUnicode(env, u, font, cache') == CharmapEncode(c, u)
    ensures font.value.toUnicode.None? && Consistent(c) && Replacement !in c.enc ==>
      (FromUnicode(env, ToUnicode(env, s, font, cache).value.0, font, cache') == Ok(s)
       <==> forall i :: 0 <= i < |s| ==> s[i] in c.dec)
  {
    assert name == "/WinAnsiEncoding" || !IsEncoding(font.value, "/WinAnsiEncoding");
    if font.value.toUnicode.None? && Consistent(c) && Replacement !in c.enc {
      CharmapRoundTrip(c, s);
    }
  }
}
