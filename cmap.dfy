/** The ToUnicode CMap reader (class `CMap` of the source): replays the
    `codespacerange`, `bfrange`/`cidrange` and `bfchar`/`cidchar` blocks of a
    tokenized CMap stream into a forward and an inverse table (Adobe
    Technical Note #5411; ISO 32000-1, section 9.10.3), then decodes and
    encodes strings with them. */
module CMap {
  import opened Common
  import opened Tokens

  /** `bytes_to_unicode`, `unicode_to_bytes` and `defns`. A code maps to text:
      a hex-string target is read as two-byte code points, and any other
      operand (a CID number, a name) is a Python string already and stands
      for its own spelling. The tables never change after construction. */
  datatype Table = Table(toText: map<seq<Byte>, UString>, toCode: map<UString, seq<Byte>>, defns: map<Token, Token>)

  const Empty := Table(map[], map[], map[])

  /** What every table the reader builds satisfies: codes are one or two
      bytes, every stored target has an inverse entry and every inverse
      entry names a stored code. (A later mapping can overwrite either side,
      so the two maps need not be inverse to each other.) */
  predicate Coherent(t: Table)
  {
    (forall k :: k in t.toText ==> |k| == 1 || |k| == 2)
    && t.toText.Values <= t.toCode.Keys && t.toCode.Values <= t.toText.Keys
  }

  /** The question mark that stands for an unmapped byte. */
  const Placeholder: CodePoint := 0x3F

  /** The big-endian value of a byte string (the `reduce` of `code_to_int`). */
  function BigEndian(bs: seq<Byte>): nat
    decreases |bs|
  {
    if bs == [] then 0 else BigEndian(bs[..|bs| - 1]) * 256 + bs[|bs| - 1]
  }

  /** `code_to_int`; `reduce` without an initial value fails on no bytes. */
  function CodeToInt(bs: seq<Byte>): (r: Result<nat>)
    ensures r.Ok? <==> bs != []
  {
    if bs == [] then Err(TypeError) else Ok(BigEndian(bs))
  }

  /** The key `add_mapping` stores for `code` under a codespace of `width`
      bytes: one byte, or high byte then low byte. */
  function CodeBytes(width: nat, code: nat): (r: Result<seq<Byte>>)
    ensures r.Ok? ==> |r.value| == width && (width == 1 || width == 2)
    ensures r.Ok? ==> BigEndian(r.value) == code
    ensures width != 1 && width != 2 ==> r == Err(ValueError)
    ensures width == 1 ==> (r.Ok? <==> code < 256)
    ensures width == 2 ==> (r.Ok? <==> code < 0x1_0000)
  {
    if width == 1 then
      if code < 256 then
        var key: seq<Byte> := [code];
        assert key[..0] == [];
        Ok(key)
      else Err(ValueError)
    else if width == 2 then
      if code / 256 < 256 then
        var key: seq<Byte> := [code / 256, code % 256];
        assert key[..1] == [code / 256] && key[..1][..0] == [];
        assert BigEndian(key[..1]) == code / 256;
        assert BigEndian(key) == (code / 256) * 256 + code % 256;
        Ok(key)
      else Err(ValueError)
    else Err(ValueError)
  }

  /** One- and two-byte codes survive `code_to_int` followed by the key
      computation of `add_mapping`. */
  lemma CodeRoundTrip(bs: seq<Byte>)
    requires |bs| == 1 || |bs| == 2
    ensures CodeToInt(bs).Ok? && CodeBytes(|bs|, CodeToInt(bs).value) == Ok(bs)
  {
    if |bs| == 2 {
      assert bs[..1][..0] == [];
      assert BigEndian(bs[..1]) == bs[0];
      var v: int := (bs[0] as int) * 256 + bs[1] as int;
      assert BigEndian(bs) == v;
      assert v / 256 == bs[0] && v % 256 == bs[1];
      assert [bs[0], bs[1]] == bs;
    } else {
      assert bs[..0] == [];
      assert BigEndian(bs) == bs[0];
      assert [bs[0]] == bs;
    }
  }

  /** Two-byte code points from a hex string; an odd trailing byte is dropped. */
  function Units(bs: seq<Byte>): (u: UString)
    ensures |u| == |bs| / 2
    decreases |bs|
  {
    if |bs| < 2 then [] else
      var unit: int := (bs[0] as int) * 256 + bs[1] as int;
      [unit] + Units(bs[2..])
  }

  /** A string target at offset `offset` into a range: its last code point
      is raised by the offset; there must be one, and the result must still
      be a code point (`chr` refuses anything larger). */
  function RaiseLast(u: UString, offset: nat): (r: Result<UString>)
    ensures offset == 0 ==> r == Ok(u)
    ensures r.Ok? ==> |r.value| == |u|
    ensures offset > 0 && u == [] ==> r == Err(IndexError)
    ensures offset > 0 && u != [] && u[|u| - 1] + offset >= 0x11_0000 ==> r == Err(ValueError)
    ensures offset > 0 && u != [] && u[|u| - 1] + offset < 0x11_0000 ==>
      r.Ok? && r.value[..|u| - 1] == u[..|u| - 1] && r.value[|u| - 1] == u[|u| - 1] + offset
  {
    if offset == 0 then Ok(u)
    else if u == [] then Err(IndexError)
    else if u[|u| - 1] + offset >= 0x11_0000 then Err(ValueError)
    else Ok(u[..|u| - 1] + [u[|u| - 1] + offset])
  }

  /** The target `add_mapping` stores for offset `offset` into a range: an
      array target contributes its element at that offset; a string has the
      offset added to its last code point (also for an array element); any
      other operand is allowed only at offset 0 and must be hashable. */
  function MakeTarget(target: Token, offset: nat): (r: Result<UString>)
    ensures target.Str? ==> r == RaiseLast(Units(target.bytes), offset)
    ensures target.Arr? && offset >= |target.elems| ==> r == Err(IndexError)
    ensures target.Arr? && offset < |target.elems| && target.elems[offset].Str? ==>
      r == RaiseLast(Units(target.elems[offset].bytes), offset)
    ensures target.Arr? && offset < |target.elems| && !target.elems[offset].Str? && offset != 0 ==> r == Err(AssertionError)
    ensures !target.Str? && !target.Arr? && offset != 0 ==> r == Err(AssertionError)
    ensures (target.Keyword? || target.Name?) && offset == 0 ==> r == Ok(CodePoints(target.text))
    ensures (target.Dict? || target.Image?) ==> r.Err?
    ensures target.Str? && r.Ok? ==> |r.value| == |target.bytes| / 2
    ensures r.Ok? && offset > 0 ==> |r.value| >= 1
  {
    var picked: Result<Token> :=
      if target.Arr? then (if offset < |target.elems| then Ok(target.elems[offset]) else Err(IndexError))
      else Ok(target);
    match picked
    case Err(e) => Err(e)
    case Ok(ch) =>
      if ch.Str? then RaiseLast(Units(ch.bytes), offset)
      else if offset != 0 then Err(AssertionError)
      else if ch.Keyword? || ch.Name? then Ok(CodePoints(ch.text))
      else Err(TypeError)
  }

  /** The byte width the codespace declares; both bounds must be strings of
      the same length. */
  function Width(cs: seq<Token>): Result<nat>
  {
    if |cs| == 0 then Err(IndexError)
    else if !cs[0].Str? then Err(AttributeError)
    else if |cs| < 2 then Err(IndexError)
    else if !cs[1].Str? then Err(AttributeError)
    else if |cs[1].bytes| != |cs[0].bytes| then Err(AssertionError)
    else Ok(|cs[0].bytes|)
  }

  /** `add_mapping(code, char, offset)`: both tables take the new entry, so a
      later definition overwrites an earlier one in each. */
  function AddMapping(t: Table, cs: seq<Token>, code: nat, target: Token, offset: nat): (r: Result<Table>)
    ensures r.Ok? ==> Width(cs).Ok? && CodeBytes(Width(cs).value, code).Ok? && MakeTarget(target, offset).Ok?
    ensures r.Ok? ==>
      var key := CodeBytes(Width(cs).value, code).value;
      var tg := MakeTarget(target, offset).value;
      r.value == t.(toText := t.toText[key := tg], toCode := t.toCode[tg := key])
    ensures r.Ok? && Coherent(t) ==> Coherent(r.value)
  {
    match Width(cs)
    case Err(e) => Err(e)
    case Ok(width) =>
      match CodeBytes(width, code)
      case Err(e) => Err(e)
      case Ok(key) =>
        match MakeTarget(target, offset)
        case Err(e) => Err(e)
        case Ok(tg) => Ok(t.(toText := t.toText[key := tg], toCode := t.toCode[tg := key]))
  }

  /** The codes `code .. v2` of a range that starts at `v1`. */
  function FillRange(t: Table, cs: seq<Token>, v1: nat, code: nat, v2: nat, target: Token): (r: Result<Table>)
    requires v1 <= code
    decreases v2 + 1 - code
  {
    if code > v2 then Ok(t)
    else
      match AddMapping(t, cs, code, target, code - v1)
      case Err(e) => Err(e)
      case Ok(t') => FillRange(t', cs, v1, code + 1, v2, target)
  }

  /** The triples of an `endbfrange`/`endcidrange` block; a triple whose
      bounds are not both strings adds nothing, and `v1 > v2` adds nothing. */
  function Ranges(t: Table, cs: seq<Token>, triples: seq<(Token, Token, Token)>): (r: Result<Table>)
    decreases |triples|
  {
    if triples == [] then Ok(t)
    else
      var (c1, c2, target) := triples[0];
      if !c1.Str? || !c2.Str? then Ranges(t, cs, triples[1..])
      else
        match CodeToInt(c1.bytes)
        case Err(e) => Err(e)
        case Ok(v1) =>
          match CodeToInt(c2.bytes)
          case Err(e) => Err(e)
          case Ok(v2) =>
            match FillRange(t, cs, v1, v1, v2, target)
            case Err(e) => Err(e)
            case Ok(t') => Ranges(t', cs, triples[1..])
  }

  /** A triple whose bounds are not both strings, or whose first code is
      past its last, leaves the table as it is. */
  lemma RangesSkip(t: Table, cs: seq<Token>, tr: (Token, Token, Token), rest: seq<(Token, Token, Token)>)
    requires !tr.0.Str? || !tr.1.Str? || (tr.0.bytes != [] && tr.1.bytes != [] && BigEndian(tr.0.bytes) > BigEndian(tr.1.bytes))
    ensures Ranges(t, cs, [tr] + rest) == Ranges(t, cs, rest)
  {
    assert ([tr] + rest)[0] == tr && ([tr] + rest)[1..] == rest;
  }

  /** The pairs of an `endbfchar`/`endcidchar` block; a pair whose code is
      not a string adds nothing. */
  function Chars(t: Table, cs: seq<Token>, pairs: seq<(Token, Token)>): (r: Result<Table>)
    decreases |pairs|
  {
    if pairs == [] then Ok(t)
    else
      var (code, target) := pairs[0];
      if !code.Str? then Chars(t, cs, pairs[1..])
      else
        match CodeToInt(code.bytes)
        case Err(e) => Err(e)
        case Ok(v) =>
          match AddMapping(t, cs, v, target, 0)
          case Err(e) => Err(e)
          case Ok(t') => Chars(t', cs, pairs[1..])
  }

  /** The reader's state besides the tables: inside `begincmap`, the operand
      stack, and the last codespace bounds. */
  datatype Reader = Reader(inCmap: bool, operands: seq<Token>, codespace: seq<Token>, table: Table)

  const Start := Reader(false, [], [], Empty)

  /** The CMap operators the reader acts on; everything else is an operand. */
  datatype Operator = BeginCmap | EndCmap | Def | UseCmap | BeginSpace | EndSpace
                    | BeginRange | EndRange | BeginChar | EndChar | NotDef | Operand

  function OperatorOf(tok: Token): Operator
  {
    if !tok.Keyword? then Operand
    else
      var w := tok.text;
      if w == "begincmap" then BeginCmap
      else if w == "endcmap" then EndCmap
      else if w == "def" then Def
      else if w == "usecmap" then UseCmap
      else if w == "begincodespacerange" then BeginSpace
      else if w == "endcodespacerange" then EndSpace
      else if w == "begincidrange" || w == "beginbfrange" then BeginRange
      else if w == "endcidrange" || w == "endbfrange" then EndRange
      else if w == "begincidchar" || w == "beginbfchar" then BeginChar
      else if w == "endcidchar" || w == "endbfchar" then EndChar
      else if w == "beginnotdefrange" || w == "endnotdefrange" then NotDef
      else Operand
  }

  /** One token of the CMap stream. Tokens outside `begincmap`/`endcmap` are
      ignored; `usecmap` fails in the source (it calls a missing method). */
  function Step(rd: Reader, tok: Token): (r: Result<Reader>)
    ensures r.Ok? && !rd.inCmap && OperatorOf(tok) != BeginCmap ==> r.value.table == rd.table
  {
    var ops := rd.operands;
    var op := OperatorOf(tok);
    if op == BeginCmap then Ok(rd.(inCmap := true, operands := []))
    else if op == EndCmap then Ok(rd.(inCmap := false))
    else if !rd.inCmap then Ok(rd)
    else
      match op
      case Def =>
        if |ops| < 2 then Err(IndexError)
        else if !Hashable(ops[0]) then Err(TypeError)
        else Ok(rd.(operands := ops[2..], table := rd.table.(defns := rd.table.defns[ops[0] := ops[1]])))
      case UseCmap => Err(AttributeError)
      case EndSpace =>
        if |ops| < 2 then Err(IndexError)
        else Ok(rd.(codespace := [ops[0], ops[1]], operands := ops[2..]))
      case EndRange =>
        (match Ranges(rd.table, rd.codespace, Triples(ops))
         case Err(e) => Err(e)
         case Ok(t) => Ok(rd.(table := t, operands := [])))
      case EndChar =>
        (match Chars(rd.table, rd.codespace, Pairs(ops))
         case Err(e) => Err(e)
         case Ok(t) => Ok(rd.(table := t, operands := [])))
      case Operand => Ok(rd.(operands := ops + [tok]))
      case _ => Ok(rd.(operands := []))
  }

  function Replay(rd: Reader, toks: seq<Token>): (r: Result<Reader>)
    decreases |toks|
  {
    if toks == [] then Ok(rd)
    else
      match Step(rd, toks[0])
      case Err(e) => Err(e)
      case Ok(rd') => Replay(rd', toks[1..])
  }

  /** The tables `CMap.__init__` builds from the tokens of a CMap stream. */
  function TableOf(toks: seq<Token>): Result<Table>
  {
    match Replay(Start, toks)
    case Err(e) => Err(e)
    case Ok(rd) => Ok(rd.table)
  }

  lemma {:induction false} FillRangeCoherent(t: Table, cs: seq<Token>, v1: nat, code: nat, v2: nat, target: Token)
    requires v1 <= code
    requires Coherent(t) && FillRange(t, cs, v1, code, v2, target).Ok?
    ensures Coherent(FillRange(t, cs, v1, code, v2, target).value)
    decreases v2 + 1 - code
  {
    if code <= v2 {
      FillRangeCoherent(AddMapping(t, cs, code, target, code - v1).value, cs, v1, code + 1, v2, target);
    }
  }

  lemma {:induction false} RangesCoherent(t: Table, cs: seq<Token>, triples: seq<(Token, Token, Token)>)
    requires Coherent(t) && Ranges(t, cs, triples).Ok?
    ensures Coherent(Ranges(t, cs, triples).value)
    decreases |triples|
  {
    if triples != [] {
      var (c1, c2, target) := triples[0];
      if !c1.Str? || !c2.Str? {
        RangesCoherent(t, cs, triples[1..]);
      } else {
        var v1, v2 := BigEndian(c1.bytes), BigEndian(c2.bytes);
        FillRangeCoherent(t, cs, v1, v1, v2, target);
        RangesCoherent(FillRange(t, cs, v1, v1, v2, target).value, cs, triples[1..]);
      }
    }
  }

  lemma {:induction false} CharsCoherent(t: Table, cs: seq<Token>, pairs: seq<(Token, Token)>)
    requires Coherent(t) && Chars(t, cs, pairs).Ok?
    ensures Coherent(Chars(t, cs, pairs).value)
    decreases |pairs|
  {
    if pairs != [] {
      var (code, target) := pairs[0];
      if !code.Str? {
        CharsCoherent(t, cs, pairs[1..]);
      } else {
        CharsCoherent(AddMapping(t, cs, BigEndian(code.bytes), target, 0).value, cs, pairs[1..]);
      }
    }
  }

  lemma StepCoherent(rd: Reader, tok: Token)
    requires Coherent(rd.table) && Step(rd, tok).Ok?
    ensures Coherent(Step(rd, tok).value.table)
  {
    var op := OperatorOf(tok);
    if rd.inCmap && op == EndRange {
      assert Step(rd, tok).value.table == Ranges(rd.table, rd.codespace, Triples(rd.operands)).value;
      RangesCoherent(rd.table, rd.codespace, Triples(rd.operands));
    } else if rd.inCmap && op == EndChar {
      assert Step(rd, tok).value.table == Chars(rd.table, rd.codespace, Pairs(rd.operands)).value;
      CharsCoherent(rd.table, rd.codespace, Pairs(rd.operands));
    }
  }

  lemma {:induction false} ReplayCoherent(rd: Reader, toks: seq<Token>)
    requires Coherent(rd.table) && Replay(rd, toks).Ok?
    ensures Coherent(Replay(rd, toks).value.table)
    decreases |toks|
  {
    if toks != [] {
      StepCoherent(rd, toks[0]);
      ReplayCoherent(Step(rd, toks[0]).value, toks[1..]);
    }
  }

  /** Every table the reader builds is coherent. */
  lemma TableOfCoherent(toks: seq<Token>)
    requires TableOf(toks).Ok?
    ensures Coherent(TableOf(toks).value)
  {
    ReplayCoherent(Start, toks);
  }

  /** The inner loops of an `endbfrange`/`endcidrange` block. */
  method AddRanges(t: Table, cs: seq<Token>, triples: seq<(Token, Token, Token)>) returns (r: Result<Table>)
    ensures r == Ranges(t, cs, triples)
  {
    var table := t;
    var k := 0;
    while k < |triples|
      invariant 0 <= k <= |triples|
      invariant Ranges(t, cs, triples) == Ranges(table, cs, triples[k..])
    {
      assert triples[k..][0] == triples[k] && triples[k..][1..] == triples[k + 1..];
      var (c1, c2, target) := triples[k];
      if c1.Str? && c2.Str? {
        var v1 := CodeToInt(c1.bytes);
        if v1.Err? {
          return Err(v1.error);
        }
        var v2 := CodeToInt(c2.bytes);
        if v2.Err? {
          return Err(v2.error);
        }
        var filled := FillCodes(table, cs, v1.value, v2.value, target);
        if filled.Err? {
          return Err(filled.error);
        }
        table := filled.value;
      }
      k := k + 1;
    }
    return Ok(table);
  }

  /** The inner loop of one range: every code from `v1` to `v2` gets its
      mapping, the target's last code unit advanced by the offset. */
  method FillCodes(t: Table, cs: seq<Token>, v1: nat, v2: nat, target: Token) returns (r: Result<Table>)
    ensures r == FillRange(t, cs, v1, v1, v2, target)
  {
    var table := t;
    var code := v1;
    while code <= v2
      invariant v1 <= code
      invariant FillRange(t, cs, v1, v1, v2, target) == FillRange(table, cs, v1, code, v2, target)
      decreases v2 + 1 - code
    {
      var added := AddMapping(table, cs, code, target, code - v1);
      if added.Err? {
        return Err(added.error);
      }
      table := added.value;
      code := code + 1;
    }
    return Ok(table);
  }

  /** The loop of an `endbfchar`/`endcidchar` block. */
  method AddChars(t: Table, cs: seq<Token>, pairs: seq<(Token, Token)>) returns (r: Result<Table>)
    ensures r == Chars(t, cs, pairs)
  {
    var table := t;
    var k := 0;
    while k < |pairs|
      invariant 0 <= k <= |pairs|
      invariant Chars(t, cs, pairs) == Chars(table, cs, pairs[k..])
    {
      assert pairs[k..][0] == pairs[k] && pairs[k..][1..] == pairs[k + 1..];
      var (code, target) := pairs[k];
      if code.Str? {
        var v := CodeToInt(code.bytes);
        if v.Err? {
          return Err(v.error);
        }
        var added := AddMapping(table, cs, v.value, target, 0);
        if added.Err? {
          return Err(added.error);
        }
        table := added.value;
      }
      k := k + 1;
    }
    return Ok(table);
  }

  /** `CMap.__init__` over the tokens of the decompressed CMap stream. */
  method BuildTable(toks: seq<Token>) returns (r: Result<Table>)
    ensures r == TableOf(toks)
  {
    var inCmap := false;
    var operands: seq<Token> := [];
    var codespace: seq<Token> := [];
    var table := Empty;
    var i := 0;
    while i < |toks|
      invariant 0 <= i <= |toks|
      invariant Replay(Start, toks) == Replay(Reader(inCmap, operands, codespace, table), toks[i..])
    {
      var next := StepOnce(inCmap, operands, codespace, table, toks[i]);
      ReplayAt(Reader(inCmap, operands, codespace, table), toks, i, next);
      if next.Err? {
        return Err(next.error);
      }
      inCmap, operands, codespace, table := next.value.inCmap, next.value.operands, next.value.codespace, next.value.table;
      i := i + 1;
    }
    return Ok(table);
  }

  /** One pass of the `__init__` loop over the stream's tokens. */
  method StepOnce(inCmap0: bool, operands0: seq<Token>, codespace0: seq<Token>, table0: Table, tok: Token)
    returns (r: Result<Reader>)
    ensures r == Step(Reader(inCmap0, operands0, codespace0, table0), tok)
  {
    var inCmap, operands, codespace, table := inCmap0, operands0, codespace0, table0;
    var op := OperatorOf(tok);
    if op == BeginCmap {
      inCmap := true;
      operands := [];
    } else if op == EndCmap {
      inCmap := false;
    } else if !inCmap {
    } else if op == Def {
      if |operands| < 2 {
        return Err(IndexError);
      }
      if !Hashable(operands[0]) {
        return Err(TypeError);
      }
      table := table.(defns := table.defns[operands[0] := operands[1]]);
      operands := operands[2..];
    } else if op == UseCmap {
      return Err(AttributeError);
    } else if op == EndSpace {
      if |operands| < 2 {
        return Err(IndexError);
      }
      codespace := [operands[0], operands[1]];
      operands := operands[2..];
    } else if op == EndRange {
      var triples, _ := ChunkTriples(operands);
      var filled := AddRanges(table, codespace, triples);
      if filled.Err? {
        return Err(filled.error);
      }
      table := filled.value;
      operands := [];
    } else if op == EndChar {
      var pairs, _ := ChunkPairs(operands);
      var filled := AddChars(table, codespace, pairs);
      if filled.Err? {
        return Err(filled.error);
      }
      table := filled.value;
      operands := [];
    } else if op == Operand {
      operands := operands + [tok];
    } else {
      // the begin markers of the blocks and both notdefrange markers
      operands := [];
    }
    return Ok(Reader(inCmap, operands, codespace, table));
  }

  lemma ReplayAt(rd: Reader, toks: seq<Token>, k: nat, r: Result<Reader>)
    requires k < |toks| && r == Step(rd, toks[k])
    ensures r.Err? ==> Replay(rd, toks[k..]) == Err(r.error)
    ensures r.Ok? ==> Replay(rd, toks[k..]) == Replay(r.value, toks[k + 1..])
  {
    assert toks[k..][0] == toks[k] && toks[k..][1..] == toks[k + 1..];
  }

  /** Filling codes `code .. v2` leaves alone every entry whose key is not
      one of those codes at the codespace width. */
  lemma {:induction false} FillRangeFrame(t: Table, cs: seq<Token>, v1: nat, code: nat, v2: nat, target: Token, k: seq<Byte>)
    requires v1 <= code
    requires FillRange(t, cs, v1, code, v2, target).Ok?
    requires k in t.toText
    requires BigEndian(k) < code || BigEndian(k) > v2 || Width(cs) != Ok(|k|)
    ensures k in FillRange(t, cs, v1, code, v2, target).value.toText
    ensures FillRange(t, cs, v1, code, v2, target).value.toText[k] == t.toText[k]
    decreases v2 + 1 - code
  {
    if code <= v2 {
      var t' := AddMapping(t, cs, code, target, code - v1).value;
      FillRangeFrame(t', cs, v1, code + 1, v2, target, k);
    }
  }

  /** After a range `v1 .. v2` is filled, code `c` of the range maps to the
      target for offset `c - v1`: a range is never clobbered by itself. */
  lemma {:induction false} FillRangeContents(t: Table, cs: seq<Token>, v1: nat, code: nat, v2: nat, target: Token, c: nat)
    requires v1 <= code <= c <= v2
    requires FillRange(t, cs, v1, code, v2, target).Ok?
    ensures Width(cs).Ok? && CodeBytes(Width(cs).value, c).Ok? && MakeTarget(target, c - v1).Ok?
    ensures CodeBytes(Width(cs).value, c).value in FillRange(t, cs, v1, code, v2, target).value.toText
    ensures FillRange(t, cs, v1, code, v2, target).value.toText[CodeBytes(Width(cs).value, c).value]
         == MakeTarget(target, c - v1).value
    decreases v2 + 1 - code
  {
    var t' := AddMapping(t, cs, code, target, code - v1).value;
    assert FillRange(t, cs, v1, code, v2, target) == FillRange(t', cs, v1, code + 1, v2, target);
    if c == code {
      FillRangeAt(t, cs, v1, code, v2, target, t');
    } else {
      FillRangeContents(t', cs, v1, code + 1, v2, target, c);
    }
  }

  /** The mapping added for `code` survives the rest of the range. */
  lemma FillRangeAt(t: Table, cs: seq<Token>, v1: nat, code: nat, v2: nat, target: Token, t': Table)
    requires v1 <= code <= v2 && AddMapping(t, cs, code, target, code - v1) == Ok(t')
    requires FillRange(t', cs, v1, code + 1, v2, target).Ok?
    ensures Width(cs).Ok? && CodeBytes(Width(cs).value, code).Ok? && MakeTarget(target, code - v1).Ok?
    ensures CodeBytes(Width(cs).value, code).value in FillRange(t', cs, v1, code + 1, v2, target).value.toText
    ensures FillRange(t', cs, v1, code + 1, v2, target).value.toText[CodeBytes(Width(cs).value, code).value]
         == MakeTarget(target, code - v1).value
  {
    var key := CodeBytes(Width(cs).value, code).value;
    assert t'.toText[key] == MakeTarget(target, code - v1).value;
    if code < v2 {
      FillRangeFrame(t', cs, v1, code + 1, v2, target, key);
    } else {
      assert FillRange(t', cs, v1, code + 1, v2, target) == Ok(t');
    }
  }

  /** The pieces `decode` collects: a one-byte entry wins over a two-byte
      one, and a byte that starts no entry becomes a question mark. */
  function Pieces(m: map<seq<Byte>, UString>, s: seq<Byte>): (r: seq<UString>)
    ensures |r| <= |s|
    ensures forall i :: 0 <= i < |r| ==> r[i] == [Placeholder] || r[i] in m.Values
    decreases |s|
  {
    if s == [] then []
    else if s[..1] in m then [m[s[..1]]] + Pieces(m, s[1..])
    else if |s| >= 2 && s[..2] in m then [m[s[..2]]] + Pieces(m, s[2..])
    else [[Placeholder]] + Pieces(m, s[1..])
  }

  /** `CMap.decode`, the pieces joined. */
  function Decode(t: Table, s: seq<Byte>): UString
  {
    Concat(Pieces(t.toText, s))
  }

  /** The first piece of the bytes from `i` on, and how many bytes it takes. */
  lemma PiecesFront(m: map<seq<Byte>, UString>, s: seq<Byte>, i: nat, piece: UString, n: nat)
    requires i < |s|
    requires var rest := s[i..];
      if rest[..1] in m then piece == m[rest[..1]] && n == 1
      else if |rest| >= 2 && rest[..2] in m then piece == m[rest[..2]] && n == 2
      else piece == [Placeholder] && n == 1
    ensures i + n <= |s| && Pieces(m, s[i..]) == [piece] + Pieces(m, s[i + n..])
  {
    assert s[i..][n..] == s[i + n..];
  }

  /** One pass of the decoding loop: a one-byte code, else a two-byte code,
      else the placeholder for one byte. */
  method NextPiece(m: map<seq<Byte>, UString>, s: seq<Byte>, i: nat) returns (piece: UString, n: nat)
    requires i < |s|
    ensures 1 <= n && i + n <= |s| && Pieces(m, s[i..]) == [piece] + Pieces(m, s[i + n..])
  {
    var rest := s[i..];
    if rest[..1] in m {
      piece, n := m[rest[..1]], 1;
    } else if |rest| >= 2 && rest[..2] in m {
      piece, n := m[rest[..2]], 2;
    } else {
      piece, n := [Placeholder], 1;
    }
    PiecesFront(m, s, i, piece, n);
  }

  method DecodeBytes(t: Table, s: seq<Byte>) returns (r: UString)
    ensures r == Decode(t, s)
  {
    var m := t.toText;
    var ret: seq<UString> := [];
    var i := 0;
    while i < |s|
      invariant 0 <= i <= |s|
      invariant Pieces(m, s) == ret + Pieces(m, s[i..])
    {
      var piece, n := NextPiece(m, s, i);
      Assoc3(ret + [piece], ret, [piece], Pieces(m, s[i + n..]));
      ret := ret + [piece];
      i := i + n;
    }
    assert Pieces(m, s[i..]) == [];
    assert Pieces(m, s) == ret + [] == ret;
    return Concat(ret);
  }

  /** With no entries at all every byte decodes to a question mark. */
  lemma {:induction false} DecodeUnmapped(t: Table, s: seq<Byte>)
    requires t.toText == map[]
    ensures Decode(t, s) == seq(|s|, i => Placeholder)
    decreases |s|
  {
    if s != [] {
      DecodeUnmapped(t, s[1..]);
      assert Pieces(t.toText, s) == [[Placeholder]] + Pieces(t.toText, s[1..]);
      ConcatCons([Placeholder], Pieces(t.toText, s[1..]));
      assert seq(|s|, i => Placeholder) == [Placeholder] + seq(|s| - 1, i => Placeholder);
    } else {
      assert seq(|s|, i => Placeholder) == [];
    }
  }

  /** `CMap.encode`: each character's inverse entry, or nothing. */
  function Encode(m: map<UString, seq<Byte>>, u: UString): seq<Byte>
    decreases |u|
  {
    if u == [] then [] else (if [u[0]] in m then m[[u[0]]] else []) + Encode(m, u[1..])
  }

  method EncodeText(t: Table, u: UString) returns (r: seq<Byte>)
    ensures r == Encode(t.toCode, u)
  {
    r := [];
    var i := 0;
    while i < |u|
      invariant 0 <= i <= |u|
      invariant Encode(t.toCode, u) == r + Encode(t.toCode, u[i..])
    {
      assert u[i..][1..] == u[i + 1..];
      var piece := if [u[i]] in t.toCode then t.toCode[[u[i]]] else [];
      r := r + piece;
      i := i + 1;
    }
    assert u[i..] == [];
  }

  /** Encoding distributes over concatenation. */
  lemma {:induction false} EncodeAppend(m: map<UString, seq<Byte>>, a: UString, b: UString)
    ensures Encode(m, a + b) == Encode(m, a) + Encode(m, b)
    decreases |a|
  {
    if a != [] {
      assert (a + b)[0] == a[0] && (a + b)[1..] == a[1..] + b;
      EncodeAppend(m, a[1..], b);
      var piece := if [a[0]] in m then m[[a[0]]] else [];
      assert Encode(m, a + b) == piece + Encode(m, a[1..] + b);
      assert Encode(m, a) == piece + Encode(m, a[1..]);
    } else {
      assert a + b == b;
    }
  }

  /** A two-byte code that round-trips through the table: its first byte is
      no one-byte entry, it maps to one character, and that character maps
      back to it. */
  predicate RoundTrips(t: Table, c: seq<Byte>)
  {
    |c| == 2 && c[..1] !in t.toText && c in t.toText
    && |t.toText[c]| == 1
    && t.toText[c] in t.toCode && t.toCode[t.toText[c]] == c
  }

  /** A string made of round-tripping two-byte codes decodes to text that
      encodes back to the same bytes. */
  lemma {:induction false} DecodeEncode(t: Table, codes: seq<seq<Byte>>)
    requires forall i :: 0 <= i < |codes| ==> RoundTrips(t, codes[i])
    ensures |Decode(t, Concat(codes))| == |codes|
    ensures Encode(t.toCode, Decode(t, Concat(codes))) == Concat(codes)
    decreases |codes|
  {
    if codes != [] {
      var c := codes[0];
      var s := Concat(codes);
      ConcatSplit(codes, 1);
      assert codes[..1] == [c];
      ConcatOne(c);
      assert s == c + Concat(codes[1..]);
      assert s[..1] == c[..1] && s[..2] == c && s[2..] == Concat(codes[1..]);
      DecodeEncode(t, codes[1..]);
      var u := Decode(t, Concat(codes[1..]));
      var x := t.toText[c][0];
      assert t.toText[c] == [x];
      assert Pieces(t.toText, s) == [[x]] + Pieces(t.toText, Concat(codes[1..]));
      ConcatCons([x], Pieces(t.toText, Concat(codes[1..])));
      assert Decode(t, s) == [x] + u;
      assert ([x] + u)[1..] == u;
    } else {
      assert Concat(codes) == [];
    }
  }

  /** Replaying a concatenation replays the parts in turn. */
  lemma {:induction false} ReplayAppend(rd: Reader, a: seq<Token>, b: seq<Token>)
    ensures Replay(rd, a).Err? ==> Replay(rd, a + b) == Err(Replay(rd, a).error)
    ensures Replay(rd, a).Ok? ==> Replay(rd, a + b) == Replay(Replay(rd, a).value, b)
    decreases |a|
  {
    if a == [] {
      assert a + b == b;
    } else {
      assert (a + b)[0] == a[0] && (a + b)[1..] == a[1..] + b;
      match Step(rd, a[0])
      case Err(e) =>
      case Ok(rd') => ReplayAppend(rd', a[1..], b);
    }
  }

  /** Outside `begincmap` .. `endcmap` nothing changes. */
  lemma {:induction false} IgnoredOutside(rd: Reader, toks: seq<Token>)
    requires !rd.inCmap && forall i :: 0 <= i < |toks| ==> OperatorOf(toks[i]) != BeginCmap
    ensures Replay(rd, toks) == Ok(rd)
    decreases |toks|
  {
    if toks != [] {
      assert Step(rd, toks[0]) == Ok(rd);
      assert forall i :: 0 <= i < |toks| - 1 ==> toks[1..][i] == toks[i + 1];
      IgnoredOutside(rd, toks[1..]);
    }
  }

  /** Operands inside `begincmap` pile up on the stack in order. */
  lemma {:induction false} PushOperands(rd: Reader, ops: seq<Token>, rest: seq<Token>)
    requires rd.inCmap && forall i :: 0 <= i < |ops| ==> OperatorOf(ops[i]) == Operand
    ensures Replay(rd, ops + rest) == Replay(rd.(operands := rd.operands + ops), rest)
    decreases |ops|
  {
    if ops == [] {
      assert ops + rest == rest && rd.operands + ops == rd.operands;
    } else {
      assert (ops + rest)[0] == ops[0] && (ops + rest)[1..] == ops[1..] + rest;
      var rd' := rd.(operands := rd.operands + [ops[0]]);
      assert Step(rd, ops[0]) == Ok(rd');
      PushOperands(rd', ops[1..], rest);
      assert rd'.operands + ops[1..] == rd.operands + ops;
    }
  }

  /** A block of operands between a begin marker and its end operator: the
      marker clears the stack, and the end operator sees exactly the block's
      operands. */
  lemma Block(rd: Reader, begin: Token, ops: seq<Token>, end: Token)
    requires rd.inCmap && OperatorOf(begin) in {BeginSpace, BeginRange, BeginChar}
    requires forall i :: 0 <= i < |ops| ==> OperatorOf(ops[i]) == Operand
    ensures Replay(rd, [begin] + ops + [end]) == Step(rd.(operands := ops), end)
  {
    var toks := [begin] + ops + [end];
    var r0 := rd.(operands := []);
    assert Step(rd, begin) == Ok(r0);
    assert toks[0] == begin && toks[1..] == ops + [end];
    PushOperands(r0, ops, [end]);
    assert r0.operands + ops == ops;
    var r1 := rd.(operands := ops);
    assert [end][0] == end && [end][1..] == [];
    match Step(r1, end)
    case Err(e) =>
    case Ok(r2) => assert Replay(r1, [end]) == Replay(r2, []);
  }

  /** A sample: `<0000> <FFFF>` as codespace and `<0041> <0043> <0041>` as a
      bfrange. */
  const SampleSpace := [Str("<0000>", [0, 0]), Str("<FFFF>", [0xFF, 0xFF])]
  const SampleLow := Str("<0041>", [0, 0x41])
  const SampleRange := [SampleLow, Str("<0043>", [0, 0x43]), SampleLow]
  const SampleTable := Table(map[[0, 0x41] := [0x41], [0, 0x42] := [0x42], [0, 0x43] := [0x43]],
                             map[[0x41] := [0, 0x41], [0x42] := [0, 0x42], [0x43] := [0, 0x43]],
                             map[])

  lemma SampleRangeFills()
    ensures Ranges(Empty, SampleSpace, Triples(SampleRange)) == Ok(SampleTable)
  {
    var cs, lo := SampleSpace, SampleLow;
    assert Width(cs) == Ok(2);
    assert Units([0, 0x41]) == [0x41];
    assert MakeTarget(lo, 0) == Ok([0x41]);
    var u: UString := [0x41];
    assert u[..0] + [0x41 + 1] == [0x42] && u[..0] + [0x41 + 2] == [0x43];
    assert MakeTarget(lo, 1) == Ok([0x42]);
    assert MakeTarget(lo, 2) == Ok([0x43]);
    assert CodeBytes(2, 0x41) == Ok([0, 0x41]);
    assert CodeBytes(2, 0x42) == Ok([0, 0x42]);
    assert CodeBytes(2, 0x43) == Ok([0, 0x43]);
    var t1 := Table(map[[0, 0x41] := [0x41]], map[[0x41] := [0, 0x41]], map[]);
    var t2 := Table(t1.toText[[0, 0x42] := [0x42]], t1.toCode[[0x42] := [0, 0x42]], map[]);
    var t3 := Table(t2.toText[[0, 0x43] := [0x43]], t2.toCode[[0x43] := [0, 0x43]], map[]);
    assert AddMapping(Empty, cs, 0x41, lo, 0) == Ok(t1);
    assert AddMapping(t1, cs, 0x42, lo, 1) == Ok(t2);
    assert AddMapping(t2, cs, 0x43, lo, 2) == Ok(t3);
  }

  const SampleSpaceBlock := [Keyword("begincodespacerange")] + SampleSpace + [Keyword("endcodespacerange")]
  const SampleRangeBlock := [Keyword("beginbfrange")] + SampleRange + [Keyword("endbfrange")]

  lemma SampleSpaceSets(rd: Reader)
    requires rd == Reader(true, [], [], Empty)
    ensures Replay(rd, SampleSpaceBlock) == Ok(Reader(true, [], SampleSpace, Empty))
  {
    var end := Keyword("endcodespacerange");
    Block(rd, Keyword("begincodespacerange"), SampleSpace, end);
    EndSpaceKeyword();
    EndSpaceStep(rd.(operands := SampleSpace), end);
    assert SampleSpace[2..] == [] && [SampleSpace[0], SampleSpace[1]] == SampleSpace;
  }

  lemma EndSpaceKeyword()
    ensures OperatorOf(Keyword("endcodespacerange")) == EndSpace
  {
    assert |"endcodespacerange"| == 17;
    assert |"begincmap"| == 9 && |"endcmap"| == 7 && |"def"| == 3 && |"usecmap"| == 7;
    assert |"begincodespacerange"| == 19;
  }

  /** `endcodespacerange` inside `begincmap` takes the first two operands
      as the code space. */
  lemma EndSpaceStep(rd: Reader, tok: Token)
    requires rd.inCmap && OperatorOf(tok) == EndSpace && |rd.operands| >= 2
    ensures Step(rd, tok) == Ok(rd.(codespace := [rd.operands[0], rd.operands[1]], operands := rd.operands[2..]))
  {
  }

  lemma SampleRangeSets(rd: Reader)
    requires rd == Reader(true, [], SampleSpace, Empty)
    ensures Replay(rd, SampleRangeBlock) == Ok(Reader(true, [], SampleSpace, SampleTable))
  {
    Block(rd, Keyword("beginbfrange"), SampleRange, Keyword("endbfrange"));
    SampleRangeFills();
    EndRangeKeyword();
    EndRangeStep(rd.(operands := SampleRange), Keyword("endbfrange"), SampleTable);
  }

  /** `endbfrange` is read as the end of a range block: no keyword tested
      before it has its length. */
  lemma EndRangeKeyword()
    ensures OperatorOf(Keyword("endbfrange")) == EndRange
  {
    var w := "endbfrange";
    assert |w| == 10;
    assert |"begincmap"| == 9 && |"endcmap"| == 7 && |"def"| == 3 && |"usecmap"| == 7;
    assert |"begincodespacerange"| == 19 && |"endcodespacerange"| == 17;
    assert |"begincidrange"| == 13 && |"beginbfrange"| == 12 && |"endcidrange"| == 11;
  }

  /** `endbfrange` inside `begincmap` stores the ranges its operands give. */
  lemma EndRangeStep(rd: Reader, tok: Token, t: Table)
    requires rd.inCmap && OperatorOf(tok) == EndRange && Ranges(rd.table, rd.codespace, Triples(rd.operands)) == Ok(t)
    ensures Step(rd, tok) == Ok(rd.(table := t, operands := []))
  {
  }

  /** The sample's two blocks, replayed inside `begincmap`, build the sample
      table. */
  lemma SampleReplay(rd: Reader)
    requires rd == Reader(true, [], [], Empty)
    ensures Replay(rd, SampleSpaceBlock + SampleRangeBlock) == Ok(Reader(true, [], SampleSpace, SampleTable))
  {
    ReplayAppend(rd, SampleSpaceBlock, SampleRangeBlock);
    SampleSpaceSets(rd);
    SampleRangeSets(Reader(true, [], SampleSpace, Empty));
  }

  /** The sample table cuts `00 41 00 42 00 43` into three two-byte codes. */
  lemma SamplePieces()
    ensures Pieces(SampleTable.toText, [0, 0x41, 0, 0x42, 0, 0x43]) == [[0x41]] + ([[0x42]] + [[0x43]])
  {
    var m := SampleTable.toText;
    var bs: seq<Byte> := [0, 0x41, 0, 0x42, 0, 0x43];
    var a: UString, b: UString, c: UString := [0x41], [0x42], [0x43];
    assert [0] !in m;
    assert bs[0..][..1] == [0] && bs[0..][..2] == [0, 0x41];
    PiecesFront(m, bs, 0, a, 2);
    assert bs[2..][..1] == [0] && bs[2..][..2] == [0, 0x42];
    PiecesFront(m, bs, 2, b, 2);
    assert bs[4..][..1] == [0] && bs[4..][..2] == [0, 0x43];
    PiecesFront(m, bs, 4, c, 2);
    assert bs[6..] == [] && bs[0..] == bs;
    assert Pieces(m, bs[4..]) == [c] + [];
    assert Pieces(m, bs) == [a] + ([b] + [c]);
  }

  /** The sample table decodes `00 41 00 42 00 43` to "ABC". */
  lemma SampleDecode()
    ensures Decode(SampleTable, [0, 0x41, 0, 0x42, 0, 0x43]) == [0x41, 0x42, 0x43]
  {
    var a: UString, b: UString, c: UString := [0x41], [0x42], [0x43];
    SamplePieces();
    ConcatCons(a, [b] + [c]);
    ConcatCons(b, [c]);
    ConcatOne(c);
  }

  /** The sample table encodes "ABC" back to `00 41 00 42 00 43`. */
  lemma SampleEncode()
    ensures Encode(SampleTable.toCode, [0x41, 0x42, 0x43]) == [0, 0x41, 0, 0x42, 0, 0x43]
  {
    var u: UString := [0x41, 0x42, 0x43];
    assert u[1..] == [0x42, 0x43] && u[1..][1..] == [0x43] && u[1..][1..][1..] == [];
    assert Encode(SampleTable.toCode, u) == [0, 0x41] + [0, 0x42] + [0, 0x43];
  }
}
