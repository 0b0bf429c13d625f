/** `tokenize_streams`: collapses the lexer's flat token stream into
    top-level tokens with a stack of open composite frames. */
module Tokenizer {
  import opened Common
  import opened Tokens
  import InlineImage

  /** The pdfrw lexer, which is not part of this model: given the stream and
      a position it returns the next lexical token and the position after
      it, or nothing at the end of the stream. */
  type Lexer = (seq<Byte>, nat) -> Option<(Token, nat)>

  /** The lexer yields keywords, names and strings only; it always moves
      forward, and the two-byte keyword `ID` takes at least two bytes. */
  ghost predicate Advances(lex: Lexer)
  {
    forall d: seq<Byte>, p: nat {:trigger lex(d, p)} :: lex(d, p).Some? ==>
      Lexeme(lex(d, p).value.0) && p < lex(d, p).value.1 <= |d| &&
      (lex(d, p).value.0 == Keyword("ID") ==> p + 2 <= lex(d, p).value.1)
  }

  datatype Kind = DictKind | ArrayKind | ImageKind

  /** An open frame collects the tokens between its opener and its closer;
      after `ID` an image frame holds the finished dictionary and payload. */
  datatype Frame =
    | Open(kind: Kind, content: seq<Token>)
    | Ready(entries: seq<(Token, Token)>, data: seq<Byte>)

  /** The tokenizer's state: the frame stack (innermost last) and the
      top-level tokens yielded so far. */
  datatype State = State(stack: seq<Frame>, out: seq<Token>)

  predicate NoControl(ts: seq<Token>)
  {
    forall i :: 0 <= i < |ts| ==> !IsControl(ts[i])
  }

  /** A finished token goes to the innermost open frame, or is yielded when
      no frame is open. An image frame past `ID` has no list to append to. */
  function Emit(stack: seq<Frame>, out: seq<Token>, t: Token): Result<State>
  {
    if stack == [] then Ok(State([], out + [t]))
    else
      match stack[|stack| - 1]
      case Open(k, c) => Ok(State(stack[..|stack| - 1] + [Open(k, c + [t])], out))
      case Ready(_, _) => Err(AttributeError)
  }

  /** One lexical token other than `ID`. Closers pop whatever frame is on top
      (`]` may close a dictionary); a dictionary's operands are paired left
      to right and an odd trailing operand is dropped, and a key that cannot
      go into a Python dictionary fails the construction. */
  function Feed(st: State, t: Token): (r: Result<State>)
    requires t != Keyword("ID")
    ensures r.Ok? ==> st.out <= r.value.out && |r.value.out| <= |st.out| + 1
    ensures r.Ok? && |r.value.out| > |st.out| ==>
      r.value.stack == [] && |st.stack| <= 1 && !IsControl(r.value.out[|st.out|])
    ensures st.stack == [] && (t == Keyword("]") || t == Keyword(">>") || t == Keyword("EI")) ==> r.Err?
    ensures (t == Keyword("]") || t == Keyword(">>")) && st.stack != [] ==>
      var top := st.stack[|st.stack| - 1];
      top.Open? && top.kind == DictKind && !HashableKeys(Pairs(top.content)) ==> r == Err(TypeError)
  {
    var stack := st.stack;
    if t == Keyword("<<") then Ok(State(stack + [Open(DictKind, [])], st.out))
    else if t == Keyword("[") then Ok(State(stack + [Open(ArrayKind, [])], st.out))
    else if t == Keyword("BI") then Ok(State(stack + [Open(ImageKind, [])], st.out))
    else if t == Keyword(">>") || t == Keyword("]") then
      if stack == [] then Err(IndexError)
      else
        var rest := stack[..|stack| - 1];
        match stack[|stack| - 1]
        case Open(DictKind, c) =>
          if HashableKeys(Pairs(c)) then Emit(rest, st.out, Dict(DictOf(Pairs(c)))) else Err(TypeError)
        case Open(ArrayKind, c) => Emit(rest, st.out, Arr(c))
        case Open(ImageKind, _) => Err(TypeError)
        case Ready(_, _) => Err(TypeError)
    else if t == Keyword("EI") then
      if stack == [] then Err(IndexError)
      else
        var rest := stack[..|stack| - 1];
        match stack[|stack| - 1]
        case Ready(entries, data) => Emit(rest, st.out, Image(entries, data))
        case Open(_, _) => Err(TypeError)
    else Emit(stack, st.out, t)
  }

  /** The keyword `ID` at lexer position `next`: the image frame on top gets
      its dictionary (which fails on a key a Python dictionary cannot hold)
      and then the payload cut by `read_data`; lexing resumes at the
      position `read_data` leaves. */
  function ImageData(st: State, data: seq<Byte>, next: nat): (r: Result<(State, nat)>)
    requires 1 <= next <= |data|
    ensures r.Ok? ==> r.value.0.out == st.out && next - 1 <= r.value.1 < |data|
    ensures st.stack == [] ==> r == Err(IndexError)
    ensures st.stack != [] ==>
      var top := st.stack[|st.stack| - 1];
      (top.Ready? || top.kind == DictKind ==> r == Err(TypeError)) &&
      (top.Open? && top.kind == ArrayKind ==> r == Err(AttributeError)) &&
      (top.Open? && top.kind == ImageKind && !HashableKeys(Pairs(top.content)) ==> r == Err(TypeError)) &&
      (top.Open? && top.kind == ImageKind && HashableKeys(Pairs(top.content)) ==>
        match InlineImage.ReadDataSpec(data, next)
        case Err(e) => r == Err(e)
        case Ok((payload, end)) =>
          r == Ok((State(st.stack[..|st.stack| - 1] + [Ready(DictOf(Pairs(top.content)), payload)], st.out), end)))
  {
    if st.stack == [] then Err(IndexError)
    else
      var rest := st.stack[..|st.stack| - 1];
      match st.stack[|st.stack| - 1]
      case Open(ImageKind, c) =>
        if !HashableKeys(Pairs(c)) then Err(TypeError) else
        (match InlineImage.ReadDataSpec(data, next)
         case Ok((payload, end)) => Ok((State(rest + [Ready(DictOf(Pairs(c)), payload)], st.out), end))
         case Err(e) => Err(e))
      case Open(DictKind, _) => Err(TypeError)
      case Open(ArrayKind, _) => Err(AttributeError)
      case Ready(_, _) => Err(TypeError)
  }

  /** The rest of one stream from lexer position `pos`. */
  function RunStream(lex: Lexer, data: seq<Byte>, pos: nat, st: State): Result<State>
    requires Advances(lex) && pos <= |data|
    decreases |data| - pos
  {
    match lex(data, pos)
    case None => Ok(st)
    case Some((t, next)) =>
      if t == Keyword("ID") then
        match ImageData(st, data, next)
        case Err(e) => Err(e)
        case Ok((st', end)) => RunStream(lex, data, end, st')
      else
        match Feed(st, t)
        case Err(e) => Err(e)
        case Ok(st') => RunStream(lex, data, next, st')
  }

  /** The streams in order; the frame stack carries over from one stream
      to the next. */
  function RunStreams(lex: Lexer, streams: seq<seq<Byte>>, st: State): Result<State>
    requires Advances(lex)
    decreases |streams|
  {
    if streams == [] then Ok(st)
    else
      match RunStream(lex, streams[0], 0, st)
      case Err(e) => Err(e)
      case Ok(st') => RunStreams(lex, streams[1..], st')
  }

  /** Everything `tokenize_streams` yields. Frames still open at the end are
      dropped without an error. */
  function TokenizeSpec(lex: Lexer, streams: seq<seq<Byte>>): Result<seq<Token>>
    requires Advances(lex)
  {
    match RunStreams(lex, streams, State([], []))
    case Err(e) => Err(e)
    case Ok(st) => Ok(st.out)
  }

  /** What the rest of the run yields once the current stream has been
      tokenized up to `pos` from state `st`. */
  function Continue(lex: Lexer, streams: seq<seq<Byte>>, s: nat, pos: nat, st: State): Result<State>
    requires Advances(lex) && s < |streams| && pos <= |streams[s]|
  {
    match RunStream(lex, streams[s], pos, st)
    case Err(e) => Err(e)
    case Ok(st') => RunStreams(lex, streams[s + 1..], st')
  }

  /** One lexical token other than `ID`: the body of the generator's loop. */
  method FeedToken(st: State, t: Token) returns (r: Result<State>)
    requires t != Keyword("ID")
    ensures r == Feed(st, t)
  {
    var stack, out := st.stack, st.out;
    if t == Keyword("<<") {
      return Ok(State(stack + [Open(DictKind, [])], out));
    } else if t == Keyword("[") {
      return Ok(State(stack + [Open(ArrayKind, [])], out));
    } else if t == Keyword("BI") {
      return Ok(State(stack + [Open(ImageKind, [])], out));
    }
    var done := t;
    if t == Keyword(">>") || t == Keyword("]") {
      if stack == [] {
        return Err(IndexError);
      }
      var top := stack[|stack| - 1];
      stack := stack[..|stack| - 1];
      if top.Ready? || top.kind == ImageKind {
        return Err(TypeError);
      } else if top.kind == DictKind {
        var pairs, _ := ChunkPairs(top.content);
        if !HashableKeys(pairs) {
          return Err(TypeError);
        }
        done := Dict(DictOf(pairs));
      } else {
        done := Arr(top.content);
      }
    } else if t == Keyword("EI") {
      if stack == [] {
        return Err(IndexError);
      }
      var top := stack[|stack| - 1];
      stack := stack[..|stack| - 1];
      if top.Open? {
        return Err(TypeError);
      }
      done := Image(top.entries, top.data);
    }
    if stack != [] {
      var top := stack[|stack| - 1];
      if top.Ready? {
        return Err(AttributeError);
      }
      return Ok(State(stack[..|stack| - 1] + [Open(top.kind, top.content + [done])], out));
    }
    return Ok(State([], out + [done]));
  }

  /** The keyword `ID`: the image frame on top gets its dictionary and the
      payload `read_data` cuts; returns the position lexing resumes at. */
  method ReadImage(st: State, data: seq<Byte>, next: nat) returns (r: Result<(State, nat)>)
    requires 1 <= next <= |data|
    ensures r == ImageData(st, data, next)
  {
    var stack := st.stack;
    if stack == [] {
      return Err(IndexError);
    }
    var top := stack[|stack| - 1];
    if top.Ready? || top.kind == DictKind {
      return Err(TypeError);
    } else if top.kind == ArrayKind {
      return Err(AttributeError);
    }
    var pairs, _ := ChunkPairs(top.content);
    if !HashableKeys(pairs) {
      return Err(TypeError);
    }
    var read := InlineImage.ReadData(data, next);
    if read.Err? {
      return Err(read.error);
    }
    return Ok((State(stack[..|stack| - 1] + [Ready(DictOf(pairs), read.value.0)], st.out), read.value.1));
  }

  /** `tokenize_streams` with an explicit frame stack; yields (returns) the
      top-level tokens, or the error the source raises. */
  method Tokenize(lex: Lexer, streams: seq<seq<Byte>>) returns (r: Result<seq<Token>>)
    requires Advances(lex)
    ensures r == TokenizeSpec(lex, streams)
  {
    var st := State([], []);
    var s := 0;
    while s < |streams|
      invariant s <= |streams|
      invariant RunStreams(lex, streams, State([], [])) == RunStreams(lex, streams[s..], st)
      decreases |streams| - s
    {
      var data := streams[s];
      var pos := 0;
      assert streams[s..][1..] == streams[s + 1..];
      while true
        invariant pos <= |data|
        invariant RunStreams(lex, streams, State([], [])) == Continue(lex, streams, s, pos, st)
        decreases |data| - pos
      {
        var lexed := lex(data, pos);
        if lexed.None? {
          break;
        }
        var t, next := lexed.value.0, lexed.value.1;
        if t == Keyword("ID") {
          var image := ReadImage(st, data, next);
          if image.Err? {
            return Err(image.error);
          }
          st, next := image.value.0, image.value.1;
        } else {
          var fed := FeedToken(st, t);
          if fed.Err? {
            return Err(fed.error);
          }
          st := fed.value;
        }
        pos := next;
      }
      s := s + 1;
    }
    return Ok(st.out);
  }

  /** Output only grows during a stream, and never holds a bracket or
      inline-image keyword: every composite literal is already collapsed. */
  lemma {:induction false} RunStreamClean(lex: Lexer, data: seq<Byte>, pos: nat, st: State)
    requires Advances(lex) && pos <= |data|
    requires NoControl(st.out)
    ensures RunStream(lex, data, pos, st).Ok? ==>
      st.out <= RunStream(lex, data, pos, st).value.out && NoControl(RunStream(lex, data, pos, st).value.out)
    decreases |data| - pos
  {
    match lex(data, pos)
    case None =>
    case Some((t, next)) =>
      if t == Keyword("ID") {
        match ImageData(st, data, next)
        case Err(e) =>
        case Ok((st', end)) => RunStreamClean(lex, data, end, st');
      } else {
        match Feed(st, t)
        case Err(e) =>
        case Ok(st') =>
          assert NoControl(st'.out) by {
            if |st'.out| > |st.out| {
              assert st'.out == st.out + [st'.out[|st.out|]];
            } else {
              assert st'.out == st.out;
            }
          }
          RunStreamClean(lex, data, next, st');
      }
  }

  /** The whole tokenizer output is free of control keywords. */
  lemma {:induction false} TokenizeClean(lex: Lexer, streams: seq<seq<Byte>>, st: State)
    requires Advances(lex) && NoControl(st.out)
    ensures RunStreams(lex, streams, st).Ok? ==> NoControl(RunStreams(lex, streams, st).value.out)
    decreases |streams|
  {
    if streams != [] {
      RunStreamClean(lex, streams[0], 0, st);
      match RunStream(lex, streams[0], 0, st)
      case Err(e) =>
      case Ok(st') => TokenizeClean(lex, streams[1..], st');
    }
  }

  /** An open frame's tokens, or a finished image frame's entries, hold no
      text handle. */
  predicate FrameClear(f: Frame)
  {
    match f
    case Open(_, c) => forall j :: 0 <= j < |c| ==> HandlesBelow(c[j], 0)
    case Ready(entries, _) => PairsBelow(entries, 0)
  }

  /** Nothing the tokenizer holds or has yielded is a text handle or
      contains one. */
  predicate Clear(st: State)
  {
    (forall i :: 0 <= i < |st.out| ==> HandlesBelow(st.out[i], 0))
    && forall k :: 0 <= k < |st.stack| ==> FrameClear(st.stack[k])
  }

  lemma PairsClear(c: seq<Token>)
    requires forall j :: 0 <= j < |c| ==> HandlesBelow(c[j], 0)
    ensures PairsBelow(DictOf(Pairs(c)), 0)
  {
    var ps := Pairs(c);
    assert forall k :: 0 <= k < |ps| ==> ps[k] == (c[2 * k], c[2 * k + 1]);
    DictOfBelow(ps, 0);
  }

  lemma EmitClear(stack: seq<Frame>, out: seq<Token>, t: Token)
    requires Clear(State(stack, out)) && HandlesBelow(t, 0)
    ensures Emit(stack, out, t).Ok? ==> Clear(Emit(stack, out, t).value)
  {
    if stack != [] && stack[|stack| - 1].Open? {
      var top := stack[|stack| - 1];
      assert FrameClear(top);
      var stack' := stack[..|stack| - 1] + [Open(top.kind, top.content + [t])];
      assert forall k :: 0 <= k < |stack| - 1 ==> stack'[k] == stack[k];
      assert FrameClear(stack'[|stack| - 1]);
    }
  }

  lemma FeedClear(st: State, t: Token)
    requires t != Keyword("ID") && Clear(st) && HandlesBelow(t, 0)
    ensures Feed(st, t).Ok? ==> Clear(Feed(st, t).value)
  {
    var stack := st.stack;
    if t == Keyword("<<") || t == Keyword("[") || t == Keyword("BI") {
    } else if (t == Keyword(">>") || t == Keyword("]") || t == Keyword("EI")) && stack != [] {
      var rest := stack[..|stack| - 1];
      var top := stack[|stack| - 1];
      assert Clear(State(rest, st.out)) && FrameClear(top);
      match top
      case Open(DictKind, c) =>
        PairsClear(c);
        EmitClear(rest, st.out, Dict(DictOf(Pairs(c))));
      case Open(ArrayKind, c) => EmitClear(rest, st.out, Arr(c));
      case Open(ImageKind, _) =>
      case Ready(entries, data) => EmitClear(rest, st.out, Image(entries, data));
    } else if !(t == Keyword(">>") || t == Keyword("]") || t == Keyword("EI")) {
      EmitClear(stack, st.out, t);
    }
  }

  lemma ImageDataClear(st: State, data: seq<Byte>, next: nat)
    requires 1 <= next <= |data| && Clear(st)
    ensures ImageData(st, data, next).Ok? ==> Clear(ImageData(st, data, next).value.0)
  {
    if st.stack != [] {
      var top := st.stack[|st.stack| - 1];
      var read := InlineImage.ReadDataSpec(data, next);
      if top.Open? && top.kind == ImageKind && HashableKeys(Pairs(top.content)) && read.Ok? {
        var rest := st.stack[..|st.stack| - 1];
        assert FrameClear(top);
        PairsClear(top.content);
        var stack' := rest + [Ready(DictOf(Pairs(top.content)), read.value.0)];
        assert ImageData(st, data, next) == Ok((State(stack', st.out), read.value.1));
        assert forall k :: 0 <= k < |rest| ==> stack'[k] == st.stack[k];
        assert FrameClear(stack'[|rest|]);
      }
    }
  }

  lemma {:induction false} RunStreamClear(lex: Lexer, data: seq<Byte>, pos: nat, st: State)
    requires Advances(lex) && pos <= |data| && Clear(st)
    ensures RunStream(lex, data, pos, st).Ok? ==> Clear(RunStream(lex, data, pos, st).value)
    decreases |data| - pos
  {
    match lex(data, pos)
    case None =>
    case Some((t, next)) =>
      if t == Keyword("ID") {
        ImageDataClear(st, data, next);
        match ImageData(st, data, next)
        case Err(e) =>
        case Ok((st', end)) => RunStreamClear(lex, data, end, st');
      } else {
        FeedClear(st, t);
        match Feed(st, t)
        case Err(e) =>
        case Ok(st') => RunStreamClear(lex, data, next, st');
      }
  }

  lemma {:induction false} RunStreamsClear(lex: Lexer, streams: seq<seq<Byte>>, st: State)
    requires Advances(lex) && Clear(st)
    ensures RunStreams(lex, streams, st).Ok? ==> Clear(RunStreams(lex, streams, st).value)
    decreases |streams|
  {
    if streams != [] {
      RunStreamClear(lex, streams[0], 0, st);
      match RunStream(lex, streams[0], 0, st)
      case Err(e) =>
      case Ok(st') => RunStreamsClear(lex, streams[1..], st');
    }
  }

  /** Since the lexer yields only keywords, names and strings, no token the
      tokenizer yields is, or contains, a text handle. */
  lemma TokenizeNoHandles(lex: Lexer, streams: seq<seq<Byte>>)
    requires Advances(lex)
    ensures TokenizeSpec(lex, streams).Ok? ==>
      forall i :: 0 <= i < |TokenizeSpec(lex, streams).value| ==> HandlesBelow(TokenizeSpec(lex, streams).value[i], 0)
  {
    RunStreamsClear(lex, streams, State([], []));
  }

  /** Feeding a list of lexical tokens (none of them `ID`) one by one. */
  function FeedAll(st: State, ts: seq<Token>): Result<State>
    requires forall i :: 0 <= i < |ts| ==> ts[i] != Keyword("ID")
    decreases |ts|
  {
    if ts == [] then Ok(st)
    else
      match Feed(st, ts[0])
      case Err(e) => Err(e)
      case Ok(st') => FeedAll(st', ts[1..])
  }

  lemma {:induction false} FeedAllAppend(st: State, a: seq<Token>, b: seq<Token>)
    requires forall i :: 0 <= i < |a| ==> a[i] != Keyword("ID")
    requires forall i :: 0 <= i < |b| ==> b[i] != Keyword("ID")
    ensures FeedAll(st, a + b) ==
      match FeedAll(st, a)
      case Err(e) => Err(e)
      case Ok(st') => FeedAll(st', b)
    decreases |a|
  {
    if a == [] {
      assert a + b == b;
    } else {
      assert (a + b)[1..] == a[1..] + b;
      match Feed(st, a[0])
      case Err(e) =>
      case Ok(st') => FeedAllAppend(st', a[1..], b);
    }
  }

  /** Plain operands inside an open frame are appended to that frame in order. */
  lemma {:induction false} FeedOperands(stack: seq<Frame>, k: Kind, c: seq<Token>, out: seq<Token>, atoms: seq<Token>)
    requires NoControl(atoms)
    ensures FeedAll(State(stack + [Open(k, c)], out), atoms) == Ok(State(stack + [Open(k, c + atoms)], out))
    decreases |atoms|
  {
    if atoms == [] {
      assert c + atoms == c;
    } else {
      var st := State(stack + [Open(k, c)], out);
      assert (stack + [Open(k, c)])[..|stack|] == stack;
      assert Feed(st, atoms[0]) == Ok(State(stack + [Open(k, c + [atoms[0]])], out));
      FeedOperands(stack, k, c + [atoms[0]], out, atoms[1..]);
      assert c + [atoms[0]] + atoms[1..] == c + atoms;
    }
  }

  /** An opener, plain operands and a closer: the operands fill the frame
      the opener pushed, and the closer then acts on that frame. */
  lemma {:induction false} Literal(stack: seq<Frame>, out: seq<Token>, k: Kind, opener: Token, atoms: seq<Token>, closer: Token)
    requires NoControl(atoms) && opener != Keyword("ID") && closer != Keyword("ID")
    requires Feed(State(stack, out), opener) == Ok(State(stack + [Open(k, [])], out))
    ensures FeedAll(State(stack, out), [opener] + atoms + [closer]) == Feed(State(stack + [Open(k, atoms)], out), closer)
  {
    var start := State(stack + [Open(k, [])], out);
    var body := [opener] + atoms;
    FeedAllAppend(State(stack, out), [opener], atoms);
    FeedAllAppend(State(stack, out), body, [closer]);
    FeedOperands(stack, k, [], out, atoms);
    assert [] + atoms == atoms;
    assert FeedAll(State(stack, out), [opener]) == Ok(start) by {
      assert [opener][1..] == [];
    }
    var full := State(stack + [Open(k, atoms)], out);
    assert [closer][1..] == [];
    assert FeedAll(full, [closer]) == Feed(full, closer);
  }

  /** `[ a1 ... an ]` becomes one array token, given to the enclosing frame
      (or yielded at top level). */
  lemma ArrayLiteral(stack: seq<Frame>, out: seq<Token>, atoms: seq<Token>)
    requires NoControl(atoms)
    ensures FeedAll(State(stack, out), [Keyword("[")] + atoms + [Keyword("]")]) == Emit(stack, out, Arr(atoms))
  {
    assert Feed(State(stack, out), Keyword("[")) == Ok(State(stack + [Open(ArrayKind, [])], out));
    Literal(stack, out, ArrayKind, Keyword("["), atoms, Keyword("]"));
    CloseArray(stack, out, atoms);
  }

  /** `]` pops the array frame on top. */
  lemma CloseArray(stack: seq<Frame>, out: seq<Token>, c: seq<Token>)
    ensures Feed(State(stack + [Open(ArrayKind, c)], out), Keyword("]")) == Emit(stack, out, Arr(c))
  {
    var st := State(stack + [Open(ArrayKind, c)], out);
    assert Keyword("]") != Keyword("<<") && Keyword("]") != Keyword("[") && Keyword("]") != Keyword("BI");
    assert st.stack[..|st.stack| - 1] == stack && st.stack[|st.stack| - 1] == Open(ArrayKind, c);
  }

  /** `<< k1 v1 ... >>` becomes one dictionary token built from the pairs of
      its operands; an odd trailing operand is dropped. It fails when a key
      is an array, a dictionary or an image, which a lexer never yields. */
  lemma DictLiteral(stack: seq<Frame>, out: seq<Token>, atoms: seq<Token>)
    requires NoControl(atoms)
    ensures FeedAll(State(stack, out), [Keyword("<<")] + atoms + [Keyword(">>")]) ==
            if HashableKeys(Pairs(atoms)) then Emit(stack, out, Dict(DictOf(Pairs(atoms)))) else Err(TypeError)
    ensures (forall i :: 0 <= i < |atoms| ==> Lexeme(atoms[i])) ==>
      FeedAll(State(stack, out), [Keyword("<<")] + atoms + [Keyword(">>")]) == Emit(stack, out, Dict(DictOf(Pairs(atoms))))
  {
    assert Feed(State(stack, out), Keyword("<<")) == Ok(State(stack + [Open(DictKind, [])], out));
    Literal(stack, out, DictKind, Keyword("<<"), atoms, Keyword(">>"));
    CloseDict(stack, out, atoms);
    LexemesHashable(atoms);
  }

  /** Keywords, names and strings can all be dictionary keys. */
  lemma LexemesHashable(atoms: seq<Token>)
    ensures (forall i :: 0 <= i < |atoms| ==> Lexeme(atoms[i])) ==> HashableKeys(Pairs(atoms))
  {
    var ps := Pairs(atoms);
    assert forall k :: 0 <= k < |ps| ==> ps[k].0 == atoms[2 * k];
  }

  /** `>>` pops the dictionary frame on top and gives it its pairs, or fails
      with `TypeError` when a key is unhashable. */
  lemma CloseDict(stack: seq<Frame>, out: seq<Token>, c: seq<Token>)
    ensures Feed(State(stack + [Open(DictKind, c)], out), Keyword(">>")) ==
            if HashableKeys(Pairs(c)) then Emit(stack, out, Dict(DictOf(Pairs(c)))) else Err(TypeError)
  {
    var st := State(stack + [Open(DictKind, c)], out);
    assert Keyword(">>") != Keyword("<<") && Keyword(">>") != Keyword("[") && Keyword(">>") != Keyword("BI");
    assert st.stack[..|st.stack| - 1] == stack && st.stack[|st.stack| - 1] == Open(DictKind, c);
  }

  /** `BI k1 v1 ... ID <payload> EI`: the operands fill the image frame,
      `ID` turns them into the image's dictionary and cuts the payload, and
      `EI` pops one inline-image token carrying both. `ID` fails with
      `TypeError`, before the payload is read, when a key is unhashable. */
  lemma ImageLiteral(stack: seq<Frame>, out: seq<Token>, atoms: seq<Token>, data: seq<Byte>, next: nat,
                     payload: seq<Byte>, end: nat)
    requires NoControl(atoms) && 1 <= next <= |data|
    requires InlineImage.ReadDataSpec(data, next) == Ok((payload, end))
    ensures FeedAll(State(stack, out), [Keyword("BI")] + atoms) == Ok(State(stack + [Open(ImageKind, atoms)], out))
    ensures ImageData(State(stack + [Open(ImageKind, atoms)], out), data, next)
         == if HashableKeys(Pairs(atoms)) then Ok((State(stack + [Ready(DictOf(Pairs(atoms)), payload)], out), end))
            else Err(TypeError)
    ensures Feed(State(stack + [Ready(DictOf(Pairs(atoms)), payload)], out), Keyword("EI"))
         == Emit(stack, out, Image(DictOf(Pairs(atoms)), payload))
  {
    var bi := Keyword("BI");
    assert bi != Keyword("<<") && bi != Keyword("[");
    assert Feed(State(stack, out), bi) == Ok(State(stack + [Open(ImageKind, [])], out));
    FeedAllAppend(State(stack, out), [bi], atoms);
    assert FeedAll(State(stack, out), [bi]) == Ok(State(stack + [Open(ImageKind, [])], out)) by {
      assert [bi][1..] == [];
    }
    FeedOperands(stack, ImageKind, [], out, atoms);
    assert [] + atoms == atoms;
    var open := stack + [Open(ImageKind, atoms)];
    assert open[..|open| - 1] == stack && open[|open| - 1] == Open(ImageKind, atoms);
    var ready := stack + [Ready(DictOf(Pairs(atoms)), payload)];
    var ei := Keyword("EI");
    assert ei != Keyword("<<") && ei != Keyword("[") && ei != Keyword("BI") && ei != Keyword(">>") && ei != Keyword("]");
    assert ready[..|ready| - 1] == stack && ready[|ready| - 1] == Ready(DictOf(Pairs(atoms)), payload);
  }
}
