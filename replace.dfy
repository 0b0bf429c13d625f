/** `update_text_layer`: applies each rewriting rule to the concatenated
    text of the collected text tokens and maps every match back onto the
    tokens whose text produced it. */
module Replace {
  import opened Common
  import TextLayer

  /** A match `[start, end)` in the text it was found in. */
  datatype Span = Span(start: nat, end: nat)

  /** A rule: the matches the pattern finds in a text (the regular
      expression engine is not part of this model) and the replacement
      function, given the searched text and the match. */
  datatype Rule = Rule(find: UString -> seq<Span>, fn: (UString, Span) -> UString)

  /** Matches within a text of length `n`, in ascending order, not
      overlapping, none before `pos`. */
  predicate SpansFrom(spans: seq<Span>, pos: nat, n: nat)
  {
    (forall k :: 0 <= k < |spans| ==> spans[k].start <= spans[k].end <= n)
    && (|spans| > 0 ==> pos <= spans[0].start)
    && (forall k :: 0 <= k < |spans| - 1 ==> spans[k].end <= spans[k + 1].start)
  }

  /** `finditer` yields matches of the searched text, left to right. */
  ghost predicate ValidRule(rule: Rule)
  {
    forall text: UString {:trigger rule.find(text)} :: SpansFrom(rule.find(text), 0, |text|)
  }

  /** The text from `pos` on with every non-empty match replaced by its
      replacement, left to right; an empty match changes nothing. (Only
      matches as `SpansFrom` describes them are meant; for others the
      result is empty.) */
  function Splice(text: UString, spans: seq<Span>, fn: (UString, Span) -> UString, pos: nat): UString
    decreases |spans|
  {
    if spans == [] then (if pos <= |text| then text[pos..] else [])
    else
      var sp := spans[0];
      if pos <= sp.start <= sp.end <= |text| then
        text[pos..sp.start] + (if sp.start < sp.end then fn(text, sp) else []) + Splice(text, spans[1..], fn, sp.end)
      else []
  }

  /** What one rule makes of a text. */
  function ApplyRule(text: UString, rule: Rule): UString
    requires ValidRule(rule)
  {
    Splice(text, rule.find(text), rule.fn, 0)
  }

  /** The rules one after the other, each on the previous one's result. */
  function ApplyRules(text: UString, rules: seq<Rule>): UString
    requires forall i :: 0 <= i < |rules| ==> ValidRule(rules[i])
    decreases |rules|
  {
    if rules == [] then text else ApplyRules(ApplyRule(text, rules[0]), rules[1..])
  }

  // ---------------------------------------------------------------------
  // What each unit receives

  function Max(a: int, b: int): int { if a < b then b else a }

  function Min(a: int, b: int): int { if a < b then a else b }

  /** The part of the text between `a` and `b` that lies in the unit
      `[lo, hi)`. */
  function Clip(text: UString, a: nat, b: nat, lo: nat, hi: nat): UString
  {
    var x, y := Max(a, lo), Min(b, hi);
    if x < y <= |text| then text[x..y] else []
  }

  /** The share of the replacement `r` of a non-empty match `[start, end)`
      that the unit `[lo, hi)` receives. A unit the match overlaps but does
      not end in takes as many characters of what is left as the match
      covers in it; the unit the match ends in takes all that is left; any
      other unit takes nothing. */
  function Share(r: UString, start: nat, end: nat, lo: nat, hi: nat): UString
  {
    if start < end && lo < hi && start < hi && lo < end then
      var from := Max(start, lo);
      if end <= hi then Drop(r, from - start) else Take(Drop(r, from - start), hi - from)
    else []
  }

  /** The value the unit `[lo, hi)` of `text` ends up with after the matches
      from `pos` on: its text outside them, and its share of the
      replacement of each non-empty match. (As for `Splice`, only matches
      as `SpansFrom` describes them are meant.) */
  function UnitSplice(text: UString, spans: seq<Span>, fn: (UString, Span) -> UString, pos: nat, lo: nat, hi: nat): UString
    decreases |spans|
  {
    if spans == [] then Clip(text, pos, |text|, lo, hi)
    else
      var sp := spans[0];
      if pos <= sp.start <= sp.end <= |text| then
        Clip(text, pos, sp.start, lo, hi) + (if sp.start < sp.end then Share(fn(text, sp), sp.start, sp.end, lo, hi) else [])
          + UnitSplice(text, spans[1..], fn, sp.end, lo, hi)
      else []
  }

  /** Where unit `k` starts and ends in the concatenation of the units. */
  function Lo(vs: seq<UString>, k: nat): nat
    requires k <= |vs|
  {
    |Concat(vs[..k])|
  }

  function Hi(vs: seq<UString>, k: nat): nat
    requires k < |vs|
  {
    Lo(vs, k) + |vs[k]|
  }

  /** What one rule makes of each unit. */
  function RuleOnUnits(rule: Rule, vs: seq<UString>): (r: seq<UString>)
    requires ValidRule(rule)
    ensures |r| == |vs|
  {
    var text := Concat(vs);
    seq(|vs|, k requires 0 <= k < |vs| => UnitSplice(text, rule.find(text), rule.fn, 0, Lo(vs, k), Hi(vs, k)))
  }

  /** The rules one after the other, each on the units the previous one left. */
  function RulesOnUnits(vs: seq<UString>, rules: seq<Rule>): (r: seq<UString>)
    requires forall i :: 0 <= i < |rules| ==> ValidRule(rules[i])
    ensures |r| == |vs|
    decreases |rules|
  {
    if rules == [] then vs else RulesOnUnits(RuleOnUnits(rules[0], vs), rules[1..])
  }

  lemma LoNext(vs: seq<UString>, k: nat)
    requires k < |vs|
    ensures Lo(vs, k + 1) == Hi(vs, k)
  {
    ConcatLength(vs, k);
  }

  lemma {:induction false} LoMono(vs: seq<UString>, j: nat, k: nat)
    requires j <= k <= |vs|
    ensures Lo(vs, j) <= Lo(vs, k)
    decreases k - j
  {
    if j < k {
      LoNext(vs, j);
      LoMono(vs, j + 1, k);
    }
  }

  /** A unit ends no later than any later unit starts. */
  lemma HiBefore(vs: seq<UString>, j: nat, k: nat)
    requires j < k <= |vs|
    ensures Hi(vs, j) <= Lo(vs, k)
  {
    LoNext(vs, j);
    LoMono(vs, j + 1, k);
  }

  lemma LoEnd(vs: seq<UString>)
    ensures Lo(vs, |vs|) == |Concat(vs)|
  {
    assert vs[..|vs|] == vs;
  }

  /** Unit `k` is the text between its bounds. */
  lemma UnitText(vs: seq<UString>, k: nat)
    requires k < |vs|
    ensures Hi(vs, k) <= |Concat(vs)| && Concat(vs)[Lo(vs, k)..Hi(vs, k)] == vs[k]
  {
    SliceInside(vs, k, 0, |vs[k]|);
    assert vs[k][0..|vs[k]|] == vs[k];
  }

  lemma ClipJoin(text: UString, a: nat, b: nat, c: nat, lo: nat, hi: nat)
    requires a <= b <= c && hi <= |text|
    ensures Clip(text, a, b, lo, hi) + Clip(text, b, c, lo, hi) == Clip(text, a, c, lo, hi)
  {
    var x, y := Max(a, lo), Min(c, hi);
    if x <= b <= y {
      SliceSplit(text, x, b, y);
    }
  }

  lemma ClipInside(text: UString, a: nat, b: nat, lo: nat, hi: nat)
    requires lo <= a <= b <= hi <= |text|
    ensures Clip(text, a, b, lo, hi) == text[a..b]
  {
  }

  lemma DropDrop(r: UString, a: nat, b: nat)
    ensures Drop(Drop(r, a), b) == Drop(r, a + b)
  {
  }

  /** Starting a unit's splice earlier only adds the unit's text in between. */
  lemma UnitShift(text: UString, spans: seq<Span>, fn: (UString, Span) -> UString, pos: nat, mid: nat, lo: nat, hi: nat)
    requires pos <= mid <= |text| && hi <= |text|
    requires spans != [] ==> mid <= spans[0].start <= spans[0].end <= |text|
    ensures UnitSplice(text, spans, fn, pos, lo, hi) == Clip(text, pos, mid, lo, hi) + UnitSplice(text, spans, fn, mid, lo, hi)
  {
    if spans == [] {
      ClipJoin(text, pos, mid, |text|, lo, hi);
    } else {
      var sp := spans[0];
      var m := if sp.start < sp.end then Share(fn(text, sp), sp.start, sp.end, lo, hi) else [];
      var t := UnitSplice(text, spans[1..], fn, sp.end, lo, hi);
      ClipJoin(text, pos, mid, sp.start, lo, hi);
      AssocTail(Clip(text, pos, mid, lo, hi), Clip(text, mid, sp.start, lo, hi), m, t);
    }
  }

  /** A unit that no non-empty match overlaps keeps its text. */
  lemma {:induction false} UnitKept(text: UString, spans: seq<Span>, fn: (UString, Span) -> UString, pos: nat, lo: nat, hi: nat)
    requires pos <= |text| && hi <= |text| && SpansFrom(spans, pos, |text|)
    requires forall k :: 0 <= k < |spans| && spans[k].start < spans[k].end ==> spans[k].end <= lo || hi <= spans[k].start
    ensures UnitSplice(text, spans, fn, pos, lo, hi) == Clip(text, pos, |text|, lo, hi)
    decreases |spans|
  {
    if spans != [] {
      var sp := spans[0];
      SpansTail(spans, pos, |text|);
      assert forall k :: 0 <= k < |spans| - 1 ==> spans[1..][k] == spans[k + 1];
      UnitKept(text, spans[1..], fn, sp.end, lo, hi);
      ClipJoin(text, pos, sp.start, sp.end, lo, hi);
      ClipJoin(text, pos, sp.end, |text|, lo, hi);
    }
  }

  /** A rule leaves a unit that none of its non-empty matches overlaps as it
      was. */
  lemma RuleKeeps(rule: Rule, vs: seq<UString>, k: nat)
    requires ValidRule(rule) && k < |vs|
    requires var spans := rule.find(Concat(vs));
      forall i :: 0 <= i < |spans| && spans[i].start < spans[i].end ==> spans[i].end <= Lo(vs, k) || Hi(vs, k) <= spans[i].start
    ensures RuleOnUnits(rule, vs)[k] == vs[k]
  {
    var text := Concat(vs);
    assert SpansFrom(rule.find(text), 0, |text|);
    UnitText(vs, k);
    UnitKept(text, rule.find(text), rule.fn, 0, Lo(vs, k), Hi(vs, k));
  }

  /** A match that lies inside one unit gives that unit all of its
      replacement, and every other unit none of it. */
  lemma ShareInside(r: UString, start: nat, end: nat, lo: nat, hi: nat, lo': nat, hi': nat)
    requires lo <= start < end <= hi
    requires hi' <= start || end <= lo'
    ensures Share(r, start, end, lo, hi) == r
    ensures Share(r, start, end, lo', hi') == []
  {
  }

  /** A match that runs from unit `[lo, mid)` into the next unit `[mid, hi)`
      and ends there: the first takes as many characters as the match covers
      in it, and the second the rest. */
  lemma ShareAcross(r: UString, start: nat, end: nat, lo: nat, mid: nat, hi: nat)
    requires lo <= start < mid < end <= hi
    ensures Share(r, start, end, lo, mid) == Take(r, mid - start)
    ensures Share(r, start, end, mid, hi) == Drop(r, mid - start)
    ensures Share(r, start, end, lo, mid) + Share(r, start, end, mid, hi) == r
  {
  }

  // ---------------------------------------------------------------------
  // The running state of one rule

  /** The running state while one rule is applied: `S` holds the tokens'
      values when the rule started (the snapshot whose concatenation was
      searched), `values` their current values, `idx`, `charpos` and
      `xdiff` are `text_tokens_index`, `text_tokens_charpos` and
      `text_tokens_token_xdiff`, and `P` is how far into the snapshot text
      has been handled. Tokens after `idx` are untouched; token `idx` still
      ends with its snapshot text from `P` on, and its length minus `xdiff`
      is its snapshot length. */
  ghost predicate Cursor(S: seq<UString>, values: seq<UString>, idx: nat, charpos: nat, xdiff: int, P: nat)
  {
    |values| == |S| && idx <= |S| && charpos == |Concat(S[..idx])| && charpos <= P
    && (forall k :: idx < k < |S| ==> values[k] == S[k])
    && (idx < |S| ==>
          P - charpos <= |S[idx]| && 0 <= P - charpos + xdiff <= |values[idx]|
          && values[idx][P - charpos + xdiff..] == S[idx][P - charpos..])
    && (idx == |S| ==> P == charpos && xdiff == 0)
  }

  /** The text already produced: the tokens before `idx` and the rewritten
      front of token `idx`. */
  ghost function Done(values: seq<UString>, idx: nat, charpos: nat, xdiff: int, P: nat): UString
  {
    var front := P - charpos + xdiff;
    Concat(values[..if idx <= |values| then idx else |values|])
      + (if idx < |values| && 0 <= front <= |values[idx]| then values[idx][..front] else [])
  }

  /** The text produced so far followed by the snapshot text up to `i1`. */
  ghost function Pending(S: seq<UString>, values: seq<UString>, idx: nat, charpos: nat, xdiff: int, P: nat, i1: nat): UString
  {
    Done(values, idx, charpos, xdiff, P) + (if P <= i1 <= |Concat(S)| then Concat(S)[P..i1] else [])
  }

  /** The snapshot text split around token `idx`. */
  lemma Around(S: seq<UString>, idx: nat)
    requires idx < |S|
    ensures Concat(S) == Concat(S[..idx]) + S[idx] + Concat(S[idx + 1..])
    ensures |Concat(S[..idx + 1])| == |Concat(S[..idx])| + |S[idx]|
  {
    ConcatAround(S, idx);
    ConcatLength(S, idx);
  }

  lemma SliceAround(S: seq<UString>, idx: nat, j: nat)
    requires idx < |S| && j <= |S[idx]|
    ensures |Concat(S[..idx])| + |S[idx]| <= |Concat(S)|
    ensures Concat(S)[|Concat(S[..idx])| + j..] == S[idx][j..] + Concat(S[idx + 1..])
  {
    Around(S, idx);
    var a := Concat(S[..idx]);
    assert Concat(S) == a + (S[idx] + Concat(S[idx + 1..]));
  }

  /** The current values are the text produced so far followed by the
      snapshot text not yet handled. */
  lemma {:induction false} CursorConcat(S: seq<UString>, values: seq<UString>, idx: nat, charpos: nat, xdiff: int, P: nat)
    requires Cursor(S, values, idx, charpos, xdiff, P)
    ensures P <= |Concat(S)|
    ensures Concat(values) == Done(values, idx, charpos, xdiff, P) + Concat(S)[P..]
  {
    if idx == |S| {
      assert S[..idx] == S && values[..idx] == values;
    } else {
      SliceAround(S, idx, P - charpos);
      ConcatAround(values, idx);
      assert values[idx + 1..] == S[idx + 1..];
      var v, f := values[idx], P - charpos + xdiff;
      DoneAt(values, idx, charpos, xdiff, P, f);
      ResplitMiddle(Concat(values), Concat(values[..idx]), v, Concat(S[idx + 1..]), f,
                 Done(values, idx, charpos, xdiff, P), Concat(S)[P..]);
    }
  }

  /** Inside token `idx`, the snapshot text between two of its offsets. */
  lemma SliceInside(S: seq<UString>, idx: nat, j: nat, k: nat)
    requires idx < |S| && j <= k <= |S[idx]|
    ensures |Concat(S[..idx])| + |S[idx]| <= |Concat(S)|
    ensures Concat(S)[|Concat(S[..idx])| + j..|Concat(S[..idx])| + k] == S[idx][j..k]
  {
    SliceAround(S, idx, j);
    var c := |Concat(S[..idx])|;
    assert Concat(S)[c + j..c + k] == Concat(S)[c + j..][..k - j];
    assert (S[idx][j..] + Concat(S[idx + 1..]))[..k - j] == S[idx][j..k];
  }

  /** A token value that ends with its snapshot text from offset `q` on. */
  lemma TokenShape(tok: UString, snap: UString, q: nat, x: int)
    requires q <= |snap| && 0 <= q + x <= |tok| && tok[q + x..] == snap[q..]
    ensures |tok| - x == |snap| && tok == tok[..q + x] + snap[q..]
  {
    assert tok == tok[..q + x] + tok[q + x..];
  }

  /** The slice assignment of the source on one token value. */
  lemma Rewrite(tok: UString, snap: UString, q: nat, x: int, mpos: nat, mlen: nat, r: UString,
                v: UString, f: int, q': nat, x': int)
    requires q <= mpos && mpos + mlen <= |snap| && 0 <= q + x <= |tok| && tok[q + x..] == snap[q..]
    requires 0 <= mpos + x && mpos + mlen + x <= |tok|
    requires v == tok[..mpos + x] + r + tok[mpos + mlen + x..]
    requires f == mpos + x + |r| && q' == mpos + mlen && x' == x + |r| - mlen
    ensures 0 <= f == q' + x' <= |v| && v[q' + x'..] == snap[q'..]
    ensures v[..f] == tok[..q + x] + snap[q..mpos] + r
  {
    TokenShape(tok, snap, q, x);
    assert tok[mpos + mlen + x..] == snap[mpos + mlen..];
    assert tok[..mpos + x] == tok[..q + x] + snap[q..mpos];
    assert v[f..] == tok[mpos + mlen + x..];
    assert v[..f] == tok[..mpos + x] + r;
  }

  /** The skipping loop passes token `idx`: its remaining snapshot text
      counts as produced unchanged. */
  lemma SkipStep(S: seq<UString>, values: seq<UString>, idx: nat, charpos: nat, xdiff: int, P: nat)
    requires Cursor(S, values, idx, charpos, xdiff, P) && idx < |S|
    ensures |values[idx]| - xdiff == |S[idx]| && charpos + |S[idx]| <= |Concat(S)|
    ensures Cursor(S, values, idx + 1, charpos + |S[idx]|, 0, charpos + |S[idx]|)
    ensures Done(values, idx + 1, charpos + |S[idx]|, 0, charpos + |S[idx]|)
         == Done(values, idx, charpos, xdiff, P) + Concat(S)[P..charpos + |S[idx]|]
  {
    SkipCursor(S, values, idx, charpos, xdiff, P);
    SkipDone(S, values, idx, charpos, xdiff, P);
  }

  lemma SkipCursor(S: seq<UString>, values: seq<UString>, idx: nat, charpos: nat, xdiff: int, P: nat)
    requires Cursor(S, values, idx, charpos, xdiff, P) && idx < |S|
    ensures Cursor(S, values, idx + 1, charpos + |S[idx]|, 0, charpos + |S[idx]|)
  {
    ConcatLength(S, idx);
    if idx + 1 < |S| {
      assert values[idx + 1] == S[idx + 1];
    }
  }

  lemma SkipDone(S: seq<UString>, values: seq<UString>, idx: nat, charpos: nat, xdiff: int, P: nat)
    requires |values| == |S| && idx < |S| && charpos == |Concat(S[..idx])| && charpos <= P
    requires P - charpos <= |S[idx]| && 0 <= P - charpos + xdiff <= |values[idx]|
    requires values[idx][P - charpos + xdiff..] == S[idx][P - charpos..]
    ensures |values[idx]| - xdiff == |S[idx]| && charpos + |S[idx]| <= |Concat(S)|
    ensures Done(values, idx + 1, charpos + |S[idx]|, 0, charpos + |S[idx]|)
         == Done(values, idx, charpos, xdiff, P) + Concat(S)[P..charpos + |S[idx]|]
  {
    var v, q, f := values[idx], P - charpos, P - charpos + xdiff;
    var e := charpos + |S[idx]|;
    TokenShape(v, S[idx], q, xdiff);
    SnapSlice(S, idx, charpos, P, e);
    assert S[idx][q..] == S[idx][q..e - charpos];
    DoneAt(values, idx, charpos, xdiff, P, f);
    DoneNext(values, idx, e);
    SplitTail(Done(values, idx + 1, e, 0, e), Concat(values[..idx]), v, v[..f], S[idx][q..], S[idx][q..e - charpos],
          Done(values, idx, charpos, xdiff, P), Concat(S)[P..e]);
  }

  /** Past token `idx`, all of it counts as produced. */
  lemma DoneNext(values: seq<UString>, idx: nat, charpos: nat)
    requires idx < |values|
    ensures Done(values, idx + 1, charpos, 0, charpos) == Concat(values[..idx]) + values[idx]
  {
    assert values[..idx + 1][..idx] == values[..idx];
    DoneWhole(values, idx + 1, charpos);
  }

  /** At the start of a token nothing of it is produced yet. */
  lemma DoneWhole(values: seq<UString>, idx: nat, charpos: nat)
    requires idx <= |values|
    ensures Done(values, idx, charpos, 0, charpos) == Concat(values[..idx])
  {
    if idx < |values| {
      assert values[idx][..0] == [];
    }
  }

  lemma SkipPending(S: seq<UString>, values: seq<UString>, idx: nat, charpos: nat, xdiff: int, P: nat, i1: nat, e: nat)
    requires Cursor(S, values, idx, charpos, xdiff, P) && idx < |S|
    requires e == charpos + |values[idx]| - xdiff && e <= i1 <= |Concat(S)| && P <= i1
    ensures e == charpos + |S[idx]|
    ensures Cursor(S, values, idx + 1, e, 0, e)
    ensures Pending(S, values, idx + 1, e, 0, e, i1) == Pending(S, values, idx, charpos, xdiff, P, i1)
  {
    SkipStep(S, values, idx, charpos, xdiff, P);
    var text := Concat(S);
    assert text[P..i1] == text[P..e] + text[e..i1];
    PendingAt(S, values, idx + 1, e, 0, e, i1);
    PendingAt(S, values, idx, charpos, xdiff, P, i1);
    JoinTails(Pending(S, values, idx + 1, e, 0, e, i1), Done(values, idx + 1, e, 0, e), text[e..i1],
           Done(values, idx, charpos, xdiff, P), text[P..e], text[P..i1], Pending(S, values, idx, charpos, xdiff, P, i1));
  }

  lemma PendingAt(S: seq<UString>, values: seq<UString>, idx: nat, charpos: nat, xdiff: int, P: nat, i1: nat)
    requires P <= i1 <= |Concat(S)|
    ensures Pending(S, values, idx, charpos, xdiff, P, i1) == Done(values, idx, charpos, xdiff, P) + Concat(S)[P..i1]
  {
  }

  /** The snapshot text between two absolute offsets inside token `idx`. */
  lemma SnapSlice(S: seq<UString>, idx: nat, c: nat, lo: nat, hi: nat)
    requires idx < |S| && c == |Concat(S[..idx])| && c <= lo <= hi <= c + |S[idx]|
    ensures c + |S[idx]| <= |Concat(S)|
    ensures Concat(S)[lo..hi] == S[idx][lo - c..hi - c]
  {
    SliceInside(S, idx, lo - c, hi - c);
  }

  /** Token `idx`'s new value, if it still ends with the snapshot text
      from `P'` on, keeps the cursor. */
  lemma CursorSet(S: seq<UString>, values: seq<UString>, idx: nat, charpos: nat, xdiff: int, P: nat, v: UString, x': int, P': nat)
    requires Cursor(S, values, idx, charpos, xdiff, P) && idx < |S|
    requires P <= P' && P' - charpos <= |S[idx]| && 0 <= P' - charpos + x' <= |v|
    requires v[P' - charpos + x'..] == S[idx][P' - charpos..]
    ensures Cursor(S, values[idx := v], idx, charpos, x', P')
  {
  }

  /** The produced text inside token `idx`. */
  lemma DoneAt(values: seq<UString>, idx: nat, charpos: nat, xdiff: int, P: nat, f: nat)
    requires idx < |values| && charpos <= P && f == P - charpos + xdiff && f <= |values[idx]|
    ensures Done(values, idx, charpos, xdiff, P) == Concat(values[..idx]) + values[idx][..f]
  {
  }

  lemma CursorAtEnd(S: seq<UString>, values: seq<UString>, idx: nat, charpos: nat, xdiff: int, P: nat)
    requires Cursor(S, values, idx, charpos, xdiff, P)
    ensures idx == |S| ==> charpos == |Concat(S)|
  {
    if idx == |S| {
      assert S[..idx] == S;
    }
  }

  // ---------------------------------------------------------------------
  // Per-unit bookkeeping

  /** The produced part of unit `k`: all of a unit before the cursor's, the
      rewritten front of the cursor's unit, nothing of a later one. */
  ghost function Front(values: seq<UString>, k: nat, idx: nat, charpos: nat, xdiff: int, P: nat): UString
    requires k < |values|
  {
    if k < idx then values[k]
    else if k == idx && 0 <= P - charpos + xdiff <= |values[k]| then values[k][..P - charpos + xdiff]
    else []
  }

  /** What the unit `[lo, hi)` holds of the replacement `r` of the match
      `[start, end)` once the handled text reaches `P`: its share once the
      handling has passed the unit's end or the match's, nothing before. */
  function Got(r: UString, start: nat, end: nat, P: nat, lo: nat, hi: nat): UString
  {
    if P >= hi || P >= end then Share(r, start, end, lo, hi) else []
  }

  /** The produced part of the unit `[lo, hi)` while the match `[start,
      end)` is replaced, given the part `f0` it had when the handling stood
      at `P0`. */
  function Track(f0: UString, text: UString, P0: nat, start: nat, end: nat, r: UString, P: nat, lo: nat, hi: nat): UString
  {
    f0 + Clip(text, P0, Min(P, start), lo, hi) + Got(r, start, end, P, lo, hi)
  }

  lemma TrackClip(f0: UString, text: UString, P0: nat, start: nat, end: nat, r: UString, P1: nat, P2: nat, lo: nat, hi: nat)
    requires P0 <= P1 <= P2 && start < end && hi <= |text|
    requires P2 <= start || P1 == P2
    ensures Track(f0, text, P0, start, end, r, P1, lo, hi) + Clip(text, P1, P2, lo, hi) == Track(f0, text, P0, start, end, r, P2, lo, hi)
  {
    if P1 < P2 {
      var c1, c2 := Clip(text, P0, P1, lo, hi), Clip(text, P1, P2, lo, hi);
      ClipJoin(text, P0, P1, P2, lo, hi);
      assert Min(P1, start) == P1 && Min(P2, start) == P2;
      assert Got(r, start, end, P1, lo, hi) == [] && Got(r, start, end, P2, lo, hi) == [];
      PrefixGrows(f0, c1, c2, Clip(text, P0, P2, lo, hi), f0 + c1, f0 + c1 + c2);
    } else {
      assert Clip(text, P1, P2, lo, hi) == [];
    }
  }

  /** A unit that ends before the handled text. */
  lemma TrackBefore(f0: UString, text: UString, P0: nat, start: nat, end: nat, r: UString, P: nat, P': nat, lo: nat, hi: nat)
    requires hi <= P <= P'
    ensures Track(f0, text, P0, start, end, r, P, lo, hi) == Track(f0, text, P0, start, end, r, P', lo, hi)
  {
    assert Min(Min(P, start), hi) == Min(Min(P', start), hi);
  }

  /** A unit that starts after the text handled in this step. */
  lemma TrackAfter(f0: UString, text: UString, P0: nat, start: nat, end: nat, r: UString, P: nat, P': nat, lo: nat, hi: nat)
    requires P < P' <= lo <= hi && start < P' <= end && P < end
    ensures Track(f0, text, P0, start, end, r, P, lo, hi) == f0
    ensures Track(f0, text, P0, start, end, r, P', lo, hi) == f0
  {
  }

  /** The cursor's unit takes the snapshot text up to `i1` and then `r`. */
  lemma TrackAt(f0: UString, text: UString, P0: nat, start: nat, end: nat, r0: UString, P: nat, i1: nat, i1': nat,
                lo: nat, hi: nat, r: UString)
    requires P0 <= P && lo <= P <= i1 < i1' <= hi <= |text| && start <= i1 < end
    requires i1' == Min(end, hi)
    requires (P <= start && i1 == start) || (P == i1 && lo == i1)
    requires r == if i1' < end then Take(Drop(r0, i1 - start), i1' - i1) else Drop(r0, i1 - start)
    ensures Track(f0, text, P0, start, end, r0, P, lo, hi) + (text[P..i1] + r) == Track(f0, text, P0, start, end, r0, i1', lo, hi)
  {
    assert Max(start, lo) == i1;
    var c, g := Clip(text, P0, Min(P, start), lo, hi), Got(r0, start, end, P, lo, hi);
    var c', g' := Clip(text, P0, Min(i1', start), lo, hi), Got(r0, start, end, i1', lo, hi);
    assert g == [];
    GotAt(r0, start, end, i1, i1', lo, hi, r);
    if P <= start {
      ClipInside(text, P, start, lo, hi);
      ClipJoin(text, P0, P, start, lo, hi);
      assert c + text[P..i1] == c';
    } else {
      assert text[P..i1] == [] && c == c';
    }
    MergeMiddle(f0, c, g, text[P..i1], r, c', g');
  }

  /** The cursor's unit's share of the match, once it is placed. */
  lemma GotAt(r0: UString, start: nat, end: nat, i1: nat, i1': nat, lo: nat, hi: nat, r: UString)
    requires lo <= i1 < i1' <= hi && start <= i1 < end && i1' == Min(end, hi) && Max(start, lo) == i1
    requires r == if i1' < end then Take(Drop(r0, i1 - start), i1' - i1) else Drop(r0, i1 - start)
    ensures Got(r0, start, end, i1', lo, hi) == r
  {
  }

  /** One pass of the skipping loop, for unit `k`: its produced part grows
      by its text in `[P, e)`. */
  lemma SkipFrontStep(S: seq<UString>, values: seq<UString>, idx: nat, charpos: nat, xdiff: int, P: nat, e: nat, k: nat)
    requires Cursor(S, values, idx, charpos, xdiff, P) && idx < |S| && e == charpos + |S[idx]| && k < |S|
    ensures Front(values, k, idx + 1, e, 0, e) == Front(values, k, idx, charpos, xdiff, P) + Clip(Concat(S), P, e, Lo(S, k), Hi(S, k))
  {
    var text := Concat(S);
    UnitText(S, k);
    if k < idx {
      HiBefore(S, k, idx);
    } else if k == idx {
      var q := P - charpos;
      TokenShape(values[idx], S[idx], q, xdiff);
      SnapSlice(S, idx, charpos, P, e);
      assert S[idx][q..] == S[idx][q..e - charpos];
      ClipInside(text, P, e, charpos, e);
    } else {
      HiBefore(S, idx, k);
      if k == idx + 1 {
        assert values[k][..0] == [];
      }
    }
  }

  /** Two clipped steps of the handling make one. */
  lemma ClipGrow(text: UString, f0: UString, f: UString, f': UString, P0: nat, P: nat, e: nat, lo: nat, hi: nat)
    requires P0 <= P <= e && hi <= |text|
    requires f == f0 + Clip(text, P0, P, lo, hi) && f' == f + Clip(text, P, e, lo, hi)
    ensures f' == f0 + Clip(text, P0, e, lo, hi)
  {
    ClipJoin(text, P0, P, e, lo, hi);
    PrefixGrows(f0, Clip(text, P0, P, lo, hi), Clip(text, P, e, lo, hi), Clip(text, P0, e, lo, hi), f, f');
  }

  lemma SkipFronts(S: seq<UString>, values: seq<UString>, idx0: nat, charpos0: nat, xdiff0: int, P0: nat,
                   idx: nat, charpos: nat, xdiff: int, P: nat, e: nat)
    requires Cursor(S, values, idx, charpos, xdiff, P) && idx < |S| && e == charpos + |S[idx]| && P0 <= P
    requires forall k :: 0 <= k < |S| ==>
      Front(values, k, idx, charpos, xdiff, P) == Front(values, k, idx0, charpos0, xdiff0, P0) + Clip(Concat(S), P0, P, Lo(S, k), Hi(S, k))
    ensures forall k :: 0 <= k < |S| ==>
      Front(values, k, idx + 1, e, 0, e) == Front(values, k, idx0, charpos0, xdiff0, P0) + Clip(Concat(S), P0, e, Lo(S, k), Hi(S, k))
  {
    forall k | 0 <= k < |S|
      ensures Front(values, k, idx + 1, e, 0, e) == Front(values, k, idx0, charpos0, xdiff0, P0) + Clip(Concat(S), P0, e, Lo(S, k), Hi(S, k))
    {
      SkipFrontStep(S, values, idx, charpos, xdiff, P, e, k);
      UnitText(S, k);
      ClipGrow(Concat(S), Front(values, k, idx0, charpos0, xdiff0, P0), Front(values, k, idx, charpos, xdiff, P),
               Front(values, k, idx + 1, e, 0, e), P0, P, e, Lo(S, k), Hi(S, k));
    }
  }

  /** The slice assignment of one step, for every unit. */
  lemma InTokenFront(S: seq<UString>, values: seq<UString>, idx: nat, charpos: nat, xdiff: int, P: nat, i1: nat, i1': nat,
                     r: UString, v: UString, xdiff': int)
    requires Cursor(S, values, idx, charpos, xdiff, P) && idx < |S|
    requires P <= i1 < i1' <= charpos + |S[idx]|
    requires 0 <= i1 - charpos + xdiff && i1' - charpos + xdiff <= |values[idx]|
    requires v == values[idx][..i1 - charpos + xdiff] + r + values[idx][i1' - charpos + xdiff..]
    requires xdiff' == xdiff + |r| - (i1' - i1)
    ensures i1 <= |Concat(S)|
    ensures forall k :: 0 <= k < |S| ==>
      Front(values[idx := v], k, idx, charpos, xdiff', i1') == Front(values, k, idx, charpos, xdiff, P) + (if k == idx then Concat(S)[P..i1] + r else [])
  {
    var tok := values[idx];
    var f := i1 - charpos + xdiff + |r|;
    Rewrite(tok, S[idx], P - charpos, xdiff, i1 - charpos, i1' - i1, r, v, f, i1' - charpos, xdiff');
    SnapSlice(S, idx, charpos, P, i1);
    assert Front(values[idx := v], idx, idx, charpos, xdiff', i1') == v[..f];
  }

  /** After the skipping, each unit's produced part still follows `Track`. */
  lemma TrackSkip(S: seq<UString>, text: UString, values: seq<UString>, values0: seq<UString>,
                  idx0: nat, charpos0: nat, xdiff0: int, P0: nat, idx1: nat, charpos1: nat, xdiff1: int, P1: nat,
                  idx2: nat, charpos2: nat, xdiff2: int, P2: nat, start: nat, end: nat, r0: UString)
    requires text == Concat(S) && |values| == |S| && |values0| == |S|
    requires P0 <= P1 <= P2 && start < end && (P2 <= start || P1 == P2)
    requires forall k :: 0 <= k < |S| ==>
      Front(values, k, idx1, charpos1, xdiff1, P1) == Track(Front(values0, k, idx0, charpos0, xdiff0, P0), text, P0, start, end, r0, P1, Lo(S, k), Hi(S, k))
    requires forall k :: 0 <= k < |S| ==>
      Front(values, k, idx2, charpos2, xdiff2, P2) == Front(values, k, idx1, charpos1, xdiff1, P1) + Clip(text, P1, P2, Lo(S, k), Hi(S, k))
    ensures forall k :: 0 <= k < |S| ==>
      Front(values, k, idx2, charpos2, xdiff2, P2) == Track(Front(values0, k, idx0, charpos0, xdiff0, P0), text, P0, start, end, r0, P2, Lo(S, k), Hi(S, k))
  {
    forall k | 0 <= k < |S|
      ensures Front(values, k, idx2, charpos2, xdiff2, P2) == Track(Front(values0, k, idx0, charpos0, xdiff0, P0), text, P0, start, end, r0, P2, Lo(S, k), Hi(S, k))
    {
      UnitText(S, k);
      TrackClip(Front(values0, k, idx0, charpos0, xdiff0, P0), text, P0, start, end, r0, P1, P2, Lo(S, k), Hi(S, k));
    }
  }

  /** After the slice assignment, each unit's produced part still follows
      `Track`. */
  lemma TrackReplace(S: seq<UString>, text: UString, values: seq<UString>, values': seq<UString>, values0: seq<UString>,
                     idx0: nat, charpos0: nat, xdiff0: int, P0: nat, idx: nat, charpos: nat, xdiff: int, P: nat,
                     xdiff': int, i1: nat, i1': nat, start: nat, end: nat, r0: UString, r: UString)
    requires text == Concat(S) && |values| == |S| && |values'| == |S| && |values0| == |S|
    requires idx < |S| && charpos == Lo(S, idx) && P0 <= P && charpos <= P <= i1 < i1' <= Hi(S, idx)
    requires start <= i1 < end && i1' == Min(end, Hi(S, idx))
    requires (P <= start && i1 == start) || (P == i1 && charpos == i1)
    requires r == if i1' < end then Take(Drop(r0, i1 - start), i1' - i1) else Drop(r0, i1 - start)
    requires Tracked(S, values0, idx0, charpos0, xdiff0, P0, start, end, r0, values, idx, charpos, xdiff, P)
    requires i1 <= |text|
    requires forall k :: 0 <= k < |S| ==>
      Front(values', k, idx, charpos, xdiff', i1') == Front(values, k, idx, charpos, xdiff, P) + (if k == idx then text[P..i1] + r else [])
    ensures Tracked(S, values0, idx0, charpos0, xdiff0, P0, start, end, r0, values', idx, charpos, xdiff', i1')
  {
    forall k | 0 <= k < |S|
      ensures Front(values', k, idx, charpos, xdiff', i1') == Track(Front(values0, k, idx0, charpos0, xdiff0, P0), text, P0, start, end, r0, i1', Lo(S, k), Hi(S, k))
    {
      var f0 := Front(values0, k, idx0, charpos0, xdiff0, P0);
      UnitText(S, k);
      if k < idx {
        HiBefore(S, k, idx);
        TrackBefore(f0, text, P0, start, end, r0, P, i1', Lo(S, k), Hi(S, k));
      } else if k == idx {
        TrackAt(f0, text, P0, start, end, r0, P, i1, i1', Lo(S, k), Hi(S, k), r);
      } else {
        HiBefore(S, idx, k);
        TrackAfter(f0, text, P0, start, end, r0, P, i1', Lo(S, k), Hi(S, k));
      }
    }
  }

  /** Once handling reaches the match's end, each unit has its kept text and
      its share. */
  lemma TrackDone(f0: UString, text: UString, P0: nat, start: nat, end: nat, r: UString, lo: nat, hi: nat)
    requires start <= end
    ensures Track(f0, text, P0, start, end, r, end, lo, hi) == f0 + Clip(text, P0, start, lo, hi) + Share(r, start, end, lo, hi)
  {
  }

  /** Before anything is handled, each unit has what it had. */
  lemma TrackStart(f0: UString, text: UString, P0: nat, start: nat, end: nat, r: UString, lo: nat, hi: nat)
    requires P0 <= start < end
    ensures Track(f0, text, P0, start, end, r, P0, lo, hi) == f0
  {
  }

  /** One match, for unit `[lo, hi)`: its produced part grows by its text
      before the match and its share of the replacement. */
  lemma UnitMatchStep(text: UString, spans: seq<Span>, fn: (UString, Span) -> UString, k: nat, P0: nat, P: nat,
                      lo: nat, hi: nat, f: UString, f': UString)
    requires k < |spans| && P0 <= |text| && hi <= |text| && SpansFrom(spans[k..], P0, |text|)
    requires spans[k].start < spans[k].end ==>
      P == spans[k].end && f' == f + Clip(text, P0, spans[k].start, lo, hi) + Share(fn(text, spans[k]), spans[k].start, spans[k].end, lo, hi)
    requires spans[k].start == spans[k].end ==> P == P0 && f' == f
    ensures f' + UnitSplice(text, spans[k + 1..], fn, P, lo, hi) == f + UnitSplice(text, spans[k..], fn, P0, lo, hi)
  {
    var sp := spans[k];
    var tail := spans[k + 1..];
    assert spans[k..][0] == sp && spans[k..][1..] == tail;
    SpansTail(spans[k..], P0, |text|);
    if sp.start == sp.end {
      if tail != [] {
        SpansTail(tail, sp.end, |text|);
      }
      UnitEmptyMatch(text, spans[k..], fn, P0, lo, hi);
    } else {
      UnitCons(text, spans[k..], fn, P0, lo, hi);
      AssocTail(f, Clip(text, P0, sp.start, lo, hi), Share(fn(text, sp), sp.start, sp.end, lo, hi),
              UnitSplice(text, tail, fn, sp.end, lo, hi));
    }
  }

  /** The first match's step of `UnitSplice`. */
  lemma UnitCons(text: UString, spans: seq<Span>, fn: (UString, Span) -> UString, pos: nat, lo: nat, hi: nat)
    requires spans != [] && pos <= spans[0].start <= spans[0].end <= |text|
    ensures UnitSplice(text, spans, fn, pos, lo, hi)
         == Clip(text, pos, spans[0].start, lo, hi)
            + (if spans[0].start < spans[0].end then Share(fn(text, spans[0]), spans[0].start, spans[0].end, lo, hi) else [])
            + UnitSplice(text, spans[1..], fn, spans[0].end, lo, hi)
  {
  }

  /** An empty match gives no unit anything. */
  lemma UnitEmptyMatch(text: UString, spans: seq<Span>, fn: (UString, Span) -> UString, pos: nat, lo: nat, hi: nat)
    requires spans != [] && pos <= spans[0].start == spans[0].end <= |text| && hi <= |text|
    requires |spans| > 1 ==> spans[0].end <= spans[1].start <= spans[1].end <= |text|
    ensures UnitSplice(text, spans, fn, pos, lo, hi) == UnitSplice(text, spans[1..], fn, pos, lo, hi)
  {
    var sp := spans[0];
    UnitCons(text, spans, fn, pos, lo, hi);
    if |spans| > 1 {
      assert spans[1..][0] == spans[1];
    }
    UnitShift(text, spans[1..], fn, pos, sp.end, lo, hi);
  }


  /** When a rule is done, each value is its produced part followed by its
      snapshot text not yet handled. */
  lemma UnitAtEnd(S: seq<UString>, values: seq<UString>, idx: nat, charpos: nat, xdiff: int, P: nat, j: nat)
    requires Cursor(S, values, idx, charpos, xdiff, P) && j < |S|
    ensures P <= |Concat(S)|
    ensures values[j] == Front(values, j, idx, charpos, xdiff, P) + Clip(Concat(S), P, |Concat(S)|, Lo(S, j), Hi(S, j))
  {
    var text := Concat(S);
    CursorConcat(S, values, idx, charpos, xdiff, P);
    UnitText(S, j);
    if j < idx {
      HiBefore(S, j, idx);
    } else if j == idx {
      var q := P - charpos;
      var e := charpos + |S[idx]|;
      TokenShape(values[idx], S[idx], q, xdiff);
      SnapSlice(S, idx, charpos, P, e);
      assert S[idx][q..] == S[idx][q..e - charpos];
      ClipInside(text, P, e, charpos, e);
    } else {
      HiBefore(S, idx, j);
      ClipInside(text, Lo(S, j), Hi(S, j), Lo(S, j), Hi(S, j));
    }
  }

  /** Python's clamping slices `s[:n]` and `s[n:]`. */
  function Take(s: UString, n: nat): (r: UString)
    ensures |r| <= n && r <= s
  {
    if n <= |s| then s[..n] else s
  }

  function Drop(s: UString, n: nat): (r: UString)
    ensures Take(s, n) + r == s
  {
    if n <= |s| then s[n..] else []
  }

  /** The inner loop that advances over the tokens lying wholly before
      snapshot position `i1`; it changes no value. */
  method SkipTokens(ghost S: seq<UString>, values: seq<UString>, idx0: nat, charpos0: nat, xdiff0: int, ghost P0: nat, i1: nat)
    returns (idx: nat, charpos: nat, xdiff: int, ghost P: nat)
    requires Cursor(S, values, idx0, charpos0, xdiff0, P0) && P0 <= i1 <= |Concat(S)|
    ensures Cursor(S, values, idx, charpos, xdiff, P) && P <= i1 && idx0 <= idx
    ensures idx == |values| || charpos + |values[idx]| - xdiff > i1
    ensures Pending(S, values, idx, charpos, xdiff, P, i1) == Pending(S, values, idx0, charpos0, xdiff0, P0, i1)
    ensures idx == idx0 ==> charpos == charpos0 && xdiff == xdiff0 && P == P0
    ensures idx > idx0 ==> charpos == P && xdiff == 0
    ensures P0 <= P
    ensures forall k :: 0 <= k < |S| ==>
      Front(values, k, idx, charpos, xdiff, P) == Front(values, k, idx0, charpos0, xdiff0, P0) + Clip(Concat(S), P0, P, Lo(S, k), Hi(S, k))
  {
    idx, charpos, xdiff, P := idx0, charpos0, xdiff0, P0;
    assert forall k :: 0 <= k < |S| ==> Clip(Concat(S), P0, P0, Lo(S, k), Hi(S, k)) == [];
    while idx < |values| && charpos + |values[idx]| - xdiff <= i1
      invariant Cursor(S, values, idx, charpos, xdiff, P) && P <= i1 && idx0 <= idx
      invariant Pending(S, values, idx, charpos, xdiff, P, i1) == Pending(S, values, idx0, charpos0, xdiff0, P0, i1)
      invariant idx == idx0 ==> charpos == charpos0 && xdiff == xdiff0 && P == P0
      invariant idx > idx0 ==> charpos == P && xdiff == 0
      invariant P0 <= P
      invariant forall k :: 0 <= k < |S| ==>
        Front(values, k, idx, charpos, xdiff, P) == Front(values, k, idx0, charpos0, xdiff0, P0) + Clip(Concat(S), P0, P, Lo(S, k), Hi(S, k))
      decreases |values| - idx
    {
      var next := charpos + |values[idx]| - xdiff;
      SkipPending(S, values, idx, charpos, xdiff, P, i1, next);
      SkipFronts(S, values, idx0, charpos0, xdiff0, P0, idx, charpos, xdiff, P, next);
      idx, charpos, xdiff, P := idx + 1, next, 0, next;
    }
  }

  lemma ReplaceBounds(S: seq<UString>, values: seq<UString>, idx: nat, charpos: nat, xdiff: int, P: nat, i1: nat, mlen: nat)
    requires Cursor(S, values, idx, charpos, xdiff, P) && idx < |S|
    requires P <= i1 && i1 - charpos + mlen <= |S[idx]|
    ensures |values[idx]| - xdiff == |S[idx]|
    ensures 0 <= i1 - charpos + xdiff && i1 - charpos + mlen + xdiff <= |values[idx]|
  {
    TokenShape(values[idx], S[idx], P - charpos, xdiff);
  }

  /** One replacement inside token `idx`: `mlen` snapshot characters from
      `i1` on are replaced by `r`, giving the token the value `v`. */
  lemma ReplacePending(S: seq<UString>, values: seq<UString>, idx: nat, charpos: nat, xdiff: int, P: nat, i1: nat, mlen: nat, r: UString,
                       v: UString, xdiff': int, i1': nat)
    requires Cursor(S, values, idx, charpos, xdiff, P) && idx < |S|
    requires P <= i1 && i1 - charpos + mlen <= |S[idx]|
    requires 0 <= i1 - charpos + xdiff && i1 - charpos + mlen + xdiff <= |values[idx]|
    requires v == values[idx][..i1 - charpos + xdiff] + r + values[idx][i1 - charpos + mlen + xdiff..]
    requires xdiff' == xdiff + |r| - mlen && i1' == i1 + mlen
    ensures Cursor(S, values[idx := v], idx, charpos, xdiff', i1')
    ensures Pending(S, values[idx := v], idx, charpos, xdiff', i1', i1') == Pending(S, values, idx, charpos, xdiff, P, i1) + r
  {
    var tok := values[idx];
    SnapSlice(S, idx, charpos, P, i1);
    var f := i1 - charpos + xdiff + |r|;
    Rewrite(tok, S[idx], P - charpos, xdiff, i1 - charpos, mlen, r, v, f, i1' - charpos, xdiff');
    CursorSet(S, values, idx, charpos, xdiff, P, v, xdiff', i1');
    var values' := values[idx := v];
    assert values'[..idx] == values[..idx];
    DoneAt(values, idx, charpos, xdiff, P, P - charpos + xdiff);
    DoneAt(values', idx, charpos, xdiff', i1', f);
    PendingAt(S, values, idx, charpos, xdiff, P, i1);
    PendingAt(S, values', idx, charpos, xdiff', i1', i1');
    var text := Concat(S);
    assert text[i1'..i1'] == [];
    ReplacedGrowth(Pending(S, values', idx, charpos, xdiff', i1', i1'), Done(values', idx, charpos, xdiff', i1'), text[i1'..i1'],
             Concat(values'[..idx]), v[..f], Concat(values[..idx]), tok[..P - charpos + xdiff], S[idx][P - charpos..i1 - charpos], r,
             Done(values, idx, charpos, xdiff, P), text[P..i1], Pending(S, values, idx, charpos, xdiff, P, i1));
  }

  /** One pass of the `while i1 < i2` loop after the skipping: the match
      continues in token `idx` from snapshot position `i1`. */
  method ReplaceInToken(ghost S: seq<UString>, values: seq<UString>, idx: nat, charpos: nat, xdiff: int, ghost P: nat,
                        i1: nat, end: nat, replacement: UString)
    returns (values': seq<UString>, xdiff': int, i1': nat, replacement': UString)
    requires Cursor(S, values, idx, charpos, xdiff, P) && idx < |values|
    requires P <= i1 < end <= |Concat(S)| && charpos <= i1 < charpos + |values[idx]| - xdiff
    ensures Cursor(S, values', idx, charpos, xdiff', i1') && i1 < i1' <= end
    ensures Pending(S, values', idx, charpos, xdiff', i1', i1') + replacement'
         == Pending(S, values, idx, charpos, xdiff, P, i1) + replacement
    ensures i1' == end ==> replacement' == []
    ensures i1' == Min(end, Hi(S, idx)) && (i1' < end ==> i1' == Hi(S, idx))
    ensures 0 <= i1 - charpos + xdiff && i1' - charpos + xdiff <= |values[idx]|
    ensures var r := if i1' < end then Take(replacement, i1' - i1) else replacement;
      values' == values[idx := values[idx][..i1 - charpos + xdiff] + r + values[idx][i1' - charpos + xdiff..]]
      && xdiff' == xdiff + |r| - (i1' - i1)
    ensures replacement' == if i1' < end then Drop(replacement, i1' - i1) else []
  {
    var tok := values[idx];
    var mpos := i1 - charpos;
    var mlen := if end - i1 <= |tok| - xdiff - mpos then end - i1 else |tok| - xdiff - mpos;
    assert mlen >= 1;
    var r: UString;
    if mlen < end - i1 {
      r := Take(replacement, mlen);
      replacement' := Drop(replacement, mlen);
    } else {
      r := replacement;
      replacement' := [];
    }
    ReplaceBounds(S, values, idx, charpos, xdiff, P, i1, mlen);
    var value := tok[..mpos + xdiff] + r + tok[mpos + mlen + xdiff..];
    values' := values[idx := value];
    xdiff' := xdiff + |r| - mlen;
    i1' := i1 + mlen;
    ReplacePending(S, values, idx, charpos, xdiff, P, i1, mlen, r, value, xdiff', i1');
    AppendRest(Pending(S, values', idx, charpos, xdiff', i1', i1'), Pending(S, values, idx, charpos, xdiff, P, i1),
               r, replacement', replacement);
  }

  /** Every unit holds what `Track` says, with the handling at `P`. */
  ghost predicate Tracked(S: seq<UString>, values0: seq<UString>, idx0: nat, charpos0: nat, xdiff0: int, P0: nat,
                          start: nat, end: nat, r0: UString, values: seq<UString>, idx: nat, charpos: nat, xdiff: int, P: nat)
    requires |values| == |S| && |values0| == |S|
  {
    forall k :: 0 <= k < |S| ==>
      Front(values, k, idx, charpos, xdiff, P)
        == Track(Front(values0, k, idx0, charpos0, xdiff0, P0), Concat(S), P0, start, end, r0, P, Lo(S, k), Hi(S, k))
  }

  /** Where the loop over the match `[start, end)` with replacement `r0`
      stands at `i1`, having started at the cursor `idx0, charpos0, xdiff0,
      P0` over `values0`: the rest of the replacement is still to be placed,
      and every unit holds what `Track` says. */
  ghost predicate Placing(S: seq<UString>, values0: seq<UString>, idx0: nat, charpos0: nat, xdiff0: int, P0: nat,
                          start: nat, end: nat, r0: UString,
                          values: seq<UString>, idx: nat, charpos: nat, xdiff: int, P: nat, i1: nat, replacement: UString)
  {
    Cursor(S, values, idx, charpos, xdiff, P) && |values0| == |S| && P0 <= P <= i1 <= end && start <= i1
    && (i1 > start ==> P == i1)
    && (i1 < end ==> replacement == Drop(r0, i1 - start))
    && (start < i1 < end ==> idx < |S| && P == Hi(S, idx))
    && (start < end ==> Tracked(S, values0, idx0, charpos0, xdiff0, P0, start, end, r0, values, idx, charpos, xdiff, P))
  }

  /** The skipping half of a pass of the `while i1 < i2` loop. */
  method SkipToMatch(ghost S: seq<UString>, values: seq<UString>, idx: nat, charpos: nat, xdiff: int, ghost P: nat,
                     i1: nat, end: nat, ghost replacement: UString,
                     ghost values0: seq<UString>, ghost idx0: nat, ghost charpos0: nat, ghost xdiff0: int, ghost P0: nat,
                     ghost start: nat, ghost r0: UString)
    returns (idx': nat, charpos': nat, xdiff': int, ghost P': nat)
    requires Placing(S, values0, idx0, charpos0, xdiff0, P0, start, end, r0, values, idx, charpos, xdiff, P, i1, replacement)
    requires i1 < end <= |Concat(S)|
    ensures Cursor(S, values, idx', charpos', xdiff', P') && idx' < |S| && P0 <= P' <= i1
    ensures charpos' <= i1 < charpos' + |values[idx']| - xdiff'
    ensures (P' <= start && i1 == start) || (P' == i1 && charpos' == i1)
    ensures Pending(S, values, idx', charpos', xdiff', P', i1) == Pending(S, values, idx, charpos, xdiff, P, i1)
    ensures Tracked(S, values0, idx0, charpos0, xdiff0, P0, start, end, r0, values, idx', charpos', xdiff', P')
  {
    if i1 > start {
      TokenShape(values[idx], S[idx], P - charpos, xdiff);
    }
    // Skip the tokens that lie wholly before `i1`.
    idx', charpos', xdiff', P' := SkipTokens(S, values, idx, charpos, xdiff, P, i1);
    // The source leaves the loop when no token is left; a match inside
    // the text always finds one.
    CursorAtEnd(S, values, idx', charpos', xdiff', P');
    assert idx' < |values|;
    TrackSkip(S, Concat(S), values, values0, idx0, charpos0, xdiff0, P0, idx, charpos, xdiff, P,
              idx', charpos', xdiff', P', start, end, r0);
  }

  /** The replacing half of a pass of the `while i1 < i2` loop: the part of
      the match that lies in token `idx`. */
  method PlaceInToken(ghost S: seq<UString>, values: seq<UString>, idx: nat, charpos: nat, xdiff: int, ghost P: nat,
                      i1: nat, end: nat, replacement: UString,
                      ghost values0: seq<UString>, ghost idx0: nat, ghost charpos0: nat, ghost xdiff0: int, ghost P0: nat,
                      ghost start: nat, ghost r0: UString)
    returns (values': seq<UString>, xdiff': int, i1': nat, replacement': UString)
    requires Cursor(S, values, idx, charpos, xdiff, P) && idx < |S| && P0 <= P <= i1 && |values0| == |S|
    requires start <= i1 < end <= |Concat(S)| && charpos <= i1 < charpos + |values[idx]| - xdiff
    requires (P <= start && i1 == start) || (P == i1 && charpos == i1)
    requires replacement == Drop(r0, i1 - start)
    requires Tracked(S, values0, idx0, charpos0, xdiff0, P0, start, end, r0, values, idx, charpos, xdiff, P)
    ensures Placing(S, values0, idx0, charpos0, xdiff0, P0, start, end, r0, values', idx, charpos, xdiff', i1', i1', replacement')
    ensures i1 < i1' && (i1' == end ==> replacement' == [])
    ensures Pending(S, values', idx, charpos, xdiff', i1', i1') + replacement'
         == Pending(S, values, idx, charpos, xdiff, P, i1) + replacement
  {
    values', xdiff', i1', replacement' := ReplaceInToken(S, values, idx, charpos, xdiff, P, i1, end, replacement);
    PlaceTrack(S, values, idx, charpos, xdiff, P, i1, end, replacement, values0, idx0, charpos0, xdiff0, P0, start, r0,
               values', xdiff', i1', replacement');
    DropRest(r0, replacement, replacement', start, i1, i1', end);
  }

  /** What the slice assignment of `PlaceInToken` does to every unit. */
  lemma PlaceTrack(S: seq<UString>, values: seq<UString>, idx: nat, charpos: nat, xdiff: int, P: nat,
                   i1: nat, end: nat, replacement: UString,
                   values0: seq<UString>, idx0: nat, charpos0: nat, xdiff0: int, P0: nat, start: nat, r0: UString,
                   values': seq<UString>, xdiff': int, i1': nat, replacement': UString)
    requires Cursor(S, values, idx, charpos, xdiff, P) && idx < |S| && P0 <= P <= i1 && |values0| == |S|
    requires start <= i1 < end <= |Concat(S)|
    requires (P <= start && i1 == start) || (P == i1 && charpos == i1)
    requires replacement == Drop(r0, i1 - start)
    requires Tracked(S, values0, idx0, charpos0, xdiff0, P0, start, end, r0, values, idx, charpos, xdiff, P)
    requires i1 < i1' == Min(end, Hi(S, idx))
    requires 0 <= i1 - charpos + xdiff && i1' - charpos + xdiff <= |values[idx]|
    requires var r := if i1' < end then Take(replacement, i1' - i1) else replacement;
      values' == values[idx := values[idx][..i1 - charpos + xdiff] + r + values[idx][i1' - charpos + xdiff..]]
      && xdiff' == xdiff + |r| - (i1' - i1)
    requires replacement' == if i1' < end then Drop(replacement, i1' - i1) else []
    ensures Tracked(S, values0, idx0, charpos0, xdiff0, P0, start, end, r0, values', idx, charpos, xdiff', i1')
  {
    var r := if i1' < end then Take(replacement, i1' - i1) else replacement;
    InTokenFront(S, values, idx, charpos, xdiff, P, i1, i1', r, values'[idx], xdiff');
    TrackReplace(S, Concat(S), values, values', values0, idx0, charpos0, xdiff0, P0, idx, charpos, xdiff, P,
                 xdiff', i1, i1', start, end, r0, r);
  }

  /** What is left of the replacement once the handling moves from `i1` to
      `i1'`. */
  lemma DropRest(r0: UString, rest: UString, rest': UString, start: nat, i1: nat, i1': nat, end: nat)
    requires start <= i1 <= i1' && rest == Drop(r0, i1 - start)
    requires rest' == if i1' < end then Drop(rest, i1' - i1) else []
    ensures i1' < end ==> rest' == Drop(r0, i1' - start)
  {
    DropDrop(r0, i1 - start, i1' - i1);
    assert i1 - start + (i1' - i1) == i1' - start;
  }

  /** The `while i1 < i2` loop for one match `[start, end)` of the snapshot
      text, with its replacement: the match's text, spread over however
      many tokens produced it, is replaced by the replacement, each token
      but the last taking as many characters of it as it loses. */
  method ReplaceMatch(ghost S: seq<UString>, values0: seq<UString>, idx0: nat, charpos0: nat, xdiff0: int, ghost P0: nat,
                      start: nat, end: nat, replacement0: UString)
    returns (values: seq<UString>, idx: nat, charpos: nat, xdiff: int, ghost P: nat)
    requires Cursor(S, values0, idx0, charpos0, xdiff0, P0) && P0 <= start <= end <= |Concat(S)|
    ensures Cursor(S, values, idx, charpos, xdiff, P)
    ensures start < end ==>
      P == end && Done(values, idx, charpos, xdiff, P) == Pending(S, values0, idx0, charpos0, xdiff0, P0, start) + replacement0
    ensures start == end ==> values == values0 && idx == idx0 && charpos == charpos0 && xdiff == xdiff0 && P == P0
    ensures start < end ==> forall k :: 0 <= k < |S| ==>
      Front(values, k, idx, charpos, xdiff, P)
        == Front(values0, k, idx0, charpos0, xdiff0, P0) + Clip(Concat(S), P0, start, Lo(S, k), Hi(S, k))
           + Share(replacement0, start, end, Lo(S, k), Hi(S, k))
  {
    ghost var goal := Pending(S, values0, idx0, charpos0, xdiff0, P0, start) + replacement0;
    ghost var text := Concat(S);
    values, idx, charpos, xdiff, P := values0, idx0, charpos0, xdiff0, P0;
    var i1 := start;
    var replacement := replacement0;
    if start < end {
      forall k | 0 <= k < |S|
        ensures Front(values0, k, idx0, charpos0, xdiff0, P0)
             == Track(Front(values0, k, idx0, charpos0, xdiff0, P0), text, P0, start, end, replacement0, P0, Lo(S, k), Hi(S, k))
      {
        TrackStart(Front(values0, k, idx0, charpos0, xdiff0, P0), text, P0, start, end, replacement0, Lo(S, k), Hi(S, k));
      }
    }
    assert Drop(replacement0, 0) == replacement0;
    while i1 < end
      invariant Placing(S, values0, idx0, charpos0, xdiff0, P0, start, end, replacement0, values, idx, charpos, xdiff, P, i1, replacement)
      invariant Pending(S, values, idx, charpos, xdiff, P, i1) + replacement == goal
      invariant i1 > start && i1 == end ==> replacement == []
      invariant i1 == start ==> values == values0 && idx == idx0 && charpos == charpos0 && xdiff == xdiff0 && P == P0
      decreases end - i1
    {
      idx, charpos, xdiff, P := SkipToMatch(S, values, idx, charpos, xdiff, P, i1, end, replacement,
                                            values0, idx0, charpos0, xdiff0, P0, start, replacement0);
      values, xdiff, i1, replacement := PlaceInToken(S, values, idx, charpos, xdiff, P, i1, end, replacement,
                                                     values0, idx0, charpos0, xdiff0, P0, start, replacement0);
      P := i1;
    }
    if start < end {
      forall k | 0 <= k < |S|
        ensures Track(Front(values0, k, idx0, charpos0, xdiff0, P0), text, P0, start, end, replacement0, end, Lo(S, k), Hi(S, k))
             == Front(values0, k, idx0, charpos0, xdiff0, P0) + Clip(text, P0, start, Lo(S, k), Hi(S, k))
                + Share(replacement0, start, end, Lo(S, k), Hi(S, k))
      {
        TrackDone(Front(values0, k, idx0, charpos0, xdiff0, P0), text, P0, start, end, replacement0, Lo(S, k), Hi(S, k));
      }
    }
  }

  /** The matches after the first one start no earlier than its end. */
  lemma SpansTail(spans: seq<Span>, pos: nat, n: nat)
    requires SpansFrom(spans, pos, n) && spans != []
    ensures pos <= spans[0].start <= spans[0].end <= n
    ensures SpansFrom(spans[1..], spans[0].end, n)
  {
    assert forall k :: 0 <= k < |spans| - 1 ==> spans[1..][k] == spans[k + 1];
  }

  /** The first match's step of `Splice`. */
  lemma SpliceCons(text: UString, spans: seq<Span>, fn: (UString, Span) -> UString, pos: nat)
    requires spans != [] && pos <= spans[0].start <= spans[0].end <= |text|
    ensures Splice(text, spans, fn, pos)
         == text[pos..spans[0].start] + (if spans[0].start < spans[0].end then fn(text, spans[0]) else [])
            + Splice(text, spans[1..], fn, spans[0].end)
  {
  }

  /** Starting the splice earlier only adds the unchanged text in between. */
  lemma SpliceShift(text: UString, spans: seq<Span>, fn: (UString, Span) -> UString, pos: nat, mid: nat)
    requires pos <= mid <= |text|
    requires spans != [] ==> mid <= spans[0].start <= spans[0].end <= |text|
    ensures Splice(text, spans, fn, pos) == text[pos..mid] + Splice(text, spans, fn, mid)
  {
    if spans == [] {
      assert text[pos..] == text[pos..mid] + text[mid..];
    } else {
      var sp := spans[0];
      var a, b := text[pos..mid], text[mid..sp.start];
      var m := if sp.start < sp.end then fn(text, sp) else [];
      var t := Splice(text, spans[1..], fn, sp.end);
      SpliceCons(text, spans, fn, pos);
      SpliceCons(text, spans, fn, mid);
      assert text[pos..sp.start] == a + b;
      AssocTail(a, b, m, t);
    }
  }

  /** One match of the rule's loop: replaces it in the tokens and moves the
      splice on past it. */
  lemma MatchStep(text: UString, spans: seq<Span>, fn: (UString, Span) -> UString, k: nat, P: nat, done: UString, done': UString, P': nat)
    requires k < |spans| && P <= |text| && SpansFrom(spans[k..], P, |text|)
    requires spans[k].start < spans[k].end ==> P' == spans[k].end && done' == done + text[P..spans[k].start] + fn(text, spans[k])
    requires spans[k].start == spans[k].end ==> P' == P && done' == done
    ensures P' <= |text| && SpansFrom(spans[k + 1..], P', |text|)
    ensures done' + Splice(text, spans[k + 1..], fn, P') == done + Splice(text, spans[k..], fn, P)
  {
    var sp := spans[k];
    var tail := spans[k + 1..];
    assert spans[k..][0] == sp && spans[k..][1..] == tail;
    SpansTail(spans[k..], P, |text|);
    var rest := Splice(text, tail, fn, sp.end);
    assert Splice(text, spans[k..], fn, P) == text[P..sp.start] + (if sp.start < sp.end then fn(text, sp) else []) + rest;
    if tail != [] {
      SpansTail(tail, sp.end, |text|);
    }
    if sp.start == sp.end {
      SpliceShift(text, tail, fn, P, sp.end);
      assert text[P..sp.start] + [] + rest == text[P..sp.end] + rest;
    }
  }

  /** One rule (`for m in pattern.finditer(text_content)`) on the tokens'
      values: their concatenation becomes the rule's result on the
      concatenation they had. */
  method ApplyRuleToValues(rule: Rule, values0: seq<UString>) returns (values: seq<UString>)
    requires ValidRule(rule)
    ensures |values| == |values0|
    ensures Concat(values) == ApplyRule(Concat(values0), rule)
    ensures values == RuleOnUnits(rule, values0)
  {
    var textContent := Concat(values0);
    ghost var S := values0;
    values := values0;
    var idx: nat, charpos: nat, xdiff: int := 0, 0, 0;
    ghost var P: nat := 0;
    assert S[..0] == [];
    var matches := rule.find(textContent);
    ghost var goal := ApplyRule(textContent, rule);
    assert SpansFrom(matches, 0, |textContent|);
    assert matches[0..] == matches;
    ghost var units := RuleOnUnits(rule, values0);
    UnitsAtStart(rule, values0);
    var k := 0;
    while k < |matches|
      invariant k <= |matches| && Cursor(S, values, idx, charpos, xdiff, P)
      invariant P <= |textContent| && SpansFrom(matches[k..], P, |textContent|)
      invariant goal == Done(values, idx, charpos, xdiff, P) + Splice(textContent, matches[k..], rule.fn, P)
      invariant forall j :: 0 <= j < |S| ==>
        units[j] == Front(values, j, idx, charpos, xdiff, P) + UnitSplice(textContent, matches[k..], rule.fn, P, Lo(S, j), Hi(S, j))
    {
      values, idx, charpos, xdiff, P := ApplyMatch(S, textContent, rule.fn, matches, k, values, idx, charpos, xdiff, P);
      k := k + 1;
    }
    CursorConcat(S, values, idx, charpos, xdiff, P);
    UnitsAtEnd(S, values, idx, charpos, xdiff, P, rule.fn, matches[k..], units);
  }

  /** Before any match is handled, every unit is still to be produced. */
  lemma UnitsAtStart(rule: Rule, vs: seq<UString>)
    requires ValidRule(rule) && Cursor(vs, vs, 0, 0, 0, 0)
    ensures forall j :: 0 <= j < |vs| ==>
      RuleOnUnits(rule, vs)[j] == Front(vs, j, 0, 0, 0, 0) + UnitSplice(Concat(vs), rule.find(Concat(vs)), rule.fn, 0, Lo(vs, j), Hi(vs, j))
  {
    forall j | 0 <= j < |vs|
      ensures Front(vs, j, 0, 0, 0, 0) == []
    {
      if j == 0 {
        assert vs[0][..0] == [];
      }
    }
  }

  /** When the matches are used up, every value is what the units' reference
      gives it. */
  lemma UnitsAtEnd(S: seq<UString>, values: seq<UString>, idx: nat, charpos: nat, xdiff: int, P: nat,
                   fn: (UString, Span) -> UString, rest: seq<Span>, units: seq<UString>)
    requires Cursor(S, values, idx, charpos, xdiff, P) && rest == [] && |units| == |S|
    requires forall j :: 0 <= j < |S| ==>
      units[j] == Front(values, j, idx, charpos, xdiff, P) + UnitSplice(Concat(S), rest, fn, P, Lo(S, j), Hi(S, j))
    ensures values == units
  {
    forall j | 0 <= j < |S|
      ensures values[j] == units[j]
    {
      UnitAtEnd(S, values, idx, charpos, xdiff, P, j);
    }
  }

  /** One pass of the rule's loop: match `k` is replaced in the tokens. */
  method ApplyMatch(ghost S: seq<UString>, textContent: UString, fn: (UString, Span) -> UString, matches: seq<Span>, k: nat,
                    values0: seq<UString>, idx0: nat, charpos0: nat, xdiff0: int, ghost P0: nat)
    returns (values: seq<UString>, idx: nat, charpos: nat, xdiff: int, ghost P: nat)
    requires textContent == Concat(S) && k < |matches| && Cursor(S, values0, idx0, charpos0, xdiff0, P0)
    requires P0 <= |textContent| && SpansFrom(matches[k..], P0, |textContent|)
    ensures Cursor(S, values, idx, charpos, xdiff, P)
    ensures P <= |textContent| && SpansFrom(matches[k + 1..], P, |textContent|)
    ensures Done(values, idx, charpos, xdiff, P) + Splice(textContent, matches[k + 1..], fn, P)
         == Done(values0, idx0, charpos0, xdiff0, P0) + Splice(textContent, matches[k..], fn, P0)
    ensures forall j :: 0 <= j < |S| ==>
      Front(values, j, idx, charpos, xdiff, P) + UnitSplice(textContent, matches[k + 1..], fn, P, Lo(S, j), Hi(S, j))
        == Front(values0, j, idx0, charpos0, xdiff0, P0) + UnitSplice(textContent, matches[k..], fn, P0, Lo(S, j), Hi(S, j))
  {
    var m := matches[k];
    assert matches[k..][0] == m;
    var replacement := fn(textContent, m);
    ghost var done := Done(values0, idx0, charpos0, xdiff0, P0);
    values, idx, charpos, xdiff, P := ReplaceMatch(S, values0, idx0, charpos0, xdiff0, P0, m.start, m.end, replacement);
    MatchStep(textContent, matches, fn, k, P0, done, Done(values, idx, charpos, xdiff, P), P);
    forall j | 0 <= j < |S|
      ensures Front(values, j, idx, charpos, xdiff, P) + UnitSplice(textContent, matches[k + 1..], fn, P, Lo(S, j), Hi(S, j))
           == Front(values0, j, idx0, charpos0, xdiff0, P0) + UnitSplice(textContent, matches[k..], fn, P0, Lo(S, j), Hi(S, j))
    {
      UnitText(S, j);
      UnitMatchStep(textContent, matches, fn, k, P0, P, Lo(S, j), Hi(S, j),
                    Front(values0, j, idx0, charpos0, xdiff0, P0), Front(values, j, idx, charpos, xdiff, P));
    }
  }

  // ---------------------------------------------------------------------
  // Properties of a rule's effect

  /** Empty matches replace nothing: a rule all of whose matches are empty
      leaves the text as it is. */
  lemma {:induction false} SpliceEmptyMatches(text: UString, spans: seq<Span>, fn: (UString, Span) -> UString, pos: nat)
    requires pos <= |text| && SpansFrom(spans, pos, |text|)
    requires forall k :: 0 <= k < |spans| ==> spans[k].start == spans[k].end
    ensures Splice(text, spans, fn, pos) == text[pos..]
    decreases |spans|
  {
    if spans != [] {
      var sp := spans[0];
      SpansTail(spans, pos, |text|);
      SpliceCons(text, spans, fn, pos);
      SpliceEmptyMatches(text, spans[1..], fn, sp.end);
      assert text[pos..] == text[pos..sp.start] + text[sp.end..];
    }
  }

  /** The empty text has only empty matches, so every rule leaves it empty. */
  lemma {:induction false} ApplyRulesEmpty(rules: seq<Rule>)
    requires forall i :: 0 <= i < |rules| ==> ValidRule(rules[i])
    ensures ApplyRules([], rules) == []
    decreases |rules|
  {
    if rules != [] {
      var e: UString := [];
      var spans := rules[0].find(e);
      assert SpansFrom(spans, 0, |e|);
      SpliceEmptyMatches(e, spans, rules[0].fn, 0);
      ApplyRulesEmpty(rules[1..]);
    }
  }

  /** The replacements' total effect on the length. */
  function Growth(text: UString, spans: seq<Span>, fn: (UString, Span) -> UString): int
    decreases |spans|
  {
    if spans == [] then 0
    else
      var sp := spans[0];
      (if sp.start < sp.end then |fn(text, sp)| - (sp.end - sp.start) else 0) + Growth(text, spans[1..], fn)
  }

  /** The result is as long as the text, plus each replacement, less each
      text it replaces. */
  lemma {:induction false} SpliceLength(text: UString, spans: seq<Span>, fn: (UString, Span) -> UString, pos: nat)
    requires pos <= |text| && SpansFrom(spans, pos, |text|)
    ensures |Splice(text, spans, fn, pos)| == |text| - pos + Growth(text, spans, fn)
    decreases |spans|
  {
    if spans != [] {
      var sp := spans[0];
      SpansTail(spans, pos, |text|);
      SpliceCons(text, spans, fn, pos);
      SpliceLength(text, spans[1..], fn, sp.end);
    }
  }

  /** The text up to a point before the first match survives one step. */
  lemma FrontBeforeMatch(text: UString, spans: seq<Span>, fn: (UString, Span) -> UString, pos: nat, upto: nat)
    requires spans != [] && pos <= upto <= spans[0].start <= spans[0].end <= |text|
    ensures |Splice(text, spans, fn, pos)| >= upto - pos
    ensures Splice(text, spans, fn, pos)[..upto - pos] == text[pos..upto]
  {
    var sp := spans[0];
    SpliceCons(text, spans, fn, pos);
    var m := if sp.start < sp.end then fn(text, sp) else [];
    TakeFront(text[pos..sp.start], m, Splice(text, spans[1..], fn, sp.end), upto - pos);
    assert text[pos..sp.start][..upto - pos] == text[pos..upto];
  }

  /** An empty first match passes the kept text on to the next step. */
  lemma FrontPastEmpty(text: UString, spans: seq<Span>, fn: (UString, Span) -> UString, pos: nat, upto: nat)
    requires spans != [] && pos <= spans[0].start == spans[0].end < upto <= |text|
    requires var rest := Splice(text, spans[1..], fn, spans[0].end);
      |rest| >= upto - spans[0].end && rest[..upto - spans[0].end] == text[spans[0].end..upto]
    ensures |Splice(text, spans, fn, pos)| >= upto - pos
    ensures Splice(text, spans, fn, pos)[..upto - pos] == text[pos..upto]
  {
    var sp := spans[0];
    SpliceCons(text, spans, fn, pos);
    var a, rest := text[pos..sp.start], Splice(text, spans[1..], fn, sp.end);
    var m: UString := if sp.start < sp.end then fn(text, sp) else [];
    SliceSplit(text, pos, sp.start, upto);
    PrefixPastEmpty(Splice(text, spans, fn, pos), a, m, rest, upto - pos, text[sp.end..upto], text[pos..upto]);
  }

  /** The text before the first non-empty match is kept as it was. */
  lemma {:induction false} SpliceKeepsFront(text: UString, spans: seq<Span>, fn: (UString, Span) -> UString, pos: nat, upto: nat)
    requires pos <= upto <= |text| && SpansFrom(spans, pos, |text|)
    requires forall k :: 0 <= k < |spans| && spans[k].start < spans[k].end ==> upto <= spans[k].start
    ensures |Splice(text, spans, fn, pos)| >= upto - pos
    ensures Splice(text, spans, fn, pos)[..upto - pos] == text[pos..upto]
    decreases |spans|
  {
    if spans == [] {
    } else if upto <= spans[0].start {
      SpansTail(spans, pos, |text|);
      FrontBeforeMatch(text, spans, fn, pos, upto);
    } else {
      SpansTail(spans, pos, |text|);
      assert forall k :: 0 <= k < |spans| - 1 ==> spans[1..][k] == spans[k + 1];
      SpliceKeepsFront(text, spans[1..], fn, spans[0].end, upto);
      FrontPastEmpty(text, spans, fn, pos, upto);
    }
  }

  // ---------------------------------------------------------------------
  // The whole update

  /** The current values of the collected tokens, in order. */
  function Values(units: seq<TextLayer.TextUnit>, tt: seq<nat>): (vs: seq<UString>)
    requires forall k :: 0 <= k < |tt| ==> tt[k] < |units|
    ensures |vs| == |tt| && forall k :: 0 <= k < |tt| ==> vs[k] == units[tt[k]].value
  {
    seq(|tt|, k requires 0 <= k < |tt| => units[tt[k]].value)
  }

  /** Stores `vs` as the values of the collected tokens (`tok.value = ...`). */
  method WriteBack(units0: seq<TextLayer.TextUnit>, tt: seq<nat>, vs: seq<UString>) returns (units: seq<TextLayer.TextUnit>)
    requires TextLayer.Increasing(tt) && |vs| == |tt|
    requires forall k :: 0 <= k < |tt| ==> tt[k] < |units0|
    ensures |units| == |units0|
    ensures forall k :: 0 <= k < |tt| ==> units[tt[k]] == units0[tt[k]].(value := vs[k])
    ensures forall u :: 0 <= u < |units0| && u !in tt ==> units[u] == units0[u]
    ensures Values(units, tt) == vs
  {
    units := units0;
    for i := 0 to |tt|
      invariant |units| == |units0|
      invariant forall k :: 0 <= k < i ==> units[tt[k]] == units0[tt[k]].(value := vs[k])
      invariant forall u :: 0 <= u < |units0| && u !in tt[..i] ==> units[u] == units0[u]
    {
      assert tt[..i + 1] == tt[..i] + [tt[i]];
      units := units[tt[i] := units[tt[i]].(value := vs[i])];
    }
    assert tt[..|tt|] == tt;
  }

  /** One rule on the text units: their values are read, rewritten and
      written back. */
  method ApplyRuleToUnits(rule: Rule, units0: seq<TextLayer.TextUnit>, textTokens: seq<nat>) returns (units: seq<TextLayer.TextUnit>)
    requires ValidRule(rule) && TextLayer.Increasing(textTokens)
    requires forall k :: 0 <= k < |textTokens| ==> textTokens[k] < |units0|
    ensures |units| == |units0|
    ensures forall u :: 0 <= u < |units0| ==> units[u] == units0[u].(value := units[u].value)
    ensures forall u :: 0 <= u < |units0| && u !in textTokens ==> units[u] == units0[u]
    ensures Concat(Values(units, textTokens)) == ApplyRule(Concat(Values(units0, textTokens)), rule)
    ensures Values(units, textTokens) == RuleOnUnits(rule, Values(units0, textTokens))
  {
    var values := ApplyRuleToValues(rule, Values(units0, textTokens));
    units := WriteBack(units0, textTokens, values);
  }

  /** `update_text_layer`: each rule in turn is applied to the concatenated
      values of the collected tokens, and the tokens are rewritten so that
      their values concatenate to the result. Only the values of collected
      tokens change. */
  method UpdateTextLayer(rules: seq<Rule>, units0: seq<TextLayer.TextUnit>, textTokens: seq<nat>) returns (units: seq<TextLayer.TextUnit>)
    requires forall i :: 0 <= i < |rules| ==> ValidRule(rules[i])
    requires TextLayer.Increasing(textTokens)
    requires forall k :: 0 <= k < |textTokens| ==> textTokens[k] < |units0|
    ensures |units| == |units0|
    ensures textTokens == [] ==> units == units0
    ensures forall u :: 0 <= u < |units0| ==> units[u] == units0[u].(value := units[u].value)
    ensures forall u :: 0 <= u < |units0| && u !in textTokens ==> units[u] == units0[u]
    ensures Concat(Values(units, textTokens)) == ApplyRules(Concat(Values(units0, textTokens)), rules)
    ensures Values(units, textTokens) == RulesOnUnits(Values(units0, textTokens), rules)
  {
    units := units0;
    if |textTokens| == 0 {
      assert Values(units0, textTokens) == [];
      ApplyRulesEmpty(rules);
      return;
    }
    for j := 0 to |rules|
      invariant |units| == |units0|
      invariant forall u :: 0 <= u < |units0| ==> units[u] == units0[u].(value := units[u].value)
      invariant forall u :: 0 <= u < |units0| && u !in textTokens ==> units[u] == units0[u]
      invariant ApplyRules(Concat(Values(units0, textTokens)), rules)
             == ApplyRules(Concat(Values(units, textTokens)), rules[j..])
      invariant RulesOnUnits(Values(units0, textTokens), rules) == RulesOnUnits(Values(units, textTokens), rules[j..])
    {
      assert rules[j..][0] == rules[j] && rules[j..][1..] == rules[j + 1..];
      units := ApplyRuleToUnits(rules[j], units, textTokens);
    }
    assert rules[|rules|..] == [];
  }

  // ---------------------------------------------------------------------
  // Regrouping steps of the proofs above

  /** Regrouping the last three parts of a four-part concatenation. */
  lemma AssocTail<T>(a: seq<T>, b: seq<T>, c: seq<T>, d: seq<T>)
    ensures a + b + c + d == a + (b + c + d)
  {
  }

  /** `f + c + [] + (x + r)` regrouped as `f + (c + x) + r`. */
  lemma MergeMiddle<T>(f: seq<T>, c: seq<T>, g: seq<T>, x: seq<T>, r: seq<T>, c': seq<T>, g': seq<T>)
    requires g == [] && c + x == c' && g' == r
    ensures f + c + g + (x + r) == f + c' + g'
  {
  }

  /** `f` is `f0` followed by `c1` and grows by `c2`: so the grown `f'`
      is `f0` followed by `c1 + c2`. */
  lemma PrefixGrows<T>(f0: seq<T>, c1: seq<T>, c2: seq<T>, c: seq<T>, f: seq<T>, f': seq<T>)
    requires f == f0 + c1 && f' == f + c2 && c == c1 + c2
    ensures f' == f0 + c
  {
  }

  /** `w` is `a` followed by `v`, and `v` splits into `b` and `c`: so `w`
      is `a + b` followed by `c`. */
  lemma SplitTail<T>(w: seq<T>, a: seq<T>, v: seq<T>, b: seq<T>, c: seq<T>, c': seq<T>, d: seq<T>, x: seq<T>)
    requires w == a + v && v == b + c && c == c' && d == a + b && x == c'
    ensures w == d + x
  {
  }

  /** `w` is `d'` followed by `t2`, `d'` is `d` followed by `t1`, and `x`
      is `t1` followed by `t2`: so `w` is `d` followed by `x`. */
  lemma JoinTails<T>(w: seq<T>, d': seq<T>, t2: seq<T>, d: seq<T>, t1: seq<T>, x: seq<T>, p: seq<T>)
    requires w == d' + t2 && d' == d + t1 && x == t1 + t2 && p == d + x
    ensures w == p
  {
  }

  /** `w` is `p` followed by `r`, and `r` followed by `rest` is `whole`:
      so `w` followed by `rest` is `p` followed by `whole`. */
  lemma AppendRest<T>(w: seq<T>, p: seq<T>, r: seq<T>, rest: seq<T>, whole: seq<T>)
    requires w == p + r && r + rest == whole
    ensures w + rest == p + whole
  {
  }

  /** The bookkeeping of one in-place replacement: the produced text
      `c + a` grows by the kept text `b` and the replacement `r`. */
  lemma ReplacedGrowth<T>(w: seq<T>, done': seq<T>, e: seq<T>, c': seq<T>, vf: seq<T>, c: seq<T>, a: seq<T>, b: seq<T>, r: seq<T>,
                           done: seq<T>, x: seq<T>, p: seq<T>)
    requires w == done' + e && e == [] && done' == c' + vf && c' == c && vf == a + b + r
    requires done == c + a && p == done + x && x == b
    ensures w == p + r
  {
  }

  /** Regrouping a three-part concatenation whose middle part is split. */
  lemma ResplitMiddle<T>(whole: seq<T>, c: seq<T>, v: seq<T>, t: seq<T>, f: nat, done: seq<T>, rest: seq<T>)
    requires whole == c + v + t && f <= |v| && done == c + v[..f] && rest == v[f..] + t
    ensures whole == done + rest
  {
    assert v == v[..f] + v[f..];
  }

  /** A prefix of `a`, an empty middle and `rest` that reaches into `rest`. */
  lemma PrefixPastEmpty<T>(w: seq<T>, a: seq<T>, m: seq<T>, rest: seq<T>, n: nat, r: seq<T>, x: seq<T>)
    requires w == a + m + rest && m == [] && |a| <= n && n - |a| <= |rest|
    requires rest[..n - |a|] == r && x == a + r
    ensures |w| >= n && w[..n] == x
  {
    assert w == a + rest;
  }
}
