/** Content-stream tokens, the list chunkers `chunk_pairs`/`chunk_triples`
    and the construction of a dictionary from key/value pairs. */
module Tokens {
  import opened Common

  /** One token of a content stream after composite literals are collapsed.
      The lexer yields only `Keyword`, `Name` and `Str`; `Arr`, `Dict` and
      `Image` come from the tokenizer and `Text` from the text-layer builder,
      which replaces a string by a handle on a mutable text unit. */
  datatype Token =
    | Keyword(text: string)                          // operators, numbers, booleans, brackets
    | Name(text: string)                             // written with its leading '/'
    | Str(lexeme: string, bytes: seq<Byte>)          // source spelling and decoded bytes
    | Arr(elems: seq<Token>)
    | Dict(entries: seq<(Token, Token)>)
    | Image(entries: seq<(Token, Token)>, data: seq<Byte>)  // an inline image and its payload
    | Text(id: nat)                                  // a handle on a text unit

  /** The keywords that open, divide or close a composite literal. */
  predicate IsControl(t: Token)
  {
    t.Keyword? && t.text in {"<<", ">>", "[", "]", "BI", "ID", "EI"}
  }

  /** What the lexer yields: a keyword, a name or a string. */
  predicate Lexeme(t: Token)
  {
    t.Keyword? || t.Name? || t.Str?
  }

  /** Lists and dictionaries cannot be keys of a Python dictionary. */
  predicate Hashable(t: Token)
  {
    !(t.Arr? || t.Dict? || t.Image?)
  }

  /** Every key of the pairs can go into a Python dictionary. */
  predicate HashableKeys(ps: seq<(Token, Token)>)
  {
    forall i :: 0 <= i < |ps| ==> Hashable(ps[i].0)
  }

  /** Every text handle anywhere in the token names a unit below `n`;
      with `n == 0`, the token holds no text handle at all. */
  predicate HandlesBelow(t: Token, n: nat)
  {
    match t
    case Text(id) => id < n
    case Arr(elems) => forall i :: 0 <= i < |elems| ==> HandlesBelow(elems[i], n)
    case Dict(entries) => forall i :: 0 <= i < |entries| ==> HandlesBelow(entries[i].0, n) && HandlesBelow(entries[i].1, n)
    case Image(entries, _) => forall i :: 0 <= i < |entries| ==> HandlesBelow(entries[i].0, n) && HandlesBelow(entries[i].1, n)
    case _ => true
  }

  predicate PairsBelow(ps: seq<(Token, Token)>, n: nat)
  {
    forall i :: 0 <= i < |ps| ==> HandlesBelow(ps[i].0, n) && HandlesBelow(ps[i].1, n)
  }

  /** A bound on the handles holds for every larger bound. */
  lemma {:induction false} HandlesMono(t: Token, m: nat, n: nat)
    requires HandlesBelow(t, m) && m <= n
    ensures HandlesBelow(t, n)
    decreases t
  {
    match t
    case Arr(elems) =>
      forall i | 0 <= i < |elems| ensures HandlesBelow(elems[i], n) {
        HandlesMono(elems[i], m, n);
      }
    case Dict(entries) =>
      forall i | 0 <= i < |entries| ensures HandlesBelow(entries[i].0, n) && HandlesBelow(entries[i].1, n) {
        HandlesMono(entries[i].0, m, n);
        HandlesMono(entries[i].1, m, n);
      }
    case Image(entries, _) =>
      forall i | 0 <= i < |entries| ensures HandlesBelow(entries[i].0, n) && HandlesBelow(entries[i].1, n) {
        HandlesMono(entries[i].0, m, n);
        HandlesMono(entries[i].1, m, n);
      }
    case _ =>
  }

  /** Consecutive pairs of a list; an odd trailing element is dropped. */
  function Pairs<T>(s: seq<T>): (r: seq<(T, T)>)
    ensures |r| == |s| / 2
    ensures forall k :: 0 <= k < |r| ==> r[k] == (s[2 * k], s[2 * k + 1])
    decreases |s|
  {
    if |s| < 2 then [] else [(s[0], s[1])] + Pairs(s[2..])
  }

  /** Consecutive triples of a list; up to two trailing elements are dropped. */
  function Triples<T>(s: seq<T>): (r: seq<(T, T, T)>)
    ensures |r| == |s| / 3
    ensures forall k :: 0 <= k < |r| ==> r[k] == (s[3 * k], s[3 * k + 1], s[3 * k + 2])
    decreases |s|
  {
    if |s| < 3 then [] else [(s[0], s[1], s[2])] + Triples(s[3..])
  }

  /** `chunk_pairs`: takes two elements at a time off the front of the list;
      what is left over (at most one element) stays in the list. */
  method ChunkPairs<T>(s: seq<T>) returns (pairs: seq<(T, T)>, rest: seq<T>)
    ensures pairs == Pairs(s)
    ensures |rest| < 2 && |rest| <= |s| && rest == s[|s| - |rest|..]
  {
    pairs, rest := [], s;
    while |rest| >= 2
      invariant Pairs(s) == pairs + Pairs(rest)
      invariant |rest| <= |s| && rest == s[|s| - |rest|..]
      decreases |rest|
    {
      assert Pairs(rest) == [(rest[0], rest[1])] + Pairs(rest[2..]);
      pairs := pairs + [(rest[0], rest[1])];
      rest := rest[2..];
    }
  }

  /** `chunk_triples`: takes three elements at a time off the front of the
      list; at most two elements are left over. */
  method ChunkTriples<T>(s: seq<T>) returns (triples: seq<(T, T, T)>, rest: seq<T>)
    ensures triples == Triples(s)
    ensures |rest| < 3 && |rest| <= |s| && rest == s[|s| - |rest|..]
  {
    triples, rest := [], s;
    while |rest| >= 3
      invariant Triples(s) == triples + Triples(rest)
      invariant |rest| <= |s| && rest == s[|s| - |rest|..]
      decreases |rest|
    {
      var t := (rest[0], rest[1], rest[2]);
      assert Triples(rest) == [t] + Triples(rest[3..]);
      Assoc3(triples + [t], triples, [t], Triples(rest[3..]));
      SuffixOfSuffix(s, rest, 3);
      triples := triples + [t];
      rest := rest[3..];
    }
  }

  /** Dropping `n` more elements from a suffix leaves a suffix. */
  lemma SuffixOfSuffix<T>(s: seq<T>, rest: seq<T>, n: nat)
    requires |rest| <= |s| && rest == s[|s| - |rest|..] && n <= |rest|
    ensures rest[n..] == s[|s| - |rest[n..]|..]
  {
  }

  /** Position of the entry with key `k`, or `|d|` when there is none. */
  function KeyIndex(d: seq<(Token, Token)>, k: Token): (i: nat)
    ensures i <= |d|
    ensures i < |d| ==> d[i].0 == k
    ensures forall j :: 0 <= j < i ==> d[j].0 != k
    decreases |d|
  {
    if d == [] then 0
    else if d[0].0 == k then 0
    else 1 + KeyIndex(d[1..], k)
  }

  /** Dictionary assignment: an existing key keeps its place and takes the
      new value, a new key goes to the end (insertion order). */
  function DictSet(d: seq<(Token, Token)>, k: Token, v: Token): seq<(Token, Token)>
  {
    var i := KeyIndex(d, k);
    if i < |d| then d[i := (k, v)] else d + [(k, v)]
  }

  /** The dictionary built from a list of pairs, assigned left to right. */
  function DictOf(ps: seq<(Token, Token)>): seq<(Token, Token)>
    decreases |ps|
  {
    if ps == [] then [] else
    var last := ps[|ps| - 1];
    DictSet(DictOf(ps[..|ps| - 1]), last.0, last.1)
  }

  predicate UniqueKeys(d: seq<(Token, Token)>)
  {
    forall i, j :: 0 <= i < j < |d| ==> d[i].0 != d[j].0
  }

  function LookupKey(d: seq<(Token, Token)>, k: Token): Option<Token>
  {
    var i := KeyIndex(d, k);
    if i < |d| then Some(d[i].1) else None
  }

  /** The value the last pair with key `k` carries, if any pair has that key. */
  function LastValue(ps: seq<(Token, Token)>, k: Token): Option<Token>
    decreases |ps|
  {
    if ps == [] then None
    else if ps[|ps| - 1].0 == k then Some(ps[|ps| - 1].1)
    else LastValue(ps[..|ps| - 1], k)
  }

  /** A dictionary built from pairs has unique keys, and each key holds the
      value of the last pair that named it (later duplicates overwrite). */
  lemma {:induction false} DictOfSemantics(ps: seq<(Token, Token)>)
    ensures UniqueKeys(DictOf(ps))
    ensures forall k :: LookupKey(DictOf(ps), k) == LastValue(ps, k)
    decreases |ps|
  {
    if ps != [] {
      var init := ps[..|ps| - 1];
      var last := ps[|ps| - 1];
      DictOfSemantics(init);
      DictSetSemantics(DictOf(init), last.0, last.1);
    }
  }

  /** A dictionary built from pairs holds only keys and values of those
      pairs, so it holds no handle they do not hold. */
  lemma {:induction false} DictOfBelow(ps: seq<(Token, Token)>, n: nat)
    requires PairsBelow(ps, n)
    ensures PairsBelow(DictOf(ps), n)
    decreases |ps|
  {
    if ps != [] {
      var init := ps[..|ps| - 1];
      assert PairsBelow(init, n) by {
        assert forall i :: 0 <= i < |init| ==> init[i] == ps[i];
      }
      DictOfBelow(init, n);
    }
  }

  /** Assigning `k0` keeps keys unique, makes `k0` hold `v` and leaves the
      other keys alone. */
  lemma DictSetSemantics(d: seq<(Token, Token)>, k0: Token, v: Token)
    requires UniqueKeys(d)
    ensures UniqueKeys(DictSet(d, k0, v))
    ensures forall k :: LookupKey(DictSet(d, k0, v), k) == if k == k0 then Some(v) else LookupKey(d, k)
  {
    var i := KeyIndex(d, k0);
    var d' := DictSet(d, k0, v);
    forall k
      ensures LookupKey(d', k) == if k == k0 then Some(v) else LookupKey(d, k)
    {
      if k == k0 {
        if i < |d| {
          assert d'[i].0 == k;
          assert KeyIndex(d', k) <= i;
        } else {
          assert d'[|d|].0 == k;
        }
      } else {
        var jd := KeyIndex(d, k);
        assert forall m :: 0 <= m < |d| && m != i ==> d'[m] == d[m];
        if jd < |d| {
          assert d'[jd].0 == k;
        }
      }
    }
  }
}
