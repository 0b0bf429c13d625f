/** Shared vocabulary: bytes, Unicode code points, the error kinds the
    original program raises, and a few sequence helpers. */
module Common {

  /** One byte of a content stream or of a string operand. */
  type Byte = b: int | 0 <= b < 256

  /** A Unicode code point as Python's `str` holds it (surrogates included). */
  type CodePoint = c: int | 0 <= c < 0x11_0000

  /** Decoded text: Python `str` values are sequences of code points. */
  type UString = seq<CodePoint>

  datatype Option<+T> = None | Some(value: T)

  /** The Python exception classes the core can raise, one variant each. */
  datatype Error =
    | IndexError       // pop from an empty list, index past the end
    | AssertionError   // a failed `assert`
    | TypeError        // a call or a subscript on the wrong kind of object
    | AttributeError   // a method missing on the object at hand
    | ValueError       // an out-of-range value or an unsupported encoding
    | NameError        // a variable read before assignment
    | UnicodeError     // a character missing from a strict codec

  datatype Result<+T> = Ok(value: T) | Err(error: Error) {
    predicate IsFailure() { Err? }
    function PropagateFailure<U>(): Result<U>
      requires Err?
    {
      Err(error)
    }
    function Extract(): T
      requires Ok?
    {
      value
    }
  }

  /** Concatenation of a list of sequences, as `"".join(...)` does. */
  function Concat<T>(ss: seq<seq<T>>): (r: seq<T>)
  {
    if ss == [] then [] else Concat(ss[..|ss| - 1]) + ss[|ss| - 1]
  }

  lemma {:induction false} ConcatSplit<T>(ss: seq<seq<T>>, k: nat)
    requires k <= |ss|
    ensures Concat(ss) == Concat(ss[..k]) + Concat(ss[k..])
    decreases |ss|
  {
    if k == |ss| {
      assert ss[..k] == ss;
      assert ss[k..] == [];
    } else {
      var last := |ss| - 1;
      ConcatSplit(ss[..last], k);
      assert ss[..last][..k] == ss[..k];
      assert ss[k..][..|ss[k..]| - 1] == ss[..last][k..];
      assert ss[k..][|ss[k..]| - 1] == ss[last];
    }
  }

  lemma ConcatOne<T>(s: seq<T>)
    ensures Concat([s]) == s
  {
    assert [s][..0] == [];
  }

  lemma ConcatCons<T>(x: seq<T>, ss: seq<seq<T>>)
    ensures Concat([x] + ss) == x + Concat(ss)
  {
    ConcatSplit([x] + ss, 1);
    assert ([x] + ss)[..1] == [x] && ([x] + ss)[1..] == ss;
    ConcatOne(x);
  }

  /** Splitting `Concat` around one element. */
  lemma ConcatAround<T>(ss: seq<seq<T>>, k: nat)
    requires k < |ss|
    ensures Concat(ss) == Concat(ss[..k]) + ss[k] + Concat(ss[k + 1..])
  {
    ConcatSplit(ss, k);
    ConcatSplit(ss[k..], 1);
    assert ss[k..][..1] == [ss[k]];
    ConcatOne(ss[k]);
    assert ss[k..][1..] == ss[k + 1..];
  }

  lemma ConcatLength<T>(ss: seq<seq<T>>, k: nat)
    requires k < |ss|
    ensures |Concat(ss[..k + 1])| == |Concat(ss[..k])| + |ss[k]|
  {
    assert ss[..k + 1][..k] == ss[..k];
  }

  lemma Assoc<T>(a: seq<T>, b: seq<T>, c: seq<T>, w: seq<T>)
    requires w == a + (b + c)
    ensures w == a + b + c
  {
  }

  lemma Assoc3<T>(x: seq<T>, a: seq<T>, b: seq<T>, c: seq<T>)
    requires x == a + b
    ensures x + c == a + (b + c)
  {
  }

  /** A prefix that lies inside the first part of a concatenation. */
  lemma TakeFront<T>(a: seq<T>, m: seq<T>, t: seq<T>, n: nat)
    requires n <= |a|
    ensures |a + m + t| >= n && (a + m + t)[..n] == a[..n]
  {
  }

  /** A prefix that reaches past the first part of a concatenation. */
  lemma TakePast<T>(a: seq<T>, t: seq<T>, n: nat)
    requires |a| <= n <= |a| + |t|
    ensures (a + t)[..n] == a + t[..n - |a|]
  {
  }

  lemma SliceSplit<T>(s: seq<T>, i: nat, j: nat, k: nat)
    requires i <= j <= k <= |s|
    ensures s[i..k] == s[i..j] + s[j..k]
  {
  }

  /** The code points of a string. */
  function CodePoints(s: string): (u: UString)
    ensures |u| == |s|
  {
    seq(|s|, i requires 0 <= i < |s| => s[i] as int)
  }
}
