/** `InlineImage.read_data`: finding the `EI` that ends the raw payload of
    an inline image (ISO 32000-1, section 8.9.7) with a three-state scan. */
module InlineImage {
  import opened Common

  const E: Byte := 0x45
  const I: Byte := 0x49

  /** The white-space bytes the scanner recognises: space, LF and CR. */
  predicate IsWhite(b: Byte)
  {
    b == 0x20 || b == 0x0A || b == 0x0D
  }

  /** A byte allowed among the five that follow a terminator candidate. */
  predicate IsTrailing(b: Byte)
  {
    b == 0x0A || b == 0x0D || (0x20 <= b <= 0x7E)
  }

  datatype Verdict = Accept | Reject | Truncated

  /** Checks `data[j..stop)` byte by byte; running off the end of the data is
      an index error in the source, not a rejection. */
  function CheckTrailer(data: seq<Byte>, j: nat, stop: nat): (v: Verdict)
    ensures v == Accept ==> stop <= |data| || j >= stop
    ensures v == Accept ==> forall k :: j <= k < stop ==> IsTrailing(data[k])
    decreases stop - j
  {
    if j >= stop then Accept
    else if j >= |data| then Truncated
    else if IsTrailing(data[j]) then CheckTrailer(data, j + 1, stop)
    else Reject
  }

  /** A validated terminator after index `end` (normally its leading
      white-space byte):
      `E`, `I`, white space, then five trailing bytes. */
  predicate TerminatorAfter(data: seq<Byte>, end: int)
  {
    -1 <= end && end + 8 < |data| &&
    data[end + 1] == E && data[end + 2] == I && IsWhite(data[end + 3]) &&
    forall k :: end + 4 <= k <= end + 8 ==> IsTrailing(data[k])
  }

  /** The automaton at position `i` in `state` (0: data, 1: saw E, 2: saw EI).
      On success it yields `end`, the index three before the white space that
      follows the accepted `EI`. */
  function Scan(data: seq<Byte>, i: nat, state: nat): (r: Result<int>)
    requires state <= 2 && i <= |data|
    requires state == 1 ==> i >= 1 && data[i - 1] == E
    requires state == 2 ==> i >= 2 && data[i - 2] == E && data[i - 1] == I
    ensures r.Ok? ==> TerminatorAfter(data, r.value) && i - state - 1 <= r.value
    decreases |data| - i
  {
    if i >= |data| then Err(NameError)
    else if state == 0 then Scan(data, i + 1, if data[i] == E then 1 else 0)
    else if state == 1 then Scan(data, i + 1, if data[i] == I then 2 else 0)
    else if !IsWhite(data[i]) then Scan(data, i + 1, 0)
    else
      match CheckTrailer(data, i + 1, i + 6)
      case Accept => Ok(i - 3)
      case Reject => Scan(data, i + 1, 0)
      case Truncated => Err(IndexError)
  }

  /** What `read_data` leaves behind: the payload `fdata[start:end]` and the
      new lexer position `end`. The scan starts at `start >= 1`, the position
      after the two-byte `ID` keyword. */
  function ReadDataSpec(data: seq<Byte>, start: nat): (r: Result<(seq<Byte>, nat)>)
    requires 1 <= start <= |data|
    ensures r.Ok? ==> start - 1 <= r.value.1 < |data|
    ensures r.Ok? ==> IsWhite(data[r.value.1]) && TerminatorAfter(data, r.value.1)
    ensures r.Ok? ==> r.value.0 == if r.value.1 <= start then [] else data[start..r.value.1]
  {
    match Scan(data, start, 0)
    case Err(e) => Err(e)
    case Ok(end) =>
      if !IsWhite(data[end]) then Err(AssertionError)
      else Ok((if end <= start then [] else data[start..end], end))
  }

  /** `InlineImage.read_data` with the state variable and the nested loop of
      the source; returns the payload and the lexer position it sets. */
  method ReadData(data: seq<Byte>, start: nat) returns (r: Result<(seq<Byte>, nat)>)
    requires 1 <= start <= |data|
    ensures r == ReadDataSpec(data, start)
  {
    var state := 0;
    var i := start;
    while i < |data|
      invariant start <= i <= |data| && state <= 2
      invariant state == 1 ==> i >= 1 && data[i - 1] == E
      invariant state == 2 ==> i >= 2 && data[i - 2] == E && data[i - 1] == I
      invariant Scan(data, i, state) == Scan(data, start, 0)
      decreases |data| - i
    {
      if state == 0 {
        if data[i] == E {
          state := 1;
        }
      } else if state == 1 {
        if data[i] == I {
          state := 2;
        } else {
          state := 0;
        }
      } else if IsWhite(data[i]) {
        var j := i + 1;
        var rejected := false;
        while j < i + 6
          invariant i + 1 <= j <= i + 6
          invariant CheckTrailer(data, i + 1, i + 6) == CheckTrailer(data, j, i + 6)
          decreases i + 6 - j
        {
          if j >= |data| {
            return Err(IndexError);
          }
          var o := data[j];
          if o == 0x0A || o == 0x0D || (0x20 <= o && o <= 0x7E) {
            j := j + 1;
          } else {
            rejected := true;
            break;
          }
        }
        if !rejected {
          var end := i - 3;
          if !IsWhite(data[end]) {
            return Err(AssertionError);
          }
          return Ok((if end <= start then [] else data[start..end], end));
        }
        state := 0;
      } else {
        state := 0;
      }
      i := i + 1;
    }
    return Err(NameError);
  }

  /** A terminator the scan can confirm completely: white space at `k`, then
      `EI`, white space and five trailing bytes. */
  predicate Candidate(data: seq<Byte>, k: int)
  {
    0 <= k < |data| && IsWhite(data[k]) && TerminatorAfter(data, k)
  }

  /** The scan never passes over a complete candidate: started anywhere up
      to the candidate (or just after its white space, in the data state) it
      stops there or earlier. */
  lemma {:induction false} ScanFindsFirst(data: seq<Byte>, i: nat, state: nat, k: int)
    requires state <= 2 && i <= |data|
    requires state == 1 ==> i >= 1 && data[i - 1] == E
    requires state == 2 ==> i >= 2 && data[i - 2] == E && data[i - 1] == I
    requires Candidate(data, k)
    requires i <= k || (k == i - 1 && state == 0)
    ensures Scan(data, i, state).Ok? && Scan(data, i, state).value <= k
    decreases |data| - i
  {
    if k == i - 1 {
      assert CheckTrailer(data, i + 3, i + 8) == CheckTrailer(data, k + 4, k + 9);
      AllTrailing(data, k + 4, k + 9);
      assert Scan(data, i + 2, 2) == Ok(k);
    } else if state == 2 && IsWhite(data[i]) {
      match CheckTrailer(data, i + 1, i + 6)
      case Accept =>
      case Reject => ScanFindsFirst(data, i + 1, 0, k);
      case Truncated => TruncatedNearEnd(data, i + 1, i + 6);
    } else if state == 0 {
      ScanFindsFirst(data, i + 1, if data[i] == E then 1 else 0, k);
    } else if state == 1 {
      ScanFindsFirst(data, i + 1, if data[i] == I then 2 else 0, k);
    } else {
      ScanFindsFirst(data, i + 1, 0, k);
    }
  }

  lemma {:induction false} AllTrailing(data: seq<Byte>, j: nat, stop: nat)
    requires stop <= |data|
    requires forall m :: j <= m < stop ==> IsTrailing(data[m])
    ensures CheckTrailer(data, j, stop) == Accept
    decreases stop - j
  {
    if j < stop {
      AllTrailing(data, j + 1, stop);
    }
  }

  lemma {:induction false} TruncatedNearEnd(data: seq<Byte>, j: nat, stop: nat)
    requires CheckTrailer(data, j, stop) == Truncated
    ensures |data| < stop
    decreases stop - j
  {
    if j < stop && j < |data| && IsTrailing(data[j]) {
      TruncatedNearEnd(data, j + 1, stop);
    }
  }

  /** `read_data` cuts the payload at the first complete candidate: when it
      succeeds, no complete candidate lies before the one it used, and when
      some candidate exists the only possible failure is the source's
      assertion on the byte before `EI`. */
  lemma ReadDataTakesFirst(data: seq<Byte>, start: nat, k: int)
    requires 1 <= start <= |data|
    requires Candidate(data, k) && start - 1 <= k
    ensures ReadDataSpec(data, start).Ok? ==> ReadDataSpec(data, start).value.1 <= k
    ensures ReadDataSpec(data, start).Err? ==> ReadDataSpec(data, start).error == AssertionError
  {
    ScanFindsFirst(data, start, 0, k);
  }

  /** An `EI` inside the payload that is not followed by white space and five
      printable bytes stays payload: the scan rejects the first candidate and
      takes the second. */
  lemma EmbeddedCandidateStaysPayload()
    ensures ReadDataSpec([0x49, 0x44, 0x20, 0x45, 0x49, 0x20, 0x00, 0x20, 0x45, 0x49,
                          0x0A, 0x51, 0x0A, 0x0A, 0x0A, 0x0A], 3)
         == Ok(([0x45, 0x49, 0x20, 0x00], 7))
  {
    var d: seq<Byte> := [0x49, 0x44, 0x20, 0x45, 0x49, 0x20, 0x00, 0x20, 0x45, 0x49,
                         0x0A, 0x51, 0x0A, 0x0A, 0x0A, 0x0A];
    assert CheckTrailer(d, 6, 11) == Reject;
    assert CheckTrailer(d, 11, 16) == Accept;
    assert Scan(d, 10, 2) == Ok(7);
    assert Scan(d, 9, 1) == Scan(d, 10, 2);
    assert Scan(d, 8, 0) == Scan(d, 9, 1);
    assert Scan(d, 7, 0) == Scan(d, 8, 0);
    assert Scan(d, 6, 0) == Scan(d, 7, 0);
    assert Scan(d, 5, 2) == Scan(d, 6, 0);
    assert Scan(d, 4, 1) == Scan(d, 5, 2);
    assert Scan(d, 3, 0) == Scan(d, 4, 1);
    assert d[3..7] == [0x45, 0x49, 0x20, 0x00];
  }
}
