/** Binary search, and the line of a byte offset (pkg/internal/textutil/lines.go). */
module LineIndex {
  import opened Texts

  /** `sort.Search`: the least index at which a monotone predicate holds. */
  method Search(n: nat, f: nat -> bool) returns (i: nat)
    requires forall a: nat, b: nat :: a <= b < n && f(a) ==> f(b)
    ensures i <= n && (forall k: nat :: k < i ==> !f(k)) && forall k: nat :: i <= k < n ==> f(k)
  {
    i := 0;
    var j := n;
    while i < j
      invariant i <= j <= n
      invariant (forall k: nat :: k < i ==> !f(k)) && forall k: nat :: j <= k < n ==> f(k)
    {
      var h := (i + j) / 2;
      if !f(h) { i := h + 1; } else { j := h; }
    }
  }

  const NEWLINE: Byte := 10

  /** Newlines among the first `k` bytes. */
  function Newlines(bytes: seq<Byte>, k: nat): nat
    requires k <= |bytes|
  {
    if k == 0 then 0 else Newlines(bytes, k - 1) + if bytes[k - 1] == NEWLINE then 1 else 0
  }

  function StartsBefore(bytes: seq<Byte>, k: nat): (starts: seq<nat>)
    requires k <= |bytes|
  {
    if k == 0 then [0]
    else StartsBefore(bytes, k - 1) + if bytes[k - 1] == NEWLINE then [k] else []
  }

  method LineStarts(bytes: seq<Byte>) returns (starts: seq<nat>)
    ensures starts == StartsBefore(bytes, |bytes|)
  {
    starts := [0];
    for i := 0 to |bytes|
      invariant starts == StartsBefore(bytes, i)
    {
      if bytes[i] == NEWLINE {
        starts := starts + [i + 1];
      }
    }
  }

  /** Line starts rise, and the `i`-th one is at or before an offset exactly when at least `i`
      newlines are before that offset. */
  lemma {:induction false} StartsExact(bytes: seq<Byte>, k: nat, offset: nat)
    requires offset <= k <= |bytes|
    ensures |StartsBefore(bytes, k)| == Newlines(bytes, k) + 1
    ensures forall i, j :: 0 <= i < j < |StartsBefore(bytes, k)| ==>
      StartsBefore(bytes, k)[i] < StartsBefore(bytes, k)[j]
    ensures forall i :: 0 <= i < |StartsBefore(bytes, k)| ==> StartsBefore(bytes, k)[i] <= k
    ensures forall i :: 0 <= i < |StartsBefore(bytes, k)| ==>
      (StartsBefore(bytes, k)[i] <= offset <==> i <= Newlines(bytes, offset))
    ensures Newlines(bytes, offset) <= Newlines(bytes, k)
    decreases k
  {
    if k > 0 {
      StartsExact(bytes, k - 1, if offset == k then k - 1 else offset);
    }
  }

  method LineAt(starts: seq<nat>, offset: nat) returns (line: nat)
    requires forall i, j :: 0 <= i < j < |starts| ==> starts[i] < starts[j]
    ensures line <= |starts| && forall i :: 0 <= i < |starts| ==> (starts[i] <= offset <==> i < line)
  {
    var after := (i: nat) => i < |starts| && starts[i] > offset;
    line := Search(|starts|, after);
    forall i: nat | i < |starts| ensures starts[i] <= offset <==> i < line {
      assert after(i) <==> starts[i] > offset;
    }
  }

  /** The line found by binary search is one plus the newlines before the offset. */
  method LineOf(bytes: seq<Byte>, offset: nat) returns (line: nat)
    requires offset <= |bytes|
    ensures line == 1 + Newlines(bytes, offset)
  {
    var starts := LineStarts(bytes);
    StartsExact(bytes, |bytes|, offset);
    line := LineAt(starts, offset);
    ghost var n := Newlines(bytes, offset);
    assert n < |starts| && starts[n] <= offset;
    assert line < |starts| ==> line > n;
    assert line - 1 < |starts| && starts[line - 1] <= offset;
  }
}
