/** Edit distance and the look-alike package search (pkg/internal/refcheck/typosquat.go).

    The reference definition is a walk through strings: each step inserts, deletes or
    replaces one rune anywhere.  The two-row loop is proved to return the length of a
    shortest walk. */
module Typosquat {
  import opened Options
  import opened Texts

  // ----- Reference definition: walks of single edits

  ghost predicate DeletesAt<T>(a: seq<T>, b: seq<T>, i: nat) {
    i < |a| && b == a[..i] + a[i + 1..]
  }

  ghost predicate ReplacesAt<T>(a: seq<T>, b: seq<T>, i: nat) {
    i < |a| == |b| && b == a[..i] + [b[i]] + a[i + 1..]
  }

  ghost predicate EditAt<T>(a: seq<T>, b: seq<T>, i: nat) {
    DeletesAt(a, b, i) || DeletesAt(b, a, i) || ReplacesAt(a, b, i)
  }

  ghost predicate OneEdit<T>(a: seq<T>, b: seq<T>) {
    exists i: nat :: EditAt(a, b, i)
  }

  /** A walk from `a` to `b`; it makes `|walk| - 1` edits. */
  ghost predicate Walk<T>(a: seq<T>, b: seq<T>, walk: seq<seq<T>>) {
    && |walk| > 0 && walk[0] == a && walk[|walk| - 1] == b
    && forall k :: 0 <= k < |walk| - 1 ==> OneEdit(walk[k], walk[k + 1])
  }

  // ----- The recurrence the rows tabulate

  function Min(x: int, y: int): int { if x < y then x else y }

  function Distance<T(==)>(a: seq<T>, b: seq<T>): nat
    decreases |a| + |b|
  {
    if |a| == 0 then |b|
    else if |b| == 0 then |a|
    else
      var a', b' := a[..|a| - 1], b[..|b| - 1];
      var cost := if a[|a| - 1] == b[|b| - 1] then 0 else 1;
      Min(Min(Distance(a', b) + 1, Distance(a, b') + 1), Distance(a', b') + cost)
  }

  lemma {:induction false} DistanceSymmetric<T>(a: seq<T>, b: seq<T>)
    ensures Distance(a, b) == Distance(b, a)
    decreases |a| + |b|
  {
    if |a| > 0 && |b| > 0 {
      DistanceSymmetric(a[..|a| - 1], b);
      DistanceSymmetric(a, b[..|b| - 1]);
      DistanceSymmetric(a[..|a| - 1], b[..|b| - 1]);
    }
  }

  lemma {:induction false} DistanceSelf<T>(a: seq<T>)
    ensures Distance(a, a) == 0
  {
    if |a| > 0 {
      DistanceSelf(a[..|a| - 1]);
    }
  }

  /** Dropping the last rune of one side costs at most one more edit. */
  lemma {:induction false} DropLast<T>(a: seq<T>, b: seq<T>)
    requires |a| > 0
    ensures Distance(a[..|a| - 1], b) <= Distance(a, b) + 1
    decreases |b|
  {
    if |b| > 0 {
      DropLast(a, b[..|b| - 1]);
    }
  }

  /** An edit before the last place leaves the last runes equal. */
  lemma {:induction false} EditInFront<T>(a: seq<T>, b: seq<T>, i: nat)
    requires EditAt(a, b, i)
    requires !(DeletesAt(a, b, i) && i == |a| - 1) && !(DeletesAt(b, a, i) && i == |b| - 1)
      && !(ReplacesAt(a, b, i) && i == |a| - 1)
    ensures |a| > 0 && |b| > 0 && a[|a| - 1] == b[|b| - 1] && EditAt(a[..|a| - 1], b[..|b| - 1], i)
  {
    var a', b' := a[..|a| - 1], b[..|b| - 1];
    if DeletesAt(a, b, i) {
      assert b' == a'[..i] + a'[i + 1..];
    } else if DeletesAt(b, a, i) {
      assert a' == b'[..i] + b'[i + 1..];
    } else {
      assert b' == a'[..i] + [b'[i]] + a'[i + 1..];
    }
  }

  /** One edit anywhere in `a` moves its distance to any `c` by at most one. */
  lemma {:induction false} EditMovesByOne<T>(a: seq<T>, b: seq<T>, c: seq<T>, i: nat)
    requires EditAt(a, b, i)
    ensures Distance(a, c) <= Distance(b, c) + 1
    decreases |a| + |b| + |c|
  {
    if |c| > 0 {
      EditMovesByOne(a, b, c[..|c| - 1], i);
    }
    if DeletesAt(a, b, i) && i == |a| - 1 {
      assert b == a[..|a| - 1];
    } else if DeletesAt(b, a, i) && i == |b| - 1 {
      assert a == b[..|b| - 1];
      DropLast(b, c);
    } else if ReplacesAt(a, b, i) && i == |a| - 1 {
      assert a[..|a| - 1] == b[..|b| - 1];
    } else {
      var a', b' := a[..|a| - 1], b[..|b| - 1];
      EditInFront(a, b, i);
      if |c| > 0 {
        EditMovesByOne(a', b', c, i);
        EditMovesByOne(a', b', c[..|c| - 1], i);
      }
    }
  }

  lemma {:induction false} NoWalkIsShorter<T>(a: seq<T>, b: seq<T>, walk: seq<seq<T>>)
    requires Walk(a, b, walk)
    ensures Distance(a, b) <= |walk| - 1
    decreases |walk|
  {
    if |walk| == 1 {
      DistanceSelf(a);
    } else {
      assert OneEdit(walk[0], walk[1]);
      var i: nat :| EditAt(walk[0], walk[1], i);
      assert Walk(walk[1], b, walk[1..]) by {
        forall k | 0 <= k < |walk[1..]| - 1 ensures OneEdit(walk[1..][k], walk[1..][k + 1]) {
          assert OneEdit(walk[k + 1], walk[k + 2]);
        }
      }
      NoWalkIsShorter(walk[1], b, walk[1..]);
      EditMovesByOne(a, walk[1], b, i);
    }
  }

  ghost function AppendToAll<T>(walk: seq<seq<T>>, x: T): seq<seq<T>> {
    seq(|walk|, k requires 0 <= k < |walk| => walk[k] + [x])
  }

  lemma {:induction false} AppendDelete<T>(a: seq<T>, b: seq<T>, x: T, i: nat)
    requires DeletesAt(a, b, i)
    ensures DeletesAt(a + [x], b + [x], i)
  {
    var c := a + [x];
    assert c[..i] == a[..i] && c[i + 1..] == a[i + 1..] + [x];
    assert b + [x] == a[..i] + (a[i + 1..] + [x]);
  }

  lemma {:induction false} AppendReplace<T>(a: seq<T>, b: seq<T>, x: T, i: nat)
    requires ReplacesAt(a, b, i)
    ensures ReplacesAt(a + [x], b + [x], i)
  {
    var c := a + [x];
    assert c[..i] == a[..i] && c[i + 1..] == a[i + 1..] + [x];
    assert b + [x] == a[..i] + [b[i]] + (a[i + 1..] + [x]);
  }

  lemma {:induction false} AppendKeepsEdits<T>(a: seq<T>, b: seq<T>, x: T)
    requires OneEdit(a, b)
    ensures OneEdit(a + [x], b + [x])
  {
    hide DeletesAt, ReplacesAt;
    var i: nat :| EditAt(a, b, i);
    if DeletesAt(a, b, i) {
      AppendDelete(a, b, x, i);
    } else if DeletesAt(b, a, i) {
      AppendDelete(b, a, x, i);
    } else {
      AppendReplace(a, b, x, i);
    }
    assert EditAt(a + [x], b + [x], i);
  }

  lemma {:induction false} Prepend<T>(a: seq<T>, b: seq<T>, c: seq<T>, walk: seq<seq<T>>)
    requires OneEdit(a, b) && Walk(b, c, walk)
    ensures Walk(a, c, [a] + walk)
  {
    var longer := [a] + walk;
    forall k | 0 <= k < |longer| - 1 ensures OneEdit(longer[k], longer[k + 1]) {
      if k > 0 {
        assert OneEdit(walk[k - 1], walk[k]);
      }
    }
  }

  lemma {:induction false} Append<T>(a: seq<T>, b: seq<T>, c: seq<T>, walk: seq<seq<T>>)
    requires Walk(a, b, walk) && OneEdit(b, c)
    ensures Walk(a, c, walk + [c])
  {
    var longer := walk + [c];
    forall k | 0 <= k < |longer| - 1 ensures OneEdit(longer[k], longer[k + 1]) {
      if k < |walk| - 1 {
        assert OneEdit(walk[k], walk[k + 1]);
      }
    }
  }

  lemma {:induction false} Lift<T>(a: seq<T>, b: seq<T>, walk: seq<seq<T>>, x: T)
    requires Walk(a, b, walk)
    ensures Walk(a + [x], b + [x], AppendToAll(walk, x))
  {
    forall k | 0 <= k < |walk| - 1 ensures OneEdit(walk[k] + [x], walk[k + 1] + [x]) {
      AppendKeepsEdits(walk[k], walk[k + 1], x);
    }
  }

  lemma {:induction false} ShortestWalk<T>(a: seq<T>, b: seq<T>) returns (walk: seq<seq<T>>)
    ensures Walk(a, b, walk) && |walk| - 1 == Distance(a, b)
    decreases |a| + |b|
  {
    if |a| == 0 && |b| == 0 {
      walk := [a];
    } else if |b| == 0 || (|a| > 0 && Distance(a, b) == Distance(a[..|a| - 1], b) + 1) {
      var rest := ShortestWalk(a[..|a| - 1], b);
      assert EditAt(a, a[..|a| - 1], |a| - 1);
      Prepend(a, a[..|a| - 1], b, rest);
      walk := [a] + rest;
    } else if |a| == 0 || Distance(a, b) == Distance(a, b[..|b| - 1]) + 1 {
      var rest := ShortestWalk(a, b[..|b| - 1]);
      assert EditAt(b[..|b| - 1], b, |b| - 1);
      Append(a, b[..|b| - 1], b, rest);
      walk := rest + [b];
    } else {
      var a', b', x := a[..|a| - 1], b[..|b| - 1], a[|a| - 1];
      var rest := ShortestWalk(a', b');
      Lift(a', b', rest, x);
      assert a == a' + [x];
      walk := AppendToAll(rest, x);
      if x != b[|b| - 1] {
        assert b == (b' + [x])[..|b'|] + [b[|b'|]] + (b' + [x])[|b'| + 1..];
        assert EditAt(b' + [x], b, |b'|);
        Append(a, b' + [x], b, walk);
        walk := walk + [b];
      } else {
        assert b == b' + [x];
      }
    }
  }

  /** The recurrence is the fewest insertions, deletions and replacements, over all walks. */
  lemma {:induction false} DistanceIsFewestEdits<T>(a: seq<T>, b: seq<T>)
    ensures exists walk :: Walk(a, b, walk) && |walk| - 1 == Distance(a, b)
    ensures forall walk :: Walk(a, b, walk) ==> Distance(a, b) <= |walk| - 1
  {
    var shortest := ShortestWalk(a, b);
    forall walk | Walk(a, b, walk) ensures Distance(a, b) <= |walk| - 1 {
      NoWalkIsShorter(a, b, walk);
    }
  }

  lemma {:induction false} LengthGapBound<T>(a: seq<T>, b: seq<T>)
    ensures |a| - |b| <= Distance(a, b) && |b| - |a| <= Distance(a, b)
    decreases |a| + |b|
  {
    if |a| > 0 && |b| > 0 {
      LengthGapBound(a[..|a| - 1], b);
      LengthGapBound(a, b[..|b| - 1]);
      LengthGapBound(a[..|a| - 1], b[..|b| - 1]);
    }
  }

  // ----- The loops

  /** The first `n` cells of row `i`: distances from `a[..i]` to the prefixes of `b`. */
  ghost predicate Row<T>(row: seq<nat>, a: seq<T>, b: seq<T>, i: nat, n: nat) {
    && i <= |a| && n <= |row| == |b| + 1
    && forall j :: 0 <= j < n ==> row[j] == Distance(a[..i], b[..j])
  }

  lemma {:induction false} NextCell<T>(prev: seq<nat>, cur: seq<nat>, a: seq<T>, b: seq<T>, i: nat, j: nat)
    requires 0 < i && 0 < j <= |b| && Row(prev, a, b, i - 1, |b| + 1) && Row(cur, a, b, i, j)
    ensures Distance(a[..i], b[..j]) == Min(Min(prev[j] + 1, cur[j - 1] + 1),
                                            prev[j - 1] + if a[i - 1] == b[j - 1] then 0 else 1)
  {
    assert a[..i][..i - 1] == a[..i - 1] && b[..j][..j - 1] == b[..j - 1];
  }

  /** Two rows, swapped after each rune of `a`. */
  method Levenshtein<T(==)>(a: seq<T>, b: seq<T>) returns (d: nat)
    ensures d == Distance(a, b)
  {
    var prev := new nat[|b| + 1](j => j);
    var cur := new nat[|b| + 1](_ => 0);
    for i := 1 to |a| + 1
      invariant prev != cur && prev.Length == cur.Length == |b| + 1
      invariant fresh(prev) && fresh(cur)
      invariant Row(prev[..], a, b, i - 1, |b| + 1)
    {
      cur[0] := i;
      for j := 1 to |b| + 1
        invariant Row(prev[..], a, b, i - 1, |b| + 1)
        invariant Row(cur[..], a, b, i, j)
      {
        var cost := if a[i - 1] == b[j - 1] then 0 else 1;
        NextCell(prev[..], cur[..], a, b, i, j);
        cur[j] := Min(Min(prev[j] + 1, cur[j - 1] + 1), prev[j - 1] + cost);
      }
      prev, cur := cur, prev;
    }
    assert a[..|a|] == a && b[..|b|] == b;
    d := prev[|b|];
  }

  /** What the search calls a match: at most two edits, and at most a third of the shorter name. */
  predicate Near(name: string, other: string) {
    var d := Distance(name, other);
    d <= 2 && d * 3 <= Min(Bytes(name), Bytes(other))
  }

  /** The rune-count filter of the search, written as the code writes it. */
  predicate Filtered(name: string, other: string) {
    |name| - |other| > 2 || |name| - |other| < -2
  }

  /** The filter skips a name only when its distance is above two, so no match is lost. */
  lemma {:induction false} FilterLosesNoMatch(name: string, other: string)
    ensures Filtered(name, other) ==> Distance(name, other) > 2 && !Near(name, other)
  {
    LengthGapBound(name, other);
  }

  /** The first listed name that stops the search. */
  predicate StopsAt(name: string, popular: seq<string>, k: nat) {
    && k < |popular|
    && (popular[k] == name || Near(name, popular[k]))
    && forall i :: 0 <= i < k ==> popular[i] != name && !Near(name, popular[i])
  }

  lemma {:induction false} StopsBefore(name: string, popular: seq<string>, k: nat, at: nat)
    requires StopsAt(name, popular, k) && at < |popular| && popular[at] == name
    ensures k <= at
  {}

  /** What the search returns: the first listed near name, unless the name itself is listed before it. */
  ghost predicate Found(name: string, popular: seq<string>, r: Option<string>) {
    && (r.Some? <==> Bytes(name) >= 3 && exists k: nat :: StopsAt(name, popular, k) && popular[k] != name)
    && (r.Some? ==> exists k: nat :: StopsAt(name, popular, k) && r.value == popular[k])
  }

  method Search(name: string, popular: seq<string>) returns (r: Option<string>)
    ensures Found(name, popular, r)
  {
    if Bytes(name) < 3 {
      return None;
    }
    for k := 0 to |popular|
      invariant forall i :: 0 <= i < k ==> popular[i] != name && !Near(name, popular[i])
    {
      var other := popular[k];
      if other == name {
        assert StopsAt(name, popular, k);
        forall i: nat | StopsAt(name, popular, i) ensures i <= k {
          StopsBefore(name, popular, i, k);
        }
        return None;
      }
      FilterLosesNoMatch(name, other);
      if !Filtered(name, other) {
        var d := Levenshtein(name, other);
        if d <= 2 && d * 3 <= Min(Bytes(name), Bytes(other)) {
          assert StopsAt(name, popular, k);
          return Some(other);
        }
      }
    }
    return None;
  }

  /** A listed name is reported exactly when it is long enough and another near name is listed before it. */
  lemma {:induction false} ListedNameReported(name: string, popular: seq<string>, at: nat, r: Option<string>)
    requires at < |popular| && popular[at] == name
    requires forall i :: 0 <= i < at ==> popular[i] != name
    requires Found(name, popular, r)
    ensures r.Some? <==> Bytes(name) >= 3 && exists i :: 0 <= i < at && Near(name, popular[i])
  {
    hide Near;
    if i :| 0 <= i < at && Near(name, popular[i]) {
      var k := FirstNear(name, popular, i);
      assert StopsAt(name, popular, k) && popular[k] != name;
    } else {
      forall k: nat | StopsAt(name, popular, k) && popular[k] != name ensures false {
        StopsBefore(name, popular, k, at);
      }
    }
  }

  /** The shipped PyPI list names "gunicorn" before "uvicorn", two edits apart, so the popular
      package uvicorn is reported as a look-alike. */
  lemma {:induction false} UvicornReported(popular: seq<string>, i: nat, at: nat, r: Option<string>)
    requires i < at < |popular| && popular[i] == "gunicorn" && popular[at] == "uvicorn"
    requires forall k :: 0 <= k < at ==> popular[k] != "uvicorn"
    requires Found("uvicorn", popular, r)
    ensures r.Some? && (popular == ["gunicorn", "uvicorn"] ==> r.value == "gunicorn")
  {
    hide Near, Bytes;
    GunicornNear();
    ListedNameReported("uvicorn", popular, at, r);
    if popular == ["gunicorn", "uvicorn"] {
      var k: nat :| StopsAt("uvicorn", popular, k) && r.value == popular[k];
      assert StopsAt("uvicorn", popular, k) ==> k == 0;
    }
  }

  lemma {:induction false} GunicornNear()
    ensures Near("uvicorn", "gunicorn") && Bytes("uvicorn") == 7 && "gunicorn" != "uvicorn"
  {
    hide Distance;
    var a, b, c := "uvicorn", "guvicorn", "gunicorn";
    assert DeletesAt(b, a, 0) by { assert a == b[..0] + b[1..]; }
    assert ReplacesAt(b, c, 2) by { assert c == b[..2] + [c[2]] + b[3..]; }
    assert EditAt(a, b, 0) && EditAt(b, c, 2);
    assert Walk(a, c, [a, b, c]);
    NoWalkIsShorter(a, c, [a, b, c]);
    AsciiBytes(a);
    AsciiBytes(c);
  }

  lemma {:induction false} AsciiBytes(s: string)
    requires forall i :: 0 <= i < |s| ==> s[i] as int < 0x80
    ensures Bytes(s) == |s|
  {
    if s != "" {
      AsciiBytes(s[..|s| - 1]);
    }
  }

  lemma {:induction false} FirstNear(name: string, popular: seq<string>, i: nat) returns (k: nat)
    requires i < |popular| && Near(name, popular[i])
    requires forall j :: 0 <= j <= i ==> popular[j] != name
    ensures StopsAt(name, popular, k) && k <= i
  {
    if j: nat :| j < i && Near(name, popular[j]) {
      k := FirstNear(name, popular, j);
    } else {
      k := i;
    }
  }
}
