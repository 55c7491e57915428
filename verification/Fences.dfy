/** Three scanners for fenced code: `Blocks` (pkg/internal/code/parse.go), `fences`
    (pkg/internal/layers/static/scope.go) and `position` (pkg/internal/layers/decision/frame.go). */
module Fences {
  import opened Options
  import opened Texts

  // ----- A fence line

  function Leading(s: string, c: char): (n: nat)
    ensures n <= |s| && (n < |s| ==> s[n] != c) && forall i :: 0 <= i < n ==> s[i] == c
  {
    if s != "" && s[0] == c then
      assert forall i :: 0 < i < |s| ==> s[i] == s[1..][i - 1];
      1 + Leading(s[1..], c)
    else 0
  }

  lemma {:induction false} LeadingIs(s: string, c: char, n: nat)
    requires n <= |s| && (n < |s| ==> s[n] != c) && forall i :: 0 <= i < n ==> s[i] == c
    ensures Leading(s, c) == n
  {}

  /** The run of backticks or tildes of a fence line and what follows it; empty for other lines. */
  function FenceOf(line: string): (string, string) {
    var indent := Leading(line, ' ');
    if indent > 3 then ("", "") else RunOf(line[indent..])
  }

  function RunOf(trimmed: string): (string, string) {
    if trimmed == "" || (trimmed[0] != '`' && trimmed[0] != '~') then ("", "")
    else
      var n := Leading(trimmed, trimmed[0]);
      if n < 3 then ("", "") else (trimmed[..n], trimmed[n..])
  }

  predicate Opens(line: string) { FenceOf(line).0 != "" }

  predicate Closes(line: string, marker: string) {
    marker <= FenceOf(line).0 && TrimSpace(FenceOf(line).1) == ""
  }

  /** The marker that is open after a line. */
  function Step(marker: string, line: string): string {
    if marker == "" then FenceOf(line).0 else if Closes(line, marker) then "" else marker
  }

  /** The marker that is open before line `k`. */
  function Marker(lines: seq<string>, k: nat): string
    requires k <= |lines|
  {
    if k == 0 then "" else Step(Marker(lines, k - 1), lines[k - 1])
  }

  /** `Fence`: counts in a loop. */
  method Fence(line: string) returns (run: string, info: string)
    ensures (run, info) == FenceOf(line)
  {
    var indent := Leading(line, ' ');
    var trimmed := line[indent..];
    if |line| - |trimmed| > 3 || trimmed == "" || (trimmed[0] != '`' && trimmed[0] != '~') {
      return "", "";
    }
    var n := 0;
    while n < |trimmed| && trimmed[n] == trimmed[0]
      invariant n <= |trimmed| && forall i :: 0 <= i < n ==> trimmed[i] == trimmed[0]
    {
      n := n + 1;
    }
    LeadingIs(trimmed, trimmed[0], n);
    if n < 3 {
      return "", "";
    }
    return trimmed[..n], trimmed[n..];
  }

  lemma {:induction false} FenceOfRun(line: string, indent: nat, n: nat)
    requires indent == Leading(line, ' ')
    requires indent < |line| && (line[indent] == '`' || line[indent] == '~') ==>
      n == Leading(line[indent..], line[indent])
    ensures FenceOf(line) ==
              if indent > 3 || indent == |line| || (line[indent] != '`' && line[indent] != '~') || n < 3 then ("", "")
              else (Repeat(line[indent], n), line[indent + n..])
  {
    if indent < |line| && (line[indent] == '`' || line[indent] == '~') {
      assert line[indent..][..n] == Repeat(line[indent], n) && line[indent..][n..] == line[indent + n..];
    }
  }

  /** `fenceRun`: the character, the length of its run and the rest; a length below three is no fence. */
  method FenceRun(line: string) returns (c: char, n: nat, rest: string)
    ensures n >= 3 <==> Opens(line)
    ensures n >= 3 ==> FenceOf(line) == (Repeat(c, n), rest) && c != '\0'
  {
    hide FenceOf, RunOf;
    var indent := 0;
    while indent < |line| && line[indent] == ' '
      invariant indent <= |line| && forall i :: 0 <= i < indent ==> line[i] == ' '
    {
      indent := indent + 1;
    }
    LeadingIs(line, ' ', indent);
    c, n, rest := '\0', 0, "";
    if indent > 3 || indent == |line| || (line[indent] != '`' && line[indent] != '~') {
      FenceOfRun(line, indent, if indent == |line| then 0 else Leading(line[indent..], line[indent]));
      return;
    }
    c := line[indent];
    ghost var trimmed := line[indent..];
    while indent + n < |line| && line[indent + n] == c
      invariant indent + n <= |line| && forall i :: 0 <= i < n ==> trimmed[i] == c
    {
      assert trimmed[n] == c;
      n := n + 1;
    }
    assert n < |trimmed| ==> trimmed[n] != c;
    LeadingIs(trimmed, c, n);
    FenceOfRun(line, indent, n);
    rest := line[indent + n..];
  }

  function Repeat(c: char, n: nat): string { seq(n, _ => c) }

  lemma {:induction false} RepeatPrefix(c: char, n: nat, d: char, m: nat)
    requires m > 0
    ensures Repeat(d, m) <= Repeat(c, n) <==> c == d && m <= n
  {
    if Repeat(d, m) <= Repeat(c, n) {
      assert Repeat(d, m)[0] == Repeat(c, n)[0];
    }
  }

  // ----- Line flags

  ghost predicate Flagged(lines: seq<string>, i: nat)
    requires i < |lines|
  {
    Marker(lines, i) != "" || Opens(lines[i])
  }

  /** `fences`: remembers the open character and its width. */
  method FlagLines(lines: seq<string>) returns (fenced: seq<bool>)
    ensures |fenced| == |lines| && forall i :: 0 <= i < |lines| ==> (fenced[i] <==> Flagged(lines, i))
  {
    hide TrimSpace, FenceOf;
    fenced := [];
    var open, width := '\0', 0;
    for i := 0 to |lines|
      invariant |fenced| == i && forall k :: 0 <= k < i ==> (fenced[k] <==> Flagged(lines, k))
      invariant if open == '\0' then Marker(lines, i) == "" else width >= 3 && Marker(lines, i) == Repeat(open, width)
    {
      var c, n, rest := FenceRun(lines[i]);
      RepeatPrefix(c, n, open, if width == 0 then 1 else width);
      if open == '\0' && n >= 3 {
        open, width := c, n;
        fenced := fenced + [true];
      } else if open != '\0' {
        fenced := fenced + [true];
        if c == open && n >= width && TrimSpace(rest) == "" {
          open := '\0';
        }
      } else {
        fenced := fenced + [false];
      }
    }
  }

  // ----- Runs of fenced lines

  /** A fence begun on line `open` and closed on line `close`, or never when `close` is the
      number of lines. */
  datatype Run = Run(open: nat, close: nat)

  function CloseLine(lines: seq<string>, from: nat, marker: string): (c: nat)
    requires from <= |lines|
    ensures from <= c <= |lines| && (c < |lines| ==> Closes(lines[c], marker))
    ensures forall i :: from <= i < c ==> !Closes(lines[i], marker)
    decreases |lines| - from
  {
    if from == |lines| || Closes(lines[from], marker) then from else CloseLine(lines, from + 1, marker)
  }

  function RunsFrom(lines: seq<string>, k: nat): seq<Run>
    requires k <= |lines|
    decreases |lines| - k
  {
    if k == |lines| then []
    else if Opens(lines[k]) then
      var c := CloseLine(lines, k + 1, FenceOf(lines[k]).0);
      [Run(k, c)] + if c < |lines| then RunsFrom(lines, c + 1) else []
    else RunsFrom(lines, k + 1)
  }

  lemma {:induction false} MarkerStays(lines: seq<string>, k: nat, i: nat)
    requires k < |lines| && Opens(lines[k]) && Marker(lines, k) == ""
    requires k < i <= CloseLine(lines, k + 1, FenceOf(lines[k]).0)
    ensures i <= |lines| && Marker(lines, i) == FenceOf(lines[k]).0
    decreases i
  {
    hide FenceOf, RunOf, Closes, Leading;
    if i > k + 1 {
      MarkerStays(lines, k, i - 1);
    }
  }

  /** The line belongs to one of the runs; with `after`, not as its first line. */
  ghost predicate InRuns(runs: seq<Run>, i: nat, after: bool) {
    exists r :: r in runs && r.open <= i <= r.close && !(after && r.open == i)
  }

  lemma {:induction false} InRunsCons(first: Run, rest: seq<Run>, i: nat, after: bool)
    ensures InRuns([first] + rest, i, after)
       <==> (first.open <= i <= first.close && !(after && first.open == i)) || InRuns(rest, i, after)
  {
    assert forall r :: r in [first] + rest <==> r == first || r in rest;
  }

  lemma {:induction false} NotBefore(lines: seq<string>, k: nat, i: nat, after: bool)
    requires k <= |lines| && i < k
    ensures !InRuns(RunsFrom(lines, k), i, after)
  {
    RunsInside(lines, k);
  }

  /** Where the marker is closed before line `k`, the runs from there are the stretches where a
      marker is open. */
  lemma {:induction false} RunsAreOpen(lines: seq<string>, k: nat, i: nat)
    requires k <= i < |lines| && Marker(lines, k) == ""
    ensures Marker(lines, i) != "" <==> InRuns(RunsFrom(lines, k), i, true)
    ensures Flagged(lines, i) <==> InRuns(RunsFrom(lines, k), i, false)
    decreases |lines| - k
  {
    hide FenceOf, RunOf, Closes, Leading, CloseLine, InRuns;
    if Opens(lines[k]) {
      var c := CloseLine(lines, k + 1, FenceOf(lines[k]).0);
      var rest := if c < |lines| then RunsFrom(lines, c + 1) else [];
      InRunsCons(Run(k, c), rest, i, true);
      InRunsCons(Run(k, c), rest, i, false);
      if i > c {
        MarkerStays(lines, k, c);
        RunsAreOpen(lines, c + 1, i);
      } else {
        if k < i { MarkerStays(lines, k, i); }
        NoneLater(lines, c, i);
      }
    } else if i > k {
      RunsAreOpen(lines, k + 1, i);
    } else {
      NotBefore(lines, k + 1, i, true);
      NotBefore(lines, k + 1, i, false);
    }
  }

  lemma {:induction false} NoneLater(lines: seq<string>, c: nat, i: nat)
    requires i <= c <= |lines|
    ensures var rest := if c < |lines| then RunsFrom(lines, c + 1) else [];
            !InRuns(rest, i, true) && !InRuns(rest, i, false)
  {
    if c < |lines| {
      NotBefore(lines, c + 1, i, true);
      NotBefore(lines, c + 1, i, false);
    }
  }

  // ----- Line ends make no difference

  lemma {:induction false} LeadingAppend(s: string, e: string, c: char)
    requires e == "" || e[0] != c
    ensures Leading(s + e, c) == Leading(s, c)
  {
    var n := Leading(s, c);
    assert n < |s| ==> (s + e)[n] == s[n];
    assert forall i :: 0 <= i < n ==> (s + e)[i] == s[i];
    LeadingIs(s + e, c, n);
  }

  lemma {:induction false} RunAppend(s: string, e: string)
    requires LineEnd(e)
    ensures RunOf(s + e) == if RunOf(s).0 != "" then (RunOf(s).0, RunOf(s).1 + e) else ("", "")
  {
    if s != "" && (s[0] == '`' || s[0] == '~') {
      LeadingAppend(s, e, s[0]);
      var n := Leading(s, s[0]);
      assert (s + e)[..n] == s[..n] && (s + e)[n..] == s[n..] + e;
    } else if s == "" {
      assert s + e == e;
    }
  }

  lemma {:induction false} FenceAppend(line: string, e: string)
    requires LineEnd(e)
    ensures FenceOf(line + e) == if Opens(line) then (FenceOf(line).0, FenceOf(line).1 + e) else ("", "")
  {
    hide RunOf;
    var indent := Leading(line, ' ');
    LeadingAppend(line, e, ' ');
    assert (line + e)[indent..] == line[indent..] + e;
    RunAppend(line[indent..], e);
  }

  lemma {:induction false} LineEndIgnored(line: string, e: string, marker: string)
    requires LineEnd(e)
    ensures FenceOf(line + e).0 == FenceOf(line).0
    ensures marker != "" ==> (Closes(line + e, marker) <==> Closes(line, marker))
  {
    hide FenceOf;
    FenceAppend(line, e);
    BlankAppend(FenceOf(line).1, e);
  }

  lemma {:induction false} BlankAppend(info: string, e: string)
    requires LineEnd(e)
    ensures TrimSpace(info + e) == "" <==> TrimSpace(info) == ""
  {
    TrimmedAway(info);
    TrimmedAway(info + e);
    if Blank(info + e) {
      assert forall i :: 0 <= i < |info| ==> (info + e)[i] == info[i];
    }
  }

  /** Line by line the same text, with and without line ends. */
  ghost predicate SameLines(raw: seq<string>, lines: seq<string>) {
    |raw| == |lines| && forall i :: 0 <= i < |raw| ==> exists e :: LineEnd(e) && raw[i] == lines[i] + e
  }

  lemma {:induction false} SameCloseLine(raw: seq<string>, lines: seq<string>, from: nat, marker: string)
    requires SameLines(raw, lines) && from <= |raw| && marker != ""
    ensures CloseLine(raw, from, marker) == CloseLine(lines, from, marker)
    decreases |raw| - from
  {
    if from < |raw| {
      var e :| LineEnd(e) && raw[from] == lines[from] + e;
      LineEndIgnored(lines[from], e, marker);
      SameCloseLine(raw, lines, from + 1, marker);
    }
  }

  lemma {:induction false} SameCount(raw: seq<string>, lines: seq<string>)
    requires SameLines(raw, lines)
    ensures |raw| == |lines|
  {
  }

  lemma {:induction false} SameFence(raw: seq<string>, lines: seq<string>, k: nat)
    requires SameLines(raw, lines) && k < |raw|
    ensures FenceOf(raw[k]).0 == FenceOf(lines[k]).0
  {
    hide FenceOf, Closes;
    var e :| LineEnd(e) && raw[k] == lines[k] + e;
    LineEndIgnored(lines[k], e, "");
  }

  lemma {:induction false} SameRuns(raw: seq<string>, lines: seq<string>, k: nat)
    requires SameLines(raw, lines) && k <= |raw|
    ensures RunsFrom(raw, k) == RunsFrom(lines, k)
    decreases |raw| - k
  {
    hide FenceOf, RunOf, Leading, Closes, CloseLine, SameLines;
    SameCount(raw, lines);
    if k < |raw| {
      SameFence(raw, lines, k);
      if Opens(lines[k]) {
        SameCloseLine(raw, lines, k + 1, FenceOf(lines[k]).0);
        var c := CloseLine(lines, k + 1, FenceOf(lines[k]).0);
        if c < |raw| {
          SameRuns(raw, lines, c + 1);
        }
      } else {
        SameRuns(raw, lines, k + 1);
      }
    }
  }

  // ----- Blocks of known code

  datatype Block = Block(lang: string, start: nat, end: nat)

  /** The byte offset of line `k`. */
  function Offset(raw: seq<string>, k: nat): nat
    requires k <= |raw|
  {
    if k == 0 then 0 else Offset(raw, k - 1) + Bytes(raw[k - 1])
  }

  /** The interiors of the runs whose language `lang` knows, as byte spans, without the empty ones. */
  function KnownSpans(raw: seq<string>, runs: seq<Run>, lang: string -> string): seq<Block>
    requires forall r :: r in runs ==> r.open < r.close <= |raw|
  {
    if runs == [] then []
    else
      var r := runs[|runs| - 1];
      var b := Block(lang(FenceOf(raw[r.open]).1), Offset(raw, r.open + 1), Offset(raw, r.close));
      KnownSpans(raw, runs[..|runs| - 1], lang) + if b.lang != "" && b.end > b.start then [b] else []
  }

  lemma {:induction false} RunsInside(lines: seq<string>, k: nat)
    requires k <= |lines|
    ensures forall r :: r in RunsFrom(lines, k) ==> k <= r.open < r.close <= |lines|
    decreases |lines| - k
  {
    if k < |lines| {
      if Opens(lines[k]) {
        var c := CloseLine(lines, k + 1, FenceOf(lines[k]).0);
        if c < |lines| {
          RunsInside(lines, c + 1);
        }
      } else {
        RunsInside(lines, k + 1);
      }
    }
  }

  lemma {:induction false} OneMoreRun(raw: seq<string>, runs: seq<Run>, r: Run, lang: string -> string)
    requires (forall q :: q in runs ==> q.open < q.close <= |raw|) && r.open < r.close <= |raw|
    ensures forall q :: q in runs + [r] ==> q.open < q.close <= |raw|
    ensures var b := Block(lang(FenceOf(raw[r.open]).1), Offset(raw, r.open + 1), Offset(raw, r.close));
            KnownSpans(raw, runs + [r], lang) == KnownSpans(raw, runs, lang) + if b.lang != "" && b.end > b.start
              then [b] else []
  {
    assert (runs + [r])[..|runs|] == runs;
  }

  /** A run begun on line `begun` with `marker`, whose block is `b` so far, is still open at line `i`. */
  ghost predicate InRun(raw: seq<string>, begun: nat, i: nat, marker: string, b: Block, lang: string -> string) {
    && begun < i <= |raw| && Opens(raw[begun]) && marker == FenceOf(raw[begun]).0
    && b.start == Offset(raw, begun + 1) && b.lang == lang(FenceOf(raw[begun]).1)
    && CloseLine(raw, begun + 1, marker) == CloseLine(raw, i, marker)
  }

  lemma {:induction false} RunStep(raw: seq<string>, begun: nat, i: nat, marker: string, b: Block,
      lang: string -> string)
    requires InRun(raw, begun, i, marker, b, lang)
    ensures i == |raw| ==> RunsFrom(raw, begun) == [Run(begun, |raw|)]
    ensures i < |raw| && Closes(raw[i], marker) ==> RunsFrom(raw, begun) == [Run(begun, i)] + RunsFrom(raw, i + 1)
    ensures i < |raw| && !Closes(raw[i], marker) ==> InRun(raw, begun, i + 1, marker, b, lang)
  {}

  lemma {:induction false} NoRunStep(raw: seq<string>, i: nat, lang: string -> string)
    requires i < |raw|
    ensures Offset(raw, 0) == 0 && Offset(raw, i + 1) == Offset(raw, i) + Bytes(raw[i])
    ensures !Opens(raw[i]) ==> RunsFrom(raw, i) == RunsFrom(raw, i + 1)
    ensures Opens(raw[i]) ==>
      InRun(raw, i, i + 1, FenceOf(raw[i]).0, Block(lang(FenceOf(raw[i]).1), Offset(raw, i + 1), 0), lang)
  {}

  /** `Blocks`: `lang` looks up the language of an info string, and is empty for unknown ones. */
  method Blocks(text: string, lang: string -> string) returns (out: seq<Block>)
    ensures var raw := SplitAfter(text);
            && (forall r :: r in RunsFrom(raw, 0) ==> r.open < r.close <= |raw|)
            && out == KnownSpans(raw, RunsFrom(raw, 0), lang)
  {
    hide FenceOf, RunOf, Leading, KnownSpans, RunsFrom, CloseLine, Offset, Bytes, SplitAfter;
    var raw := SplitAfter(text);
    RunsInside(raw, 0);
    NoRunStep(raw, 0, lang);
    ghost var done: seq<Run>, begun: nat := [], 0;
    var open: Option<Block> := None;
    var marker, offset := "", 0;
    out := [];
    assert out == KnownSpans(raw, done, lang) by { NoRuns(raw, lang); }
    for i := 0 to |raw|
      invariant offset == Offset(raw, i)
      invariant forall r :: r in done ==> r.open < r.close <= |raw|
      invariant out == KnownSpans(raw, done, lang)
      invariant open.None? ==> RunsFrom(raw, 0) == done + RunsFrom(raw, i)
      invariant open.Some? ==>
        InRun(raw, begun, i, marker, open.value, lang) && RunsFrom(raw, 0) == done + RunsFrom(raw, begun)
    {
      var run, info := Fence(raw[i]);
      NoRunStep(raw, i, lang);
      if open.Some? {
        RunStep(raw, begun, i, marker, open.value, lang);
        OneMoreRun(raw, done, Run(begun, i), lang);
      }
      if open.None? && run != "" {
        marker, begun := run, i;
        open := Some(Block(lang(info), offset + Bytes(raw[i]), 0));
      } else if open.Some? && marker <= run && TrimSpace(info) == "" {
        done := done + [Run(begun, i)];
        var b := open.value.(end := offset);
        if b.lang != "" && b.end > b.start {
          out := out + [b];
        }
        open := None;
      }
      offset := offset + Bytes(raw[i]);
    }
    AtEnd(raw);
    if open.Some? {
      RunStep(raw, begun, |raw|, marker, open.value, lang);
      OneMoreRun(raw, done, Run(begun, |raw|), lang);
      if open.value.lang != "" && offset > open.value.start {
        out := out + [open.value.(end := offset)];
      }
      done := done + [Run(begun, |raw|)];
    }
    assert RunsFrom(raw, 0) == done;
  }

  lemma {:induction false} AtEnd(raw: seq<string>)
    ensures RunsFrom(raw, |raw|) == []
  {}

  lemma {:induction false} NoRuns(raw: seq<string>, lang: string -> string)
    ensures KnownSpans(raw, [], lang) == []
  {}

  // ----- The three scanners agree

  lemma {:induction false} OffsetsGrow(raw: seq<string>, i: nat, j: nat)
    requires i <= j <= |raw| && forall k :: 0 <= k < |raw| - 1 ==> raw[k] != ""
    ensures Offset(raw, i) <= Offset(raw, j) && (i < j && raw[i] != "" ==> Offset(raw, i) < Offset(raw, j))
    decreases j
  {
    if i < j {
      OffsetsGrow(raw, i, j - 1);
      if i == j - 1 && raw[i] != "" {
        assert Bytes(raw[i]) > 0;
      }
    }
  }

  lemma {:induction false} LinesHaveNewlines(text: string)
    ensures forall i :: 0 <= i < |SplitAfter(text)| - 1 ==> SplitAfter(text)[i] != ""
  {
    if text != "" {
      LinesHaveNewlines(text[1..]);
    }
  }

  ghost predicate Covers(b: Block, raw: seq<string>, i: nat)
    requires i < |raw|
  {
    b.start <= Offset(raw, i) < b.end
  }

  ghost predicate SomeCovers(blocks: seq<Block>, raw: seq<string>, i: nat)
    requires i < |raw|
  {
    exists b :: b in blocks && Covers(b, raw, i)
  }

  /** The line is strictly inside a run with a known language. */
  ghost predicate InKnownRun(runs: seq<Run>, raw: seq<string>, lang: string -> string, i: nat)
    requires forall r :: r in runs ==> r.open < r.close <= |raw|
  {
    exists r :: r in runs && r.open < i < r.close && lang(FenceOf(raw[r.open]).1) != ""
  }

  lemma {:induction false} SomeCoversSnoc(blocks: seq<Block>, last: seq<Block>, raw: seq<string>, i: nat)
    requires i < |raw|
    ensures SomeCovers(blocks + last, raw, i) <==> SomeCovers(blocks, raw, i) || SomeCovers(last, raw, i)
  {
    assert forall b :: b in blocks + last <==> b in blocks || b in last;
  }

  lemma {:induction false} InKnownRunSnoc(runs: seq<Run>, r: Run, raw: seq<string>, lang: string -> string, i: nat)
    requires forall q :: q in runs + [r] ==> q.open < q.close <= |raw|
    ensures InKnownRun(runs + [r], raw, lang, i)
       <==> InKnownRun(runs, raw, lang, i) || (r.open < i < r.close && lang(FenceOf(raw[r.open]).1) != "")
  {
    assert forall q :: q in runs + [r] <==> q in runs || q == r;
  }

  lemma {:induction false} CoveredByOne(raw: seq<string>, r: Run, i: nat)
    requires r.open < r.close <= |raw| && i < |raw| && raw[i] != ""
    requires forall k :: 0 <= k < |raw| - 1 ==> raw[k] != ""
    ensures Offset(raw, r.open + 1) <= Offset(raw, i) < Offset(raw, r.close) <==> r.open < i < r.close
  {
    if r.open < i { OffsetsGrow(raw, r.open + 1, i); } else { OffsetsGrow(raw, i, r.open + 1); }
    if i < r.close { OffsetsGrow(raw, i, r.close); } else { OffsetsGrow(raw, r.close, i); }
  }

  /** A line is inside a code block exactly when it is strictly inside a run with a known language. */
  lemma {:induction false} CoveredIff(raw: seq<string>, runs: seq<Run>, lang: string -> string, i: nat)
    requires forall r :: r in runs ==> r.open < r.close <= |raw|
    requires forall k :: 0 <= k < |raw| - 1 ==> raw[k] != ""
    requires i < |raw| && raw[i] != ""
    ensures SomeCovers(KnownSpans(raw, runs, lang), raw, i) <==> InKnownRun(runs, raw, lang, i)
  {
    hide FenceOf, Offset, InKnownRun;
    if runs == [] {
      assert !InKnownRun([], raw, lang, i) by { NoKnownRun(raw, lang, i); }
    } else {
      var init, r := runs[..|runs| - 1], runs[|runs| - 1];
      assert runs == init + [r];
      CoveredIff(raw, init, lang, i);
      var b := Block(lang(FenceOf(raw[r.open]).1), Offset(raw, r.open + 1), Offset(raw, r.close));
      var last := if b.lang != "" && b.end > b.start then [b] else [];
      CoveredByOne(raw, r, i);
      SomeCoversSnoc(KnownSpans(raw, init, lang), last, raw, i);
      InKnownRunSnoc(init, r, raw, lang, i);
      assert SomeCovers(last, raw, i) <==> b.lang != "" && Covers(b, raw, i) by { assert b in [b]; }
    }
  }

  lemma {:induction false} NoKnownRun(raw: seq<string>, lang: string -> string, i: nat)
    ensures !InKnownRun([], raw, lang, i)
  {}

  /** For every text and line: `fences` flags the line exactly when it belongs to a run,
      `position` has a marker open before it exactly when it is in a run after the first line,
      and `Blocks` covers it exactly when it is strictly inside a run with a known language. */
  lemma {:induction false} ScannersAgree(text: string, lang: string -> string, i: nat)
    requires i < |Lines(text)|
    ensures var lines, raw, runs := Lines(text), SplitAfter(text), RunsFrom(Lines(text), 0);
            && |raw| == |lines| && (forall r :: r in runs ==> r.open < r.close <= |raw|)
            && (Flagged(lines, i) <==> InRuns(runs, i, false))
            && (Marker(lines, i) != "" <==> InRuns(runs, i, true))
            && RunsFrom(raw, 0) == runs
            && (raw[i] != "" ==>
                  (SomeCovers(KnownSpans(raw, runs, lang), raw, i) <==> InKnownRun(runs, raw, lang, i)))
  {
    var lines, raw := Lines(text), SplitAfter(text);
    hide FenceOf, RunOf, Leading, KnownSpans, RunsFrom, Offset, Lines;
    forall k | 0 <= k < |lines| ensures |raw| == |lines| && exists e :: LineEnd(e) && raw[k] == lines[k] + e {
      RawLine(text, k);
    }
    RawLine(text, i);
    RunsAreOpen(lines, 0, i);
    RunsInside(lines, 0);
    SameRuns(raw, lines, 0);
    LinesHaveNewlines(text);
    if raw[i] != "" {
      CoveredIff(raw, RunsFrom(lines, 0), lang, i);
    }
  }

  // ----- Headings and the block around a line

  const MAX_HEADING_LEVEL := 6

  function HeadingLevel(line: string): nat {
    var level := Leading(line, '#');
    if level == 0 || level > MAX_HEADING_LEVEL || level == |line| || line[level] != ' ' then 0 else level
  }

  function Title(line: string): string { TrimSpace(line[HeadingLevel(line)..]) }

  function Cut(s: string): string {
    if s == "" || s[0] == ' ' then "" else [s[0]] + Cut(s[1..])
  }

  function Language(info: string): string { Cut(TrimSpace(info)) }

  /** A heading outside every fence. */
  predicate IsHeading(lines: seq<string>, i: nat)
    requires i < |lines|
  {
    Marker(lines, i) == "" && !Opens(lines[i]) && HeadingLevel(lines[i]) > 0
  }

  datatype Heading = Heading(line: nat, level: nat, title: string)

  function HeadingAt(lines: seq<string>, i: nat): Heading
    requires i < |lines|
  {
    Heading(i, HeadingLevel(lines[i]), Title(lines[i]))
  }

  ghost function Pop(stack: seq<Heading>, level: nat): seq<Heading> {
    if stack != [] && stack[|stack| - 1].level >= level then Pop(stack[..|stack| - 1], level) else stack
  }

  ghost function Outline(lines: seq<string>, k: nat): seq<Heading>
    requires k <= |lines|
  {
    if k == 0 then []
    else if IsHeading(lines, k - 1) then
      Pop(Outline(lines, k - 1), HeadingLevel(lines[k - 1])) + [HeadingAt(lines, k - 1)]
    else Outline(lines, k - 1)
  }

  ghost predicate Rising(stack: seq<Heading>) {
    forall a, b :: 0 <= a < b < |stack| ==> stack[a].line < stack[b].line && stack[a].level < stack[b].level
  }

  lemma {:induction false} PopExact(stack: seq<Heading>, level: nat)
    requires Rising(stack)
    ensures Rising(Pop(stack, level))
    ensures forall h :: h in Pop(stack, level) <==> h in stack && h.level < level
  {
    if stack != [] {
      var n := |stack| - 1;
      assert stack == stack[..n] + [stack[n]];
      if stack[n].level >= level {
        PopExact(stack[..n], level);
      } else {
        assert forall h :: h in stack ==> h.level <= stack[n].level;
      }
    }
  }

  lemma {:induction false} RisingPush(stack: seq<Heading>, h: Heading)
    requires Rising(stack) && forall g :: g in stack ==> g.line < h.line && g.level < h.level
    ensures Rising(stack + [h])
  {
    assert forall a :: 0 <= a < |stack| ==> stack[a] in stack;
  }

  /** A heading that no later heading of the same or a smaller level has replaced. */
  ghost predicate Current(lines: seq<string>, k: nat, h: Heading)
    requires k <= |lines|
  {
    && h.line < k && IsHeading(lines, h.line) && h == HeadingAt(lines, h.line)
    && forall j :: h.line < j < k && IsHeading(lines, j) ==> h.level < HeadingLevel(lines[j])
  }

  /** The heading stack holds exactly the headings still current, in order, with rising levels. */
  lemma {:induction false} OutlineExact(lines: seq<string>, k: nat)
    requires k <= |lines|
    ensures Rising(Outline(lines, k))
    ensures forall h :: h in Outline(lines, k) <==> Current(lines, k, h)
  {
    hide Marker, Opens, HeadingLevel, Title;
    if k > 0 {
      var was, now := Outline(lines, k - 1), Outline(lines, k);
      OutlineExact(lines, k - 1);
      if IsHeading(lines, k - 1) {
        var last := HeadingAt(lines, k - 1);
        PopExact(was, last.level);
        var kept := Pop(was, last.level);
        forall h ensures h in now <==> Current(lines, k, h) {
          assert h in now <==> h == last || h in kept;
        }
        RisingPush(kept, last);
      }
    }
  }

  ghost function Levels(stack: seq<Heading>): seq<nat> {
    seq(|stack|, a requires 0 <= a < |stack| => stack[a].level)
  }

  ghost function Titles(stack: seq<Heading>): seq<string> {
    seq(|stack|, a requires 0 <= a < |stack| => stack[a].title)
  }

  /** The line that opened the marker open before line `k`. */
  ghost function OpenLine(lines: seq<string>, k: nat): (o: nat)
    requires k <= |lines| && Marker(lines, k) != ""
    ensures o < k
  {
    if Marker(lines, k - 1) == "" then k - 1 else OpenLine(lines, k - 1)
  }

  /** The run that a flagged line belongs to. */
  ghost function RunAround(lines: seq<string>, i: nat): Run
    requires i < |lines| && Flagged(lines, i)
  {
    if Marker(lines, i) != "" then Run(OpenLine(lines, i), CloseLine(lines, i, Marker(lines, i)))
    else Run(i, CloseLine(lines, i + 1, FenceOf(lines[i]).0))
  }

  lemma {:induction false} RunAroundStays(lines: seq<string>, k: nat, i: nat)
    requires k < i < |lines| && Marker(lines, k) == "" && Opens(lines[k])
      && i <= CloseLine(lines, k + 1, FenceOf(lines[k]).0)
    ensures Marker(lines, i) != "" && RunAround(lines, i) == Run(k, CloseLine(lines, k + 1, FenceOf(lines[k]).0))
    decreases i
  {
    hide FenceOf, RunOf, Leading;
    MarkerStays(lines, k, i);
    if i > k + 1 {
      RunAroundStays(lines, k, i - 1);
      MarkerStays(lines, k, i - 1);
    }
  }

  lemma {:induction false} RunsNext(lines: seq<string>, k: nat)
    requires k < |lines|
    ensures !Opens(lines[k]) ==> RunsFrom(lines, k) == RunsFrom(lines, k + 1)
    ensures Opens(lines[k]) ==>
              var c := CloseLine(lines, k + 1, FenceOf(lines[k]).0);
              Run(k, c) in RunsFrom(lines, k)
                && (c < |lines| ==> forall r :: r in RunsFrom(lines, c + 1) ==> r in RunsFrom(lines, k))
  {
    hide Opens, FenceOf, CloseLine;
  }

  lemma {:induction false} RunAroundIsRun(lines: seq<string>, k: nat, i: nat)
    requires k <= i < |lines| && Marker(lines, k) == "" && Flagged(lines, i)
    ensures RunAround(lines, i) in RunsFrom(lines, k)
    decreases |lines| - k
  {
    hide FenceOf, RunOf, Leading, Closes, RunAround, RunsFrom, CloseLine;
    RunsNext(lines, k);
    if Opens(lines[k]) {
      var c := CloseLine(lines, k + 1, FenceOf(lines[k]).0);
      if i == k {
        assert RunAround(lines, i) == Run(k, c) by { RunAroundFirst(lines, k); }
      } else if i <= c {
        RunAroundStays(lines, k, i);
      } else {
        MarkerStays(lines, k, c);
        RunAroundIsRun(lines, c + 1, i);
      }
    } else {
      RunAroundIsRun(lines, k + 1, i);
    }
  }

  lemma {:induction false} RunAroundFirst(lines: seq<string>, k: nat)
    requires k < |lines| && Marker(lines, k) == "" && Opens(lines[k])
    ensures RunAround(lines, k) == Run(k, CloseLine(lines, k + 1, FenceOf(lines[k]).0))
  {}

  /** The state of the reader that places a line: its open fence and its heading stack. */
  class Position {
    var headings: seq<string>
    var levels: seq<nat>
    var marker: string
    var language: string
    var line: nat
    /** The lines read so far; the first has the number `base`. */
    ghost var seen: seq<string>
    ghost const base: nat

    ghost predicate Valid()
      reads this
    {
      && marker == Marker(seen, |seen|)
      && levels == Levels(Outline(seen, |seen|)) && headings == Titles(Outline(seen, |seen|))
      && (marker != "" ==> && line == base + OpenLine(seen, |seen|)
                           && language == Language(FenceOf(seen[OpenLine(seen, |seen|)]).1))
    }

    constructor (ghost base: nat)
      ensures Valid() && seen == [] && this.base == base
    {
      headings, levels, marker, language, line := [], [], "", "", 0;
      seen, this.base := [], base;
    }

    method Read(i: nat, text: string)
      requires Valid() && i == base + |seen|
      modifies this
      ensures Valid() && seen == old(seen) + [text]
    {
      hide FenceOf, RunOf, Leading, HeadingLevel, Pop;
      ghost var lines, k := seen + [text], |seen|;
      SamePrefix(seen, lines, k);
      var mark, info := Fence(text);
      if marker == "" && mark != "" {
        marker, line, language := mark, i, Language(info);
      } else if marker != "" && marker <= mark && TrimSpace(info) == "" {
        marker := "";
      } else if marker == "" {
        Heading(text, Outline(lines, k));
      }
      seen := lines;
    }

    /** `heading`: pops what the new heading replaces and pushes it. */
    method Heading(text: string, ghost stack: seq<Heading>)
      requires levels == Levels(stack) && headings == Titles(stack)
      modifies this`levels, this`headings
      ensures var level := HeadingLevel(text);
              var kept := if level == 0 then stack else Pop(stack, level);
              && levels == Levels(kept) + (if level == 0 then [] else [level])
              && headings == Titles(kept) + (if level == 0 then [] else [Title(text)])
    {
      hide HeadingLevel, Title;
      var level := HeadingLevel(text);
      if level == 0 {
        return;
      }
      ghost var kept := stack;
      while |levels| > 0 && levels[|levels| - 1] >= level
        invariant levels == Levels(kept) && headings == Titles(kept)
        invariant Pop(kept, level) == Pop(stack, level)
        decreases |levels|
      {
        levels := levels[..|levels| - 1];
        headings := headings[..|headings| - 1];
        kept := kept[..|kept| - 1];
      }
      levels := levels + [level];
      headings := headings + [Title(text)];
    }
  }

  lemma {:induction false} SamePrefix(a: seq<string>, b: seq<string>, k: nat)
    requires k <= |a| && a <= b
    ensures Marker(a, k) == Marker(b, k) && Outline(a, k) == Outline(b, k)
    ensures Marker(a, k) != "" ==> OpenLine(a, k) == OpenLine(b, k)
  {
    hide FenceOf, RunOf, Leading, HeadingLevel, Title;
    if k > 0 {
      SamePrefix(a, b, k - 1);
      assert a[k - 1] == b[k - 1];
    }
  }

  // ----- The block around a line

  /** The line after the frontmatter: 1 when there is none, one past the end when it never closes. */
  function Body(lines: seq<string>): (first: nat)
    requires lines != []
    ensures 1 <= first <= |lines| + 1
  {
    if TrimSpace(lines[0]) != "---" then 1 else Dashes(lines, 1)
  }

  function Dashes(lines: seq<string>, k: nat): (first: nat)
    requires k <= |lines|
    ensures k < first <= |lines| + 1
    decreases |lines| - k
  {
    if k == |lines| then |lines| + 1 else if TrimSpace(lines[k]) == "---" then k + 2 else Dashes(lines, k + 1)
  }

  datatype Around =
    | Frontmatter(first: nat, last: nat)
    | Fenced(first: nat, last: nat, language: string, section: seq<string>)
    | Text(section: seq<string>)

  function Min(a: nat, b: nat): nat { if a < b then a else b }

  /** `closing`: the number of the closing line from line `from` on, or of the last line. */
  method Closing(lines: seq<string>, from: nat, marker: string) returns (last: nat)
    requires 1 <= from <= |lines| + 1 && marker != ""
    ensures last == Min(CloseLine(lines, from - 1, marker) + 1, |lines|)
  {
    for i := from to |lines| + 1
      invariant CloseLine(lines, from - 1, marker) == CloseLine(lines, i - 1, marker)
    {
      var mark, info := Fence(lines[i - 1]);
      if mark != "" && marker <= mark && TrimSpace(info) == "" {
        return i;
      }
    }
    return |lines|;
  }

  lemma {:induction false} CloseLineSlice(lines: seq<string>, d: nat, k: nat, marker: string)
    requires d + k <= |lines|
    ensures CloseLine(lines, d + k, marker) == d + CloseLine(lines[d..], k, marker)
    decreases |lines| - k
  {
    if d + k < |lines| {
      CloseLineSlice(lines, d, k + 1, marker);
    }
  }

  function FenceName(language: string): string { if language == "" then "yes" else language }

  ghost function AroundBody(body: seq<string>, first: nat, i: nat): Around
    requires i < |body| && first > 0
  {
    var section := Titles(Outline(body, i));
    if Flagged(body, i) then
      var r := RunAround(body, i);
      Fenced(first + r.open, first - 1 + Min(r.close + 1, |body|), FenceName(Language(FenceOf(body[r.open]).1)),
        section)
    else Text(section)
  }

  /** What `textBlock` says about line `n`, in terms of the runs and headings of the body. */
  ghost function AroundLine(lines: seq<string>, n: nat): Around
    requires 1 <= n <= |lines|
  {
    var first := Body(lines);
    if n < first then Frontmatter(1, Min(first - 1, |lines|)) else AroundBody(lines[first - 1..], first, n - first)
  }

  lemma {:induction false} AroundOpen(lines: seq<string>, first: nat, i: nat, p: Position)
    requires 0 < first && first + i <= |lines| && p.marker != "" && At(p, lines[first - 1..], first, i)
    ensures AroundBody(lines[first - 1..], first, i)
         == Fenced(p.line, Min(CloseLine(lines, first - 1 + i, p.marker) + 1, |lines|), FenceName(p.language),
           p.headings)
  {
    hide FenceOf, Outline, Titles, OpenLine, Language;
    CloseLineSlice(lines, first - 1, i, p.marker);
  }

  lemma {:induction false} AroundMark(lines: seq<string>, first: nat, i: nat, p: Position, mark: string, info: string)
    requires 0 < first && first + i <= |lines| && p.marker == "" && At(p, lines[first - 1..], first, i)
    requires (mark, info) == FenceOf(lines[first - 1 + i])
    ensures AroundBody(lines[first - 1..], first, i) ==
              if mark != ""
                then Fenced(first + i, Min(CloseLine(lines, first + i, mark) + 1, |lines|), FenceName(Language(info)),
                p.headings)
              else Text(p.headings)
  {
    hide FenceOf, Outline, Titles, OpenLine, Language;
    CloseLineSlice(lines, first - 1, i + 1, mark);
  }

  /** The reader stands before line `k` of the body. */
  ghost predicate At(p: Position, body: seq<string>, first: nat, k: nat)
    requires k <= |body|
    reads p
  {
    && p.marker == Marker(body, k) && p.headings == Titles(Outline(body, k))
    && (p.marker != "" ==>
      p.line == first + OpenLine(body, k) && p.language == Language(FenceOf(body[OpenLine(body, k)]).1))
  }

  /** Reads the lines of the body before line `n`. */
  method ReadBefore(lines: seq<string>, first: nat, n: nat) returns (p: Position)
    requires 1 <= first <= n <= |lines|
    ensures At(p, lines[first - 1..], first, n - first)
  {
    hide FenceOf, RunOf, Leading, HeadingLevel, Title, Outline, Titles, Levels, CloseLine, Language;
    p := new Position(first);
    for i := first to n
      invariant p.Valid() && fresh(p) && p.base == first && p.seen == lines[first - 1..i - 1]
    {
      p.Read(i, lines[i - 1]);
    }
    SamePrefix(p.seen, lines[first - 1..], n - first);
  }

  method BodyBlock(lines: seq<string>, first: nat, n: nat) returns (b: Around)
    requires 1 <= first <= n <= |lines|
    ensures b == AroundBody(lines[first - 1..], first, n - first)
  {
    hide FenceOf, CloseLine, Language, AroundBody, At, FenceName;
    var p := ReadBefore(lines, first, n);
    var mark, info := Fence(lines[n - 1]);
    if p.marker != "" {
      var last := Closing(lines, n, p.marker);
      b := Fenced(p.line, last, FenceName(p.language), p.headings);
      AroundOpen(lines, first, n - first, p);
    } else {
      AroundMark(lines, first, n - first, p, mark, info);
      if mark != "" {
        var last := Closing(lines, n + 1, mark);
        b := Fenced(n, last, FenceName(Language(info)), p.headings);
      } else {
        b := Text(p.headings);
      }
    }
  }

  lemma {:induction false} MarkerAfter(lines: seq<string>, d: nat, i: nat)
    requires d + i <= |lines| && Marker(lines, d) == ""
    ensures Marker(lines[d..], i) == Marker(lines, d + i)
  {
    hide FenceOf, Closes;
    if i > 0 {
      MarkerAfter(lines, d, i - 1);
    }
  }

  /** Reading from line `first` and from the first line leaves the same marker open `i` lines on. */
  ghost predicate AgreesAt(lines: seq<string>, first: nat, i: nat)
    requires 1 <= first && first - 1 + i <= |lines|
  {
    Marker(lines[first - 1..], i) == Marker(lines, first - 1 + i)
  }

  /** `position` starts after the frontmatter and the other two at the first line.  They agree on
      every line of the body exactly when no fence is open where the body starts. */
  lemma {:induction false} BodyAgreesIff(lines: seq<string>)
    requires lines != []
    ensures (forall i: nat :: Body(lines) - 1 + i <= |lines| ==> AgreesAt(lines, Body(lines), i))
       <==> Marker(lines, Body(lines) - 1) == ""
  {
    hide FenceOf, Closes, Body;
    var first := Body(lines);
    if Marker(lines, first - 1) == "" {
      forall i: nat | first - 1 + i <= |lines| ensures AgreesAt(lines, first, i) {
        MarkerAfter(lines, first - 1, i);
      }
    } else {
      assert !AgreesAt(lines, first, 0);
    }
  }

  /** Where the two readings agree on one line, they agree on all later ones. */
  lemma {:induction false} AgreementLasts(lines: seq<string>, first: nat, i: nat, j: nat)
    requires 1 <= first && i <= j && first - 1 + j <= |lines| && AgreesAt(lines, first, i)
    ensures AgreesAt(lines, first, j)
    decreases j
  {
    hide Step;
    if i < j {
      AgreementLasts(lines, first, i, j - 1);
      assert lines[first - 1..][j - 1] == lines[first - 1 + j - 1];
    }
  }

  /** A fence marker inside the frontmatter: the scanners that start at the first line take the body
      for code, the one that starts at the body does not. */
  lemma {:induction false} FenceInFrontmatter()
    ensures var lines := ["---", "```", "---", "x"];
            Body(lines) == 4 && Marker(lines, 3) == "```" && Flagged(lines, 3)
            && Marker(lines[3..], 0) == "" && !Flagged(lines[3..], 0) && !AgreesAt(lines, 4, 0)
  {
    var dashes, ticks, lines := "---", "```", ["---", "```", "---", "x"];
    assert FenceOf(dashes) == ("", "") && FenceOf("x") == ("", "");
    FenceOfRun(ticks, 0, 3);
    assert Repeat('`', 3) == ticks && ticks[3..] == "";
    assert Marker(lines, 1) == "";
    assert Marker(lines, 2) == ticks;
    assert !Closes(dashes, ticks);
    assert Marker(lines, 3) == ticks;
    assert TrimSpace(dashes) == dashes && TrimSpace(ticks) == ticks;
    assert Dashes(lines, 2) == 4;
    assert lines[3..] == ["x"];
  }

  /** The block of a line: the whole run it belongs to, under the headings current there. */
  method TextBlock(lines: seq<string>, n: nat) returns (b: Around)
    requires 1 <= n <= |lines|
    ensures b == AroundLine(lines, n)
  {
    var first := Body(lines);
    if n < first {
      b := Frontmatter(1, Min(first - 1, |lines|));
    } else {
      b := BodyBlock(lines, first, n);
    }
  }
}
