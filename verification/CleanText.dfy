/** Clean text and the way back to the written text (pkg/internal/layers/reveal/normalize.go,
    `Artifact.Source` in pkg/internal/inventory/artifact.go).  Offsets into the clean text and
    in shifts are byte offsets; words and hits are kept in runes of the written text. */
module CleanText {
  import opened Options
  import opened Texts
  import opened LineIndex

  /** The Unicode tables, as parameters. */
  datatype Unicode = Unicode(
    space: char -> bool, ignorable: char -> bool, format: char -> bool, variation: char -> bool,
    letter: char -> bool, digit: char -> bool, latin: char -> bool, neutral: char -> bool,
    nfkc: char -> string, skeleton: map<char, string>)
  {
    predicate Dropped(r: char) {
      if r as int < 0x80 then Control(r) else !space(r) && (ignorable(r) || format(r) || variation(r))
    }

    predicate Joins(r: char) { letter(r) || digit(r) }

    /** A rune that belongs to a word. */
    predicate Wordy(r: char) { Joins(r) || Dropped(r) }

    predicate Foreign(r: char) { letter(r) && !latin(r) && !neutral(r) }

    function Mapped(folded: string): string {
      if folded == "" then ""
      else
        var last := folded[|folded| - 1];
        Mapped(folded[..|folded| - 1]) + if last in skeleton then skeleton[last] else [last]
    }

    predicate Concealed(r: char) {
      r as int >= 0x80 && letter(r) && forall i :: 0 <= i < |Mapped(nfkc(r))| ==> Mapped(nfkc(r))[i] as int < 0x80
    }

    predicate Lookalike(word: string) {
      && (forall i :: 0 <= i < |word| && Foreign(word[i]) ==> Concealed(word[i]))
      && exists i :: 0 <= i < |word| && !Foreign(word[i]) && latin(word[i])
    }

    // ----- Words

    /** Where the run of word runes before `i` starts. */
    function RunStart(src: string, i: nat): (s: nat)
      requires i <= |src|
      ensures s <= i && (forall k :: s <= k < i ==> Wordy(src[k])) && (s > 0 ==> !Wordy(src[s - 1]))
    {
      if i > 0 && Wordy(src[i - 1]) then RunStart(src, i - 1) else i
    }

    function RunEnd(src: string, i: nat): (e: nat)
      requires i <= |src|
      ensures i <= e <= |src| && (forall k :: i <= k < e ==> Wordy(src[k])) && (e < |src| ==> !Wordy(src[e]))
      decreases |src| - i
    {
      if i < |src| && Wordy(src[i]) then RunEnd(src, i + 1) else i
    }

    /** A rune that a backslash escapes is not part of the word. */
    function WordStart(src: string, i: nat): (s: nat)
      requires i <= |src|
      ensures s <= |src|
    {
      var s := RunStart(src, i);
      if s > 0 && src[s - 1] == '\\' && s < |src| then s + 1 else s
    }

    /** Whether the letter at `k` stands in a Latin word written with look-alike letters. */
    predicate Swapped(src: string, k: nat)
      requires k < |src|
    {
      WordStart(src, k) <= k && WordStart(src, k) <= RunEnd(src, k) && Lookalike(src[WordStart(src, k)..RunEnd(src, k)])
    }

    // ----- What is written, and from where

    /** The bytes written for rune `k`. */
    function Emit(src: string, k: nat): seq<Byte>
      requires k < |src|
    {
      var r := src[k];
      if Dropped(r) then []
      else if r as int < 0x80 then Encode(r)
      else if Foreign(r) && !Swapped(src, k) then EncodeAll(nfkc(r))
      else EncodeAll(Mapped(nfkc(r)))
    }

    ghost function Clean(src: string, k: nat): seq<Byte>
      requires k <= |src|
    {
      if k == 0 then [] else Clean(src, k - 1) + Emit(src, k - 1)
    }

    predicate Verbatim(src: string, k: nat)
      requires k < |src|
    {
      Emit(src, k) == Encode(src[k])
    }

    /** For every clean byte the written byte it comes from: the same byte of a rune copied
        verbatim, the first byte of any other rune. */
    ghost function Origins(src: string, k: nat): (o: seq<nat>)
      requires k <= |src|
      ensures |o| == |Clean(src, k)|
    {
      if k == 0 then []
      else
        var at, n := At(src, k - 1), |Emit(src, k - 1)|;
        Origins(src, k - 1) + seq(n, j => if Verbatim(src, k - 1) then at + j else at)
    }

    // ----- Flags

    /** What is wrong with rune `k`, if anything. */
    ghost function Flag(src: string, k: nat): set<Rule>
      requires k < |src|
    {
      if Dropped(src[k]) then
        if Joins(PrevOf(src, k)) && Joins(NextOf(src, k + 1)) then {Invisible} else {}
      else if src[k] as int >= 0x80 && Foreign(src[k]) && Swapped(src, k) then {LookAlike}
      else {}
    }

    /** The last rune before `i` that is not dropped. */
    function PrevOf(src: string, i: nat): char
      requires i <= |src|
    {
      if i == 0 then RUNE_ERROR else if !Dropped(src[i - 1]) then src[i - 1] else PrevOf(src, i - 1)
    }

    function NextOf(src: string, i: nat): char
      requires i <= |src|
      decreases |src| - i
    {
      if i == |src| then RUNE_ERROR else if !Dropped(src[i]) then src[i] else NextOf(src, i + 1)
    }
  }

  // ----- What folding and dropping come to

  /** Runes are mapped one by one, each to its look-alike if it has one. */
  lemma {:induction false} MappedJoin(u: Unicode, a: string, b: string)
    ensures u.Mapped(a + b) == u.Mapped(a) + u.Mapped(b)
    decreases |b|
  {
    if b == "" {
      assert a + b == a;
    } else {
      assert (a + b)[..|a + b| - 1] == a + b[..|b| - 1];
      MappedJoin(u, a, b[..|b| - 1]);
    }
  }

  lemma {:induction false} MappedOne(u: Unicode, r: char)
    ensures u.Mapped([r]) == if r in u.skeleton then u.skeleton[r] else [r]
  {
    assert [r][..0] == "" && u.Mapped("") == "";
  }

  /** `s` to `e` is a whole word that no backslash comes before, with rune `k` in it. */
  ghost predicate InWord(u: Unicode, src: string, s: nat, e: nat, k: nat) {
    && s <= k < e <= |src| && (forall i :: s <= i < e ==> u.Wordy(src[i]))
    && (s > 0 ==> !u.Wordy(src[s - 1]) && src[s - 1] != '\\') && (e < |src| ==> !u.Wordy(src[e]))
  }

  lemma {:induction false} WordIs(u: Unicode, src: string, s: nat, e: nat, k: nat)
    requires InWord(u, src, s, e, k)
    ensures u.WordStart(src, k) == s && u.RunEnd(src, k) == e
  {
    hide Unicode.Wordy;
    assert u.RunStart(src, k) == s;
  }

  /** Every rune of it reads as ASCII once folded and mapped. */
  ghost predicate ReadsAscii(u: Unicode, r: char) {
    r as int >= 0x80 && u.letter(r) && forall i :: 0 <= i < |u.Mapped(u.nfkc(r))| ==>
      u.Mapped(u.nfkc(r))[i] as int < 0x80
  }

  /** A word is written with look-alike letters when it has a Latin letter and every other letter reads as ASCII. */
  ghost predicate Disguised(u: Unicode, src: string, s: nat, e: nat)
    requires s <= e <= |src|
  {
    && (exists i :: s <= i < e && u.latin(src[i]) && !u.Foreign(src[i]))
    && forall i :: s <= i < e && u.Foreign(src[i]) ==> ReadsAscii(u, src[i])
  }

  /** Foreign letters of a disguised word are written as the ASCII they read as and flagged; of any other word they
      are only folded, and not flagged. */
  lemma {:induction false} ForeignLetter(u: Unicode, src: string, s: nat, e: nat, k: nat)
    requires InWord(u, src, s, e, k) && u.Foreign(src[k]) && !u.Dropped(src[k]) && src[k] as int >= 0x80
    ensures u.Emit(src, k) == EncodeAll(if Disguised(u, src, s, e) then u.Mapped(u.nfkc(src[k])) else u.nfkc(src[k]))
    ensures LookAlike in u.Flag(src, k) <==> Disguised(u, src, s, e)
  {
    hide Unicode.Wordy, Unicode.Mapped, Unicode.Dropped, Unicode.RunEnd, Unicode.WordStart, EncodeAll;
    WordIs(u, src, s, e, k);
    var word := src[s..e];
    assert forall i :: 0 <= i < |word| ==> word[i] == src[s + i];
    assert u.Lookalike(word) <==> Disguised(u, src, s, e) by {
      if Disguised(u, src, s, e) {
        var i :| s <= i < e && u.latin(src[i]) && !u.Foreign(src[i]);
        assert word[i - s] == src[i];
      }
      if u.Lookalike(word) {
        forall i | s <= i < e && u.Foreign(src[i]) ensures ReadsAscii(u, src[i]) {
          assert word[i - s] == src[i];
        }
      }
    }
  }

  /** What reads as ASCII is written in ASCII. */
  lemma {:induction false} AsciiBytes(text: string)
    requires forall i :: 0 <= i < |text| ==> text[i] as int < 0x80
    ensures forall i :: 0 <= i < |EncodeAll(text)| ==> EncodeAll(text)[i] < 0x80
  {
    if text != "" {
      AsciiBytes(text[..|text| - 1]);
    }
  }

  /** ASCII text without control characters stays as it is, and nothing in it is flagged. */
  lemma {:induction false} AsciiStays(u: Unicode, src: string, k: nat)
    requires k <= |src| && forall i :: 0 <= i < |src| ==> src[i] as int < 0x80 && !Control(src[i])
    ensures u.Clean(src, k) == EncodeAll(src[..k]) && forall i :: 0 <= i < k ==> u.Flag(src, i) == {}
  {
    hide Encode;
    if k > 0 {
      AsciiStays(u, src, k - 1);
      assert src[..k][..k - 1] == src[..k - 1];
    }
  }

  /** A dropped rune is not written, and is flagged exactly when the runes kept next to it are both
      letters or digits. */
  lemma {:induction false} DroppedRune(u: Unicode, src: string, k: nat, i: nat, j: nat)
    requires i < k < j < |src| && !u.Dropped(src[i]) && !u.Dropped(src[j])
    requires forall m :: i < m < j ==> u.Dropped(src[m])
    ensures u.Emit(src, k) == []
    ensures Invisible in u.Flag(src, k) <==> u.Joins(src[i]) && u.Joins(src[j])
  {
    PrevIs(u, src, k, i);
    NextIs(u, src, k + 1, j);
    hide Unicode.Dropped, Unicode.PrevOf, Unicode.NextOf, Unicode.Joins;
  }

  lemma {:induction false} PrevIs(u: Unicode, src: string, k: nat, i: nat)
    requires i < k <= |src| && !u.Dropped(src[i]) && forall m :: i < m < k ==> u.Dropped(src[m])
    ensures u.PrevOf(src, k) == src[i]
  {
    hide Unicode.Dropped;
    if i < k - 1 {
      PrevIs(u, src, k - 1, i);
    }
  }

  lemma {:induction false} NextIs(u: Unicode, src: string, k: nat, j: nat)
    requires k <= j < |src| && !u.Dropped(src[j]) && forall m :: k <= m < j ==> u.Dropped(src[m])
    ensures u.NextOf(src, k) == src[j]
    decreases j - k
  {
    hide Unicode.Dropped;
    if k < j {
      NextIs(u, src, k + 1, j);
    }
  }

  predicate Control(r: char) {
    (r as int < 0x20 && r != '\t' && r != '\n' && r != '\r') || r as int == 0x7F
  }

  /** The byte offset of rune `k`. */
  function At(src: string, k: nat): nat
    requires k <= |src|
  {
    Bytes(src[..k])
  }

  lemma {:induction false} AtNext(src: string, k: nat)
    requires k < |src|
    ensures At(src, k + 1) == At(src, k) + Width(src[k])
    ensures At(src, |src|) == |EncodeAll(src)|
  {
    assert src[..k + 1][..k] == src[..k];
    assert src[..|src|] == src;
  }

  lemma {:induction false} AtGrows(src: string, j: nat, k: nat)
    requires j <= k <= |src|
    ensures At(src, j) + (k - j) <= At(src, k)
    decreases k
  {
    if j < k {
      AtGrows(src, j, k - 1);
      AtNext(src, k - 1);
    }
  }

  // ----- Shifts

  datatype Shift = Shift(clean: nat, source: nat)

  /** The offset by the last shift at or before it, or itself. */
  function SourceOf(shifts: seq<Shift>, at: nat): int {
    if shifts == [] then at
    else
      var last := shifts[|shifts| - 1];
      if last.clean <= at then at + last.source - last.clean else SourceOf(shifts[..|shifts| - 1], at)
  }

  ghost predicate Rising(shifts: seq<Shift>) {
    forall i, j :: 0 <= i < j < |shifts| ==> shifts[i].clean < shifts[j].clean
  }

  /** The shifts know where each of the first clean bytes comes from. */
  ghost predicate MappedBy(shifts: seq<Shift>, origins: seq<nat>) {
    && Rising(shifts)
    && (forall i :: 0 <= i < |shifts| ==> shifts[i].clean < |origins|)
    && forall c :: 0 <= c < |origins| ==> SourceOf(shifts, c) == origins[c]
  }

  lemma {:induction false} MarkOne(shifts: seq<Shift>, clean: nat, source: nat, origins: seq<nat>)
    requires MappedBy(shifts, origins) && clean == |origins|
    ensures var shift := if |shifts| > 0 then shifts[|shifts| - 1].source - shifts[|shifts| - 1].clean else 0;
            var now := if source - clean != shift then shifts + [Shift(clean, source)] else shifts;
            MappedBy(now, origins + [source]) && forall c: nat :: c >= clean ==> SourceOf(now, c) == c + source - clean
  {
    hide SourceOf;
    PastLast(shifts, clean);
    if source - clean != (if |shifts| > 0 then shifts[|shifts| - 1].source - shifts[|shifts| - 1].clean else 0) {
      var shift := Shift(clean, source);
      forall c: nat
        ensures SourceOf(shifts + [shift], c) == if clean <= c then c + source - clean else SourceOf(shifts, c) {
        SourceNext(shifts, shift, c);
      }
    }
  }

  lemma {:induction false} SourceNext(shifts: seq<Shift>, shift: Shift, at: nat)
    ensures SourceOf(shifts + [shift], at) == if shift.clean <= at then at + shift.source - shift.clean
      else SourceOf(shifts, at)
  {
    assert (shifts + [shift])[..|shifts|] == shifts;
  }

  /** Past the last shift, the offset stays that of the last shift. */
  lemma {:induction false} PastLast(shifts: seq<Shift>, clean: nat)
    requires forall i :: 0 <= i < |shifts| ==> shifts[i].clean < clean
    ensures forall c: nat :: c >= clean ==>
              SourceOf(shifts, c) == c + if |shifts| > 0 then shifts[|shifts| - 1].source - shifts[|shifts| - 1].clean
                else 0
  {
  }

  lemma {:induction false} SourceAt(shifts: seq<Shift>, at: nat, i: nat)
    requires Rising(shifts) && i <= |shifts|
    requires (forall k :: 0 <= k < i ==> shifts[k].clean <= at) && forall k :: i <= k < |shifts| ==>
      shifts[k].clean > at
    ensures SourceOf(shifts, at) == if i == 0 then at else at + shifts[i - 1].source - shifts[i - 1].clean
  {
    if i < |shifts| {
      SourceAt(shifts[..|shifts| - 1], at, i);
    }
  }

  /** `Artifact.Source`: binary search over the shifts. */
  method Source(shifts: seq<Shift>, at: nat) returns (source: int)
    requires Rising(shifts)
    ensures source == SourceOf(shifts, at)
  {
    var after := (i: nat) => i < |shifts| && shifts[i].clean > at;
    var i := Search(|shifts|, after);
    assert forall k: nat :: k < |shifts| ==> (after(k) <==> shifts[k].clean > at);
    SourceAt(shifts, at, i);
    if i == 0 {
      return at;
    }
    return at + shifts[i - 1].source - shifts[i - 1].clean;
  }

  // ----- The pass

  datatype Rule = Invisible | LookAlike

  /** Runes `start` to `end` of the written text. */
  datatype Hit = Hit(rule: Rule, start: nat, end: nat)

  const RUNE_ERROR: char := '\U{FFFD}'

  class Pass {
    const u: Unicode
    const src: string
    var out: seq<Byte>
    var shifts: seq<Shift>
    var hits: seq<Hit>
    var until: nat
    var swapped: bool

    constructor (u: Unicode, src: string)
      ensures this.u == u && this.src == src && Read(0)
    {
      this.u, this.src := u, src;
      out, shifts, hits, until, swapped := [], [], [], 0, false;
    }

    /** A shift is recorded only where the distance to the source changes. */
    method Mark(clean: nat, source: nat, ghost origins: seq<nat>)
      requires MappedBy(shifts, origins) && clean == |origins|
      modifies this`shifts
      ensures MappedBy(shifts, origins + [source])
      ensures forall c: nat :: c >= clean ==> SourceOf(shifts, c) == c + source - clean
    {
      var shift := if |shifts| > 0 then shifts[|shifts| - 1].source - shifts[|shifts| - 1].clean else 0;
      MarkOne(shifts, clean, source, origins);
      if source - clean != shift {
        shifts := shifts + [Shift(clean, source)];
      }
    }

    /** Writes the bytes of one rune: a copy needs one mark, a folding one mark a byte. */
    method Write(s: seq<Byte>, at: nat, rune: seq<Byte>, ghost origins: seq<nat>)
      requires MappedBy(shifts, origins) && |out| == |origins| && rune != []
      modifies this`shifts, this`out
      ensures out == old(out) + s
      ensures MappedBy(shifts, origins + seq(|s|, j => if s == rune then at + j else at))
    {
      ghost var added := seq(|s|, j => if s == rune then at + j else at);
      if s == rune {
        Mark(|out|, at, origins);
        forall c | 0 <= c < |origins + added| ensures SourceOf(shifts, c) == (origins + added)[c] {
          if c < |origins| {
            assert (origins + [at])[c] == origins[c];
          }
        }
      } else {
        for j := 0 to |s|
          invariant MappedBy(shifts, origins + added[..j])
          invariant out == old(out)
        {
          Mark(|out| + j, at, origins + added[..j]);
          assert origins + added[..j] + [at] == origins + added[..j + 1];
        }
        assert added[..|s|] == added;
      }
      out := out + s;
    }

    method WordStart(i: nat) returns (s: nat)
      requires i <= |src|
      ensures s == u.WordStart(src, i)
    {
      s := i;
      while s > 0 && u.Wordy(src[s - 1])
        invariant s <= i && u.RunStart(src, s) == u.RunStart(src, i)
      {
        s := s - 1;
      }
      if s > 0 && src[s - 1] == '\\' && s < |src| {
        s := s + 1;
      }
    }

    method WordEnd(i: nat) returns (e: nat)
      requires i <= |src|
      ensures e == u.RunEnd(src, i)
    {
      e := i;
      while e < |src| && u.Wordy(src[e])
        invariant i <= e <= |src| && u.RunEnd(src, e) == u.RunEnd(src, i)
      {
        e := e + 1;
      }
    }

    method Lookalike(word: string) returns (found: bool)
      ensures found == u.Lookalike(word)
    {
      found := false;
      for i := 0 to |word|
        invariant forall k :: 0 <= k < i && u.Foreign(word[k]) ==> u.Concealed(word[k])
        invariant found <==> exists k :: 0 <= k < i && !u.Foreign(word[k]) && u.latin(word[k])
      {
        if u.Foreign(word[i]) {
          if !u.Concealed(word[i]) {
            return false;
          }
        } else if u.latin(word[i]) {
          found := true;
        }
      }
    }

    lemma {:induction false} SameWord(j: nat, k: nat)
      requires j <= k < |src| && k < u.RunEnd(src, j) && u.WordStart(src, j) <= j
      ensures u.WordStart(src, k) == u.WordStart(src, j) && u.RunEnd(src, k) == u.RunEnd(src, j)
      decreases k
    {
      if j < k {
        SameWord(j, k - 1);
        assert u.Wordy(src[k - 1]);
      }
    }

    /** The cache answers as if the word were looked up again at every letter. */
    method Swap(k: nat) returns (yes: bool)
      requires k < |src| && u.Foreign(src[k]) && Cached(u, src, until, swapped, k)
      modifies this`until, this`swapped
      ensures yes == u.Swapped(src, k) && Cached(u, src, until, swapped, k + 1)
    {
      if k < until {
        return swapped;
      }
      var start := WordStart(k);
      var end := WordEnd(k);
      assert u.Wordy(src[k]);
      if k < start {
        return false;
      }
      until := end;
      swapped := Lookalike(src[start..end]);
      forall j | k <= j < end ensures u.Wordy(src[j]) && (swapped <==> u.Swapped(src, j)) {
        SameWord(k, j);
      }
      return swapped;
    }

    // ----- Hits

    method PrevRune(at: nat) returns (r: char)
      requires at <= |src|
      ensures r == u.PrevOf(src, at)
    {
      var i: nat := at;
      while i > 0
        invariant i <= at && u.PrevOf(src, i) == u.PrevOf(src, at)
      {
        if !u.Dropped(src[i - 1]) {
          return src[i - 1];
        }
        i := i - 1;
      }
      return RUNE_ERROR;
    }

    method NextRune(at: nat) returns (r: char)
      requires at <= |src|
      ensures r == u.NextOf(src, at)
    {
      var i: nat := at;
      while i < |src|
        invariant at <= i <= |src| && u.NextOf(src, i) == u.NextOf(src, at)
      {
        if !u.Dropped(src[i]) {
          return src[i];
        }
        i := i + 1;
      }
      return RUNE_ERROR;
    }

    /** A new hit, or the last one grown by one rune. */
    method Add(rule: Rule, i: nat)
      requires i < |src| && Exact(u, src, hits, i) && u.Flag(src, i) == {rule}
      modifies this`hits
      ensures Exact(u, src, hits, i + 1)
    {
      hide Apart, Covered;
      ghost var was := hits;
      GrowOrAppend(was, rule, i);
      var n := |hits|;
      if n > 0 && hits[n - 1].rule == rule && hits[n - 1].end == i {
        hits := hits[n - 1 := Hit(rule, hits[n - 1].start, i + 1)];
      } else {
        hits := hits + [Hit(rule, i, i + 1)];
      }
      forall k: nat, r | k < i + 1 ensures r in u.Flag(src, k) <==> Covered(hits, r, k) {
        if k < i {
          assert r in u.Flag(src, k) <==> Covered(was, r, k);
        } else {
          assert k == i && u.Flag(src, k) == {rule};
          assert !Covered(was, r, i);
        }
      }
    }

    /** Everything known after the runes before `k`. */
    ghost predicate Read(k: nat)
      requires k <= |src|
      reads this
    {
      out == u.Clean(src, k) && MappedBy(shifts, u.Origins(src, k)) && Exact(u, src, hits, k)
        && Cached(u, src, until, swapped, k)
    }

    /** A rune outside ASCII: look-alike letters are mapped, other foreign letters only folded. */
    method Expand(k: nat, at: nat)
      requires k < |src| && Read(k) && at == At(src, k) && !u.Dropped(src[k]) && src[k] as int >= 0x80
      modifies this
      ensures Read(k + 1)
    {
      hide Exact, Cached, MappedBy;
      var r := src[k];
      var folded := u.nfkc(r);
      ghost var origins := u.Origins(src, k);
      if !u.Foreign(r) {
        Write(EncodeAll(u.Mapped(folded)), at, Encode(r), origins);
        Unflagged(u, src, hits, k);
        StillCached(u, src, until, swapped, k);
        return;
      }
      var yes := Swap(k);
      if yes {
        Write(EncodeAll(u.Mapped(folded)), at, Encode(r), origins);
        Add(LookAlike, k);
      } else {
        Write(EncodeAll(folded), at, Encode(r), origins);
        Unflagged(u, src, hits, k);
      }
    }

    method Drop(k: nat)
      requires k < |src| && Read(k) && u.Dropped(src[k])
      modifies this`hits
      ensures Read(k + 1)
    {
      hide Exact, Cached, MappedBy;
      var prev := PrevRune(k);
      var next := NextRune(k + 1);
      if u.Joins(prev) && u.Joins(next) {
        Add(Invisible, k);
      } else {
        Unflagged(u, src, hits, k);
      }
      StillCached(u, src, until, swapped, k);
      assert u.Origins(src, k + 1) == u.Origins(src, k);
    }

    method Copy(k: nat, at: nat)
      requires k < |src| && Read(k) && at == At(src, k) && !u.Dropped(src[k]) && (src[k] as int) < 0x80
      modifies this`out, this`shifts
      ensures Read(k + 1)
    {
      hide Exact, Cached, MappedBy;
      Write(Encode(src[k]), at, Encode(src[k]), u.Origins(src, k));
      Unflagged(u, src, hits, k);
      StillCached(u, src, until, swapped, k);
    }

    /** One turn of the loop. */
    method Step(k: nat, at: nat)
      requires k < |src| && Read(k) && at == At(src, k)
      modifies this
      ensures Read(k + 1)
    {
      hide Exact, Cached, MappedBy;
      if u.Dropped(src[k]) {
        Drop(k);
      } else if (src[k] as int) < 0x80 {
        Copy(k, at);
      } else {
        Expand(k, at);
      }
    }
  }

  /** The hits before rune `i` are apart and cover exactly the flagged runes. */
  ghost predicate Exact(u: Unicode, src: string, hits: seq<Hit>, i: nat)
    requires i <= |src|
  {
    Apart(hits, i) && forall k: nat, rule :: k < i ==> (rule in u.Flag(src, k) <==> Covered(hits, rule, k))
  }

  /** The cached word holds the answer for every rune from `i` to its end. */
  ghost predicate Cached(u: Unicode, src: string, until: nat, swapped: bool, i: nat) {
    && until <= |src|
    && forall k :: i <= k < until ==> u.Wordy(src[k]) && (swapped <==> u.Swapped(src, k))
  }

  lemma {:induction false} Unflagged(u: Unicode, src: string, hits: seq<Hit>, k: nat)
    requires k < |src| && Exact(u, src, hits, k) && u.Flag(src, k) == {}
    ensures Exact(u, src, hits, k + 1)
  {
    forall rule ensures !Covered(hits, rule, k) {}
  }

  lemma {:induction false} StillCached(u: Unicode, src: string, until: nat, swapped: bool, k: nat)
    requires Cached(u, src, until, swapped, k)
    ensures Cached(u, src, until, swapped, k + 1)
  {}

  /** `normalize`: the clean text, its shifts and its hits are what their definitions say. */
  method Normalize(u: Unicode, src: string) returns (p: Pass)
    ensures p.u == u && p.src == src && p.Read(|src|)
  {
    hide Exact, Cached, MappedBy;
    p := new Pass(u, src);
    var at := 0;
    for k := 0 to |src|
      invariant fresh(p) && p.u == u && p.src == src
      invariant p.Read(k) && at == At(src, k)
    {
      p.Step(k, at);
      AtNext(src, k);
      at := at + Width(src[k]);
    }
  }

  /** Hits in order, none empty or overlapping, and none that its neighbour could have absorbed. */
  ghost predicate Apart(hits: seq<Hit>, i: nat) {
    && (forall a :: 0 <= a < |hits| ==> hits[a].start < hits[a].end <= i)
    && (forall a, b :: 0 <= a < b < |hits| ==> hits[a].end <= hits[b].start)
    && forall a, b :: 0 <= a < |hits| && b == a + 1 < |hits| && hits[a].end == hits[b].start ==>
      hits[a].rule != hits[b].rule
  }

  lemma {:induction false} GrowOrAppend(hits: seq<Hit>, rule: Rule, i: nat)
    requires Apart(hits, i)
    ensures var n := |hits|;
            var now := if n > 0 && hits[n - 1].rule == rule && hits[n - 1].end == i
                       then hits[n - 1 := Hit(rule, hits[n - 1].start, i + 1)] else hits + [Hit(rule, i, i + 1)];
            && Apart(now, i + 1)
            && forall r, k: nat :: Covered(now, r, k) <==> Covered(hits, r, k) || (r == rule && k == i)
    ensures forall r :: !Covered(hits, r, i)
  {
    hide Covered, Apart;
    var n := |hits|;
    NotYetCovered(hits, i);
    if n > 0 && hits[n - 1].rule == rule && hits[n - 1].end == i {
      LastStarts(hits, i);
      CoveredGrown(hits, rule, i);
      GrownApart(hits, rule, i);
    } else {
      CoveredSnoc(hits, Hit(rule, i, i + 1));
      AddedApart(hits, rule, i);
    }
  }

  lemma {:induction false} LastStarts(hits: seq<Hit>, i: nat)
    requires Apart(hits, i) && hits != []
    ensures hits[|hits| - 1].start < hits[|hits| - 1].end <= i
  {
  }

  lemma {:induction false} AddedApart(hits: seq<Hit>, rule: Rule, i: nat)
    requires Apart(hits, i) && !(hits != [] && hits[|hits| - 1].rule == rule && hits[|hits| - 1].end == i)
    ensures Apart(hits + [Hit(rule, i, i + 1)], i + 1)
  {
  }

  lemma {:induction false} NotYetCovered(hits: seq<Hit>, i: nat)
    requires Apart(hits, i)
    ensures forall r :: !Covered(hits, r, i)
  {
  }

  lemma {:induction false} GrownApart(hits: seq<Hit>, rule: Rule, i: nat)
    requires Apart(hits, i) && hits != [] && hits[|hits| - 1].rule == rule && hits[|hits| - 1].end == i
    ensures Apart(Grown(hits, i), i + 1)
  {
  }

  ghost predicate Covers(h: Hit, rule: Rule, k: nat) { h.rule == rule && h.start <= k < h.end }

  ghost predicate Covered(hits: seq<Hit>, rule: Rule, k: nat) {
    exists a :: 0 <= a < |hits| && Covers(hits[a], rule, k)
  }

  lemma {:induction false} CoveredSnoc(hits: seq<Hit>, h: Hit)
    ensures forall r, k :: Covered(hits + [h], r, k) <==> Covered(hits, r, k) || Covers(h, r, k)
  {
    forall r, k: nat ensures Covered(hits + [h], r, k) <==> Covered(hits, r, k) || Covers(h, r, k) {
      if Covered(hits, r, k) {
        var a :| 0 <= a < |hits| && Covers(hits[a], r, k);
        assert Covers((hits + [h])[a], r, k);
      }
      if Covers(h, r, k) {
        assert Covers((hits + [h])[|hits|], r, k);
      }
    }
  }

  /** The last hit grown up to rune `i`. */
  function Grown(hits: seq<Hit>, i: nat): seq<Hit>
    requires hits != []
  {
    hits[|hits| - 1 := Hit(hits[|hits| - 1].rule, hits[|hits| - 1].start, i + 1)]
  }

  lemma {:induction false} CoveredGrown(hits: seq<Hit>, rule: Rule, i: nat)
    requires hits != [] && hits[|hits| - 1].rule == rule && hits[|hits| - 1].end == i && hits[|hits| - 1].start < i
    ensures forall r, k: nat :: Covered(Grown(hits, i), r, k) <==> Covered(hits, r, k) || (r == rule && k == i)
  {
    var n, last := |hits| - 1, hits[|hits| - 1];
    var grown := Hit(rule, last.start, i + 1);
    CoveredSnoc(hits[..n], last);
    CoveredSnoc(hits[..n], grown);
    assert hits == hits[..n] + [last] && hits[n := grown] == hits[..n] + [grown];
  }

  // ----- The way back

  lemma {:induction false} CleanGrows(u: Unicode, src: string, j: nat, k: nat)
    requires j <= k <= |src|
    ensures u.Clean(src, j) <= u.Clean(src, k) && u.Origins(src, j) <= u.Origins(src, k)
    decreases k
  {
    hide Unicode.Emit, Encode;
    if j < k {
      CleanGrows(u, src, j, k - 1);
    }
  }

  /** The rune that a clean byte was written for. */
  lemma {:induction false} RuneOf(u: Unicode, src: string, k: nat, c: nat) returns (i: nat, j: nat)
    requires k <= |src| && c < |u.Clean(src, k)|
    ensures i < k && c == |u.Clean(src, i)| + j && j < |u.Emit(src, i)|
    ensures u.Origins(src, k)[c] == At(src, i) + (if u.Verbatim(src, i) then j else 0)
    ensures u.Clean(src, k)[c] == u.Emit(src, i)[j]
    decreases k
  {
    hide Unicode.Emit, Encode;
    if c < |u.Clean(src, k - 1)| {
      i, j := RuneOf(u, src, k - 1, c);
    } else {
      i, j := k - 1, c - |u.Clean(src, k - 1)|;
    }
  }

  lemma {:induction false} EncodeNext(src: string, k: nat)
    requires k < |src|
    ensures EncodeAll(src[..k + 1]) == EncodeAll(src[..k]) + Encode(src[k])
  {
    assert src[..k + 1][..k] == src[..k];
  }

  lemma {:induction false} EncodePrefix(src: string, k: nat)
    requires k <= |src|
    ensures EncodeAll(src[..k]) <= EncodeAll(src)
    decreases |src| - k
  {
    hide Encode;
    if k == |src| {
      assert src[..k] == src;
    } else {
      EncodePrefix(src, k + 1);
      EncodeNext(src, k);
    }
  }

  lemma {:induction false} EncodeAt(src: string, k: nat)
    requires k < |src|
    ensures At(src, k) + Width(src[k]) <= |EncodeAll(src)|
    ensures EncodeAll(src[..k]) + Encode(src[k]) <= EncodeAll(src)
    ensures forall j :: 0 <= j < Width(src[k]) ==> EncodeAll(src)[At(src, k) + j] == Encode(src[k])[j]
  {
    hide Encode, Width, EncodeAll;
    EncodeNext(src, k);
    EncodePrefix(src, k + 1);
  }

  /** A byte of a rune copied verbatim is the written byte its origin names. */
  lemma {:induction false} VerbatimBytes(u: Unicode, src: string, c: nat)
    requires c < |u.Clean(src, |src|)|
    ensures var o := u.Origins(src, |src|)[c];
            o < |EncodeAll(src)| && exists i: nat :: i < |src| && ComesFrom(u, src, c, o, i)
  {
    hide Encode, EncodeAll, Unicode.Emit, Unicode.Clean, Unicode.Origins, At;
    var i, j := RuneOf(u, src, |src|, c);
    EncodeAt(src, i);
    assert ComesFrom(u, src, c, u.Origins(src, |src|)[c], i);
  }

  /** Clean byte `c` comes from byte `o`, which is in rune `i`: the same byte, or the start. */
  ghost predicate ComesFrom(u: Unicode, src: string, c: nat, o: nat, i: nat)
    requires i < |src| && c < |u.Clean(src, |src|)| && o < |EncodeAll(src)|
  {
    && At(src, i) <= o < At(src, i) + Width(src[i])
    && if u.Verbatim(src, i) then u.Clean(src, |src|)[c] == EncodeAll(src)[o] else o == At(src, i)
  }

  /** Origins never decrease. */
  lemma {:induction false} OriginsRise(u: Unicode, src: string, k: nat)
    requires k <= |src|
    ensures forall c :: 0 <= c < |u.Origins(src, k)| ==> u.Origins(src, k)[c] < At(src, k)
    ensures forall c, d :: 0 <= c <= d < |u.Origins(src, k)| ==> u.Origins(src, k)[c] <= u.Origins(src, k)[d]
  {
    hide Unicode.Emit, Encode, Unicode.Origins, At, Width;
    if k > 0 {
      OriginsRise(u, src, k - 1);
      AtNext(src, k - 1);
      OriginsNext(u, src, k);
    } else {
      NoOrigins(u, src);
    }
  }

  lemma {:induction false} NoOrigins(u: Unicode, src: string)
    ensures u.Origins(src, 0) == []
  {
  }

  /** The origins of one more rune lie in it and do not fall. */
  lemma {:induction false} OriginsNext(u: Unicode, src: string, k: nat)
    requires 0 < k <= |src|
    ensures u.Origins(src, k - 1) <= u.Origins(src, k)
    ensures forall c :: |u.Origins(src, k - 1)| <= c < |u.Origins(src, k)| ==>
              At(src, k - 1) <= u.Origins(src, k)[c] < At(src, k - 1) + Width(src[k - 1])
    ensures forall c, d :: |u.Origins(src, k - 1)| <= c <= d < |u.Origins(src, k)| ==>
      u.Origins(src, k)[c] <= u.Origins(src, k)[d]
  {
    hide Unicode.Emit, Encode, At;
    var at := At(src, k - 1);
    var before, more := u.Origins(src, k - 1),
      seq(|u.Emit(src, k - 1)|, j => if u.Verbatim(src, k - 1) then at + j else at);
    assert u.Origins(src, k) == before + more;
    assert u.Verbatim(src, k - 1) ==> |more| == Width(src[k - 1]);
  }

  /** One past the last clean byte comes from one past the origin of that byte. */
  lemma {:induction false} SourceOfEnd(shifts: seq<Shift>, origins: seq<nat>)
    requires MappedBy(shifts, origins)
    ensures SourceOf(shifts, |origins|) == if origins == [] then 0 else origins[|origins| - 1] + 1
  {
    if origins != [] {
      assert SourceOf(shifts, |origins|) == SourceOf(shifts, |origins| - 1) + 1;
    }
  }

  /** A non-empty match in the clean text has a non-empty span in the written text. */
  lemma {:induction false} SpanInside(u: Unicode, src: string, shifts: seq<Shift>, from: nat, to: nat)
    requires MappedBy(shifts, u.Origins(src, |src|)) && from < to <= |u.Clean(src, |src|)|
    ensures var start := SourceOf(shifts, from);
            var end := if SourceOf(shifts, to) > start + 1 then SourceOf(shifts, to) else start + 1;
            0 <= start < end <= |EncodeAll(src)| && start <= SourceOf(shifts, to)
  {
    OriginsRise(u, src, |src|);
    SourceOfEnd(shifts, u.Origins(src, |src|));
    if |src| > 0 {
      AtNext(src, |src| - 1);
    }
  }

  // ----- Lines

  lemma {:induction false} NewlinesAppend(a: seq<Byte>, b: seq<Byte>, j: nat)
    requires j <= |b|
    ensures Newlines(a + b, |a| + j) == Newlines(a, |a|) + Newlines(b, j)
  {
    if j > 0 {
      NewlinesAppend(a, b, j - 1);
    } else {
      NewlinesPrefix(a, a + b, |a|);
    }
  }

  lemma {:induction false} NewlinesPrefix(a: seq<Byte>, b: seq<Byte>, k: nat)
    requires k <= |a| && a <= b
    ensures Newlines(a, k) == Newlines(b, k)
  {
    if k > 0 {
      NewlinesPrefix(a, b, k - 1);
    }
  }

  lemma {:induction false} NoNewlines(bytes: seq<Byte>, k: nat)
    requires k <= |bytes| && NEWLINE !in bytes
    ensures Newlines(bytes, k) == 0
  {
    if k > 0 {
      NoNewlines(bytes, k - 1);
    }
  }

  lemma {:induction false} SomeNewlines(bytes: seq<Byte>)
    ensures Newlines(bytes, |bytes|) == 0 <==> NEWLINE !in bytes
  {
    if bytes != [] {
      var n := |bytes| - 1;
      SomeNewlines(bytes[..n]);
      NewlinesPrefix(bytes[..n], bytes, n);
      assert bytes == bytes[..n] + [bytes[n]];
    }
  }

  /** Newlines that folding added to the clean text before rune `k`. */
  ghost function Added(u: Unicode, src: string, k: nat): nat
    requires k <= |src|
  {
    if k == 0 then 0
    else Added(u, src, k - 1) + if u.Verbatim(src, k - 1) then 0 else Newlines(u.Emit(src, k - 1), |u.Emit(src, k - 1)|)
  }

  lemma {:induction false} AddedGrows(u: Unicode, src: string, j: nat, k: nat)
    requires j <= k <= |src|
    ensures Added(u, src, j) <= Added(u, src, k)
    decreases k
  {
    hide Unicode.Emit, Encode, Newlines;
    if j < k {
      AddedGrows(u, src, j, k - 1);
    }
  }

  /** A rune that is not copied has no newline in the written text. */
  lemma {:induction false} OnlyCopiedNewlines(u: Unicode, src: string, k: nat)
    requires k < |src| && !u.Verbatim(src, k)
    ensures NEWLINE !in Encode(src[k])
  {
    assert !u.Dropped('\n');
    assert src[k] != '\n';
  }

  /** Before each rune the clean text has the newlines of the written text and the added ones. */
  lemma {:induction false} Balance(u: Unicode, src: string, k: nat)
    requires k <= |src|
    ensures Newlines(u.Clean(src, k), |u.Clean(src, k)|) == Newlines(EncodeAll(src[..k]), At(src, k)) + Added(u, src, k)
  {
    hide Unicode.Emit, Encode, Newlines;
    if k == 0 {
      NoNewlines([], 0);
    } else {
      hide EncodeAll, At;
      Balance(u, src, k - 1);
      BalanceStep(u, src, k - 1);
    }
  }

  /** What one rune adds to the newlines of the clean text and of the written text. */
  lemma {:induction false} BalanceStep(u: Unicode, src: string, k: nat)
    requires k < |src|
    ensures Newlines(u.Clean(src, k + 1), |u.Clean(src, k + 1)|)
      == Newlines(u.Clean(src, k), |u.Clean(src, k)|) + Newlines(u.Emit(src, k), |u.Emit(src, k)|)
    ensures Newlines(EncodeAll(src[..k + 1]), At(src, k + 1))
      == Newlines(EncodeAll(src[..k]), At(src, k)) + Newlines(Encode(src[k]), |Encode(src[k])|)
    ensures !u.Verbatim(src, k) ==> Newlines(Encode(src[k]), |Encode(src[k])|) == 0
  {
    hide Unicode.Emit, Encode, Newlines, EncodeAll;
    var e, w := u.Emit(src, k), Encode(src[k]);
    AtNext(src, k);
    EncodeNext(src, k);
    NewlinesAppend(u.Clean(src, k), e, |e|);
    NewlinesAppend(EncodeAll(src[..k]), w, |w|);
    if !u.Verbatim(src, k) {
      OnlyCopiedNewlines(u, src, k);
      NoNewlines(w, |w|);
    }
  }

  /** One past the last origin. */
  ghost function EndOf(o: seq<nat>): nat { if o == [] then 0 else o[|o| - 1] + 1 }

  lemma {:induction false} EndNext(u: Unicode, src: string, k: nat)
    requires k < |src|
    ensures EndOf(u.Origins(src, k + 1))
         == if u.Emit(src, k) == [] then EndOf(u.Origins(src, k))
            else if u.Verbatim(src, k) then At(src, k) + Width(src[k]) else At(src, k) + 1
  {
    hide Encode, Unicode.Emit, Width, At;
    var n := |u.Emit(src, k)|;
    var before, more := u.Origins(src, k), seq(n, j => if u.Verbatim(src, k) then At(src, k) + j else At(src, k));
    assert u.Origins(src, k + 1) == before + more;
    if n > 0 {
      assert (before + more)[|before + more| - 1] == more[n - 1];
    } else {
      assert before + more == before;
    }
  }

  lemma {:induction false} EndNothing(u: Unicode, src: string)
    ensures EndOf(u.Origins(src, 0)) == 0 && At(src, 0) == 0
  {
  }

  /** The bytes after the last origin hold no newline. */
  lemma {:induction false} Tail(u: Unicode, src: string, k: nat)
    requires k <= |src|
    ensures EndOf(u.Origins(src, k)) <= At(src, k)
    ensures Newlines(EncodeAll(src[..k]), EndOf(u.Origins(src, k))) == Newlines(EncodeAll(src[..k]), At(src, k))
  {
    hide Unicode.Emit, Unicode.Origins, EndOf, Encode, Newlines, EncodeAll;
    EndNothing(u, src);
    if k > 0 {
      Tail(u, src, k - 1);
      EndNext(u, src, k - 1);
      AtNext(src, k - 1);
      EncodeNext(src, k - 1);
      var before, w, end := EncodeAll(src[..k - 1]), Encode(src[k - 1]), EndOf(u.Origins(src, k - 1));
      NewlinesPrefix(before, before + w, end);
      NewlinesPrefix(before, before + w, |before|);
      if !u.Verbatim(src, k - 1) {
        OnlyCopiedNewlines(u, src, k - 1);
        NoNewlines(w, |w|);
        NoNewlines(w, 1);
        NewlinesAppend(before, w, |w|);
        NewlinesAppend(before, w, 1);
      }
    }
  }

  /** The line of a clean offset is the line of its source offset in the written text. */
  ghost predicate SameLine(u: Unicode, src: string, shifts: seq<Shift>, c: nat)
    requires c <= |u.Clean(src, |src|)|
  {
    var s := SourceOf(shifts, c);
    0 <= s <= |EncodeAll(src)| && Newlines(u.Clean(src, |src|), c) == Newlines(EncodeAll(src), s)
  }

  /** No folding wrote a newline. */
  ghost predicate FoldsKeepLines(u: Unicode, src: string) {
    forall k :: 0 <= k < |src| && !u.Verbatim(src, k) ==> NEWLINE !in u.Emit(src, k)
  }

  lemma {:induction false} AddedNothing(u: Unicode, src: string, k: nat)
    requires k <= |src|
    ensures Added(u, src, k) == 0 <==> forall i :: 0 <= i < k && !u.Verbatim(src, i) ==> NEWLINE !in u.Emit(src, i)
  {
    hide Unicode.Emit, Encode, Newlines;
    if k > 0 {
      AddedNothing(u, src, k - 1);
      SomeNewlines(u.Emit(src, k - 1));
    }
  }

  lemma {:induction false} KeepsLine(u: Unicode, src: string, i: nat)
    requires i < |src| && FoldsKeepLines(u, src) && !u.Verbatim(src, i)
    ensures NEWLINE !in u.Emit(src, i)
  {}

  lemma {:induction false} NothingAdded(u: Unicode, src: string, k: nat)
    requires k <= |src| && FoldsKeepLines(u, src)
    ensures Added(u, src, k) == 0
  {
    AddedNothing(u, src, k);
  }

  lemma {:induction false} ByteLine(u: Unicode, src: string, shifts: seq<Shift>, c: nat)
    requires MappedBy(shifts, u.Origins(src, |src|)) && c < |u.Clean(src, |src|)| && FoldsKeepLines(u, src)
    ensures SameLine(u, src, shifts, c)
  {
    hide Unicode.Emit, Encode, Newlines, EncodeAll, Added, FoldsKeepLines, Unicode.Origins, SourceOf, Rising, Width;
    var i, j := RuneOf(u, src, |src|, c);
    var before, e, w := EncodeAll(src[..i]), u.Emit(src, i), Encode(src[i]);
    CleanGrows(u, src, i + 1, |src|);
    assert u.Clean(src, i + 1) == u.Clean(src, i) + e;
    NewlinesPrefix(u.Clean(src, i + 1), u.Clean(src, |src|), c);
    NewlinesAppend(u.Clean(src, i), e, j);
    Balance(u, src, i);
    NothingAdded(u, src, i);
    EncodeAt(src, i);
    var k := if u.Verbatim(src, i) then j else 0;
    NewlinesPrefix(before + w, EncodeAll(src), |before| + k);
    NewlinesAppend(before, w, k);
    if !u.Verbatim(src, i) {
      KeepsLine(u, src, i);
      NoNewlines(e, j);
      NoNewlines([], 0);
      NewlinesPrefix([], w, 0);
    }
  }

  lemma {:induction false} EndLine(u: Unicode, src: string, shifts: seq<Shift>)
    requires MappedBy(shifts, u.Origins(src, |src|))
    ensures SameLine(u, src, shifts, |u.Clean(src, |src|)|) <==> Added(u, src, |src|) == 0
  {
    assert src[..|src|] == src;
    SourceOfEnd(shifts, u.Origins(src, |src|));
    Tail(u, src, |src|);
    Balance(u, src, |src|);
  }

  /** Lines counted in the clean text are the lines of the written text, at every offset,
      exactly when no folding writes a newline. */
  lemma {:induction false} LinesAgreeIff(u: Unicode, src: string, shifts: seq<Shift>)
    requires MappedBy(shifts, u.Origins(src, |src|))
    ensures (forall c :: 0 <= c <= |u.Clean(src, |src|)| ==> SameLine(u, src, shifts, c)) <==> FoldsKeepLines(u, src)
  {
    hide SameLine, MappedBy, Added, Unicode.Clean, Unicode.Origins, Unicode.Emit, Unicode.Verbatim;
    EndLine(u, src, shifts);
    AddedNothing(u, src, |src|);
    if FoldsKeepLines(u, src) {
      forall c: nat | c < |u.Clean(src, |src|)| ensures SameLine(u, src, shifts, c) {
        ByteLine(u, src, shifts, c);
      }
    }
  }

  // ----- The artifact that the static rules read

  datatype Artifact = Artifact(content: seq<Byte>, clean: seq<Byte>, shifts: seq<Shift>) {
    function Text(): seq<Byte> { if clean != [] then clean else content }
  }

  /** The clean text is kept only when it differs; an empty one reads as the written text. */
  method Reveal(u: Unicode, src: string) returns (a: Artifact, hits: seq<Hit>)
    ensures a.content == EncodeAll(src) && Exact(u, src, hits, |src|)
    ensures if u.Clean(src, |src|) == EncodeAll(src) || u.Clean(src, |src|) == [] then
              a.Text() == EncodeAll(src) && forall c: nat :: SourceOf(a.shifts, c) == c
            else a.Text() == u.Clean(src, |src|) && MappedBy(a.shifts, u.Origins(src, |src|))
  {
    var p := Normalize(u, src);
    hits := p.hits;
    a := Artifact(EncodeAll(src), [], []);
    if p.out != a.content {
      a := a.(clean := p.out, shifts := p.shifts);
    }
    if p.out == [] {
      NoShifts(p.shifts, u.Origins(src, |src|));
    }
  }

  lemma {:induction false} NoShifts(shifts: seq<Shift>, origins: seq<nat>)
    requires MappedBy(shifts, origins) && origins == []
    ensures shifts == []
  {
    assert |shifts| > 0 ==> shifts[0].clean < |origins|;
  }

  /** A match that starts with a newline is about the line after it. */
  function MatchStart(text: seq<Byte>, from: nat, to: nat): (start: nat)
    requires from < to <= |text|
    ensures from <= start < to
  {
    if text[from] == NEWLINE && to - from > 1 then from + 1 else from
  }

  /** Every clean byte comes from a byte of the file. */
  ghost predicate Inside(a: Artifact) {
    && Rising(a.shifts)
    && (forall c: nat :: c < |a.Text()| ==> 0 <= SourceOf(a.shifts, c) < |a.content|)
    && SourceOf(a.shifts, |a.Text()|) <= |a.content|
  }

  datatype Located = Located(start: int, end: int, line: nat, endLine: nat)

  /** `build`: the span and the lines of a match, found through the shifts and two searches.  `skip`
      stands for the scope, the exclusions and the self-install and self-path tests of the rule. */
  method Locate(a: Artifact, from: nat, to: nat, skip: (nat, nat, nat) -> bool) returns (r: Option<Located>)
    requires from < to <= |a.Text()| && Inside(a)
    ensures var first := MatchStart(a.Text(), from, to);
            if skip(Newlines(a.Text(), first), first, to) then r.None?
            else
              && r.Some?
              && var l := r.value;
                 && l.start == SourceOf(a.shifts, first) && l.start < l.end <= |a.content|
                 && l.end == (if SourceOf(a.shifts, to) > l.start + 1 then SourceOf(a.shifts, to) else l.start + 1)
                 && l.line == 1 + Newlines(a.content, l.start) && l.endLine == 1 + Newlines(a.content, l.end - 1)
  {
    var first := MatchStart(a.Text(), from, to);
    var row := LineOf(a.Text(), first);
    if skip(row - 1, first, to) {
      return None;
    }
    var start := Source(a.shifts, first);
    var end := Source(a.shifts, to);
    if end < start + 1 {
      end := start + 1;
    }
    var line := LineOf(a.content, start);
    var endLine := LineOf(a.content, end - 1);
    return Some(Located(start, end, line, endLine));
  }

  /** What `Reveal` returns can be located. */
  lemma {:induction false} RevealedInside(u: Unicode, src: string, a: Artifact)
    requires a.content == EncodeAll(src) && Rising(a.shifts)
    requires (a.Text() == EncodeAll(src) && forall c: nat :: SourceOf(a.shifts, c) == c)
      || (a.Text() == u.Clean(src, |src|) && MappedBy(a.shifts, u.Origins(src, |src|)))
    ensures Inside(a)
  {
    hide Unicode.Clean, Unicode.Origins, EncodeAll;
    if a.Text() == u.Clean(src, |src|) && MappedBy(a.shifts, u.Origins(src, |src|)) {
      forall c: nat | c < |a.Text()| ensures 0 <= SourceOf(a.shifts, c) < |a.content| {
        SpanInside(u, src, a.shifts, c, c + 1);
        assert SourceOf(a.shifts, c) == u.Origins(src, |src|)[c];
      }
      SourceOfEnd(a.shifts, u.Origins(src, |src|));
      if a.Text() != [] {
        SpanInside(u, src, a.shifts, 0, |a.Text()|);
      }
      assert SourceOf(a.shifts, |a.Text()|) <= |a.content|;
    } else {
      assert forall c: nat :: SourceOf(a.shifts, c) == c;
    }
  }
}
