/** Strings as sequences of runes, with their length in UTF-8 and the trimming and line
    splitting the scanners share (pkg/internal/textutil/lines.go). */
module Texts {
  /** Bytes of a rune in UTF-8. */
  function Width(r: char): nat {
    if r as int < 0x80 then 1 else if r as int < 0x800 then 2 else if r as int < 0x10000 then 3 else 4
  }

  type Byte = x: nat | x < 256

  function Encode(r: char): (bytes: seq<Byte>)
    ensures |bytes| == Width(r)
    ensures r as int < 0x80 <==> |bytes| == 1
    ensures forall i :: 0 <= i < |bytes| ==> (bytes[i] < 0x80 <==> r as int < 0x80)
  {
    var c := r as int;
    if c < 0x80 then [c]
    else if c < 0x800 then [0xC0 + c / 64, 0x80 + c % 64]
    else if c < 0x10000 then [0xE0 + c / 4096, 0x80 + c / 64 % 64, 0x80 + c % 64]
    else [0xF0 + c / 262144, 0x80 + c / 4096 % 64, 0x80 + c / 64 % 64, 0x80 + c % 64]
  }

  function EncodeAll(s: string): (bytes: seq<Byte>)
    ensures |bytes| == Bytes(s)
  {
    if s == "" then [] else EncodeAll(s[..|s| - 1]) + Encode(s[|s| - 1])
  }

  function Bytes(s: string): nat {
    if s == "" then 0 else Bytes(s[..|s| - 1]) + Width(s[|s| - 1])
  }

  lemma {:induction false} BytesAppend(a: string, b: string)
    ensures Bytes(a + b) == Bytes(a) + Bytes(b)
    decreases |b|
  {
    if b == "" {
      assert a + b == a;
    } else {
      assert (a + b)[..|a + b| - 1] == a + b[..|b| - 1];
      BytesAppend(a, b[..|b| - 1]);
    }
  }

  predicate IsSpace(c: char) {
    c in "\t\n\r " || c as int in {0x0B, 0x0C, 0x85, 0xA0, 0x1680, 0x2028, 0x2029, 0x202F, 0x205F, 0x3000}
    || 0x2000 <= c as int <= 0x200A
  }

  function TrimLeft(s: string): string {
    if s != "" && IsSpace(s[0]) then TrimLeft(s[1..]) else s
  }

  function TrimRight(s: string): string {
    if s != "" && IsSpace(s[|s| - 1]) then TrimRight(s[..|s| - 1]) else s
  }

  function TrimSpace(s: string): string { TrimRight(TrimLeft(s)) }

  ghost predicate Blank(s: string) { forall i :: 0 <= i < |s| ==> IsSpace(s[i]) }

  lemma {:induction false} BlankLeft(s: string)
    ensures TrimLeft(s) == "" <==> Blank(s)
    ensures TrimLeft(s) != "" ==> !IsSpace(TrimLeft(s)[0])
  {
    if s != "" && IsSpace(s[0]) {
      BlankLeft(s[1..]);
      assert Blank(s) ==> Blank(s[1..]) by { assert forall i :: 0 <= i < |s[1..]| ==> s[1..][i] == s[i + 1]; }
      assert Blank(s[1..]) ==> Blank(s) by { assert forall i :: 0 < i < |s| ==> s[i] == s[1..][i - 1]; }
    }
  }

  lemma {:induction false} KeepsFirst(s: string)
    requires s != "" && !IsSpace(s[0])
    ensures TrimRight(s) != ""
  {
    if |s| > 1 {
      KeepsFirst(s[..|s| - 1]);
    }
  }

  lemma {:induction false} TrimmedAway(s: string)
    ensures TrimSpace(s) == "" <==> Blank(s)
  {
    BlankLeft(s);
    if TrimLeft(s) != "" {
      KeepsFirst(TrimLeft(s));
    }
  }

  // ----- Numbers

  const DIGITS := "0123456789"

  function Digits(n: nat): (s: string)
    ensures |s| > 0
  {
    (if n < 10 then "" else Digits(n / 10)) + [DIGITS[n % 10]]
  }

  lemma {:induction false} DigitInjective(d: nat, e: nat)
    requires d < 10 && e < 10 && DIGITS[d] == DIGITS[e]
    ensures d == e
  {
  }

  /** The digits before the last one. */
  lemma {:induction false} DigitsFront(n: nat)
    ensures Digits(n)[..|Digits(n)| - 1] == (if n < 10 then "" else Digits(n / 10))
    ensures Digits(n)[|Digits(n)| - 1] == DIGITS[n % 10]
  {
  }

  lemma {:induction false} DigitsInjective(m: nat, n: nat)
    requires Digits(m) == Digits(n)
    ensures m == n
  {
    hide Digits;
    DigitsFront(m);
    DigitsFront(n);
    DigitInjective(m % 10, n % 10);
    if m >= 10 && n >= 10 {
      DigitsInjective(m / 10, n / 10);
    }
  }

  // ----- Lines

  /** The lines of a text, each with its newline; there is always a last one, perhaps empty. */
  function SplitAfter(text: string): (lines: seq<string>)
    ensures |lines| > 0
  {
    if text == "" then [""]
    else
      var rest := SplitAfter(text[1..]);
      if text[0] == '\n' then ["\n"] + rest else [[text[0]] + rest[0]] + rest[1..]
  }

  /** The lines without their newlines. */
  function Split(text: string): (lines: seq<string>)
    ensures |lines| > 0
  {
    if text == "" then [""]
    else
      var rest := Split(text[1..]);
      if text[0] == '\n' then [""] + rest else [[text[0]] + rest[0]] + rest[1..]
  }

  function Chomp(line: string): string {
    if line != "" && line[|line| - 1] == '\r' then line[..|line| - 1] else line
  }

  function Lines(text: string): (lines: seq<string>)
    ensures |lines| == |Split(text)|
  {
    seq(|Split(text)|, i requires 0 <= i < |Split(text)| => Chomp(Split(text)[i]))
  }

  /** What can stand between a line and the next. */
  ghost predicate LineEnd(s: string) { s == "" || s == "\n" || s == "\r" || s == "\r\n" }

  lemma {:induction false} SplitsMatch(text: string)
    ensures |SplitAfter(text)| == |Split(text)|
    ensures forall i :: 0 <= i < |Split(text)| ==>
              SplitAfter(text)[i] == Split(text)[i] || SplitAfter(text)[i] == Split(text)[i] + "\n"
  {
    if text != "" {
      SplitsMatch(text[1..]);
    }
  }

  lemma {:induction false} RawLine(text: string, i: nat)
    requires i < |Lines(text)|
    ensures |SplitAfter(text)| == |Lines(text)|
    ensures exists e :: LineEnd(e) && SplitAfter(text)[i] == Lines(text)[i] + e
  {
    SplitsMatch(text);
    var s, raw := Split(text)[i], SplitAfter(text)[i];
    var e := raw[|Chomp(s)|..];
    assert raw == Chomp(s) + e && LineEnd(e);
  }
}
