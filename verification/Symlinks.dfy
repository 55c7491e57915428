/** Where a symbolic link of a skill leads (pkg/internal/layers/static/link.go). */
module Symlinks {
  import opened Options

  const MAX_HOPS := 40

  // ----- Splitting and joining at slashes

  function Split(s: string): (parts: seq<string>)
    ensures |parts| > 0 && forall i :: 0 <= i < |parts| ==> '/' !in parts[i]
  {
    if s == "" then [""]
    else
      var rest := Split(s[1..]);
      if s[0] == '/' then [""] + rest else [[s[0]] + rest[0]] + rest[1..]
  }

  function Join(names: seq<string>): string {
    if names == [] then "" else if |names| == 1 then names[0] else names[0] + "/" + Join(names[1..])
  }

  lemma {:induction false} SplitName(name: string, rest: string)
    requires '/' !in name
    ensures Split(name) == [name]
    ensures Split(name + "/" + rest) == [name] + Split(rest)
  {
    var s := name + "/" + rest;
    if name == "" {
      assert s[1..] == rest;
    } else {
      assert s[1..] == name[1..] + "/" + rest;
      SplitName(name[1..], rest);
      assert [name[0]] + name[1..] == name;
    }
  }

  /** Splitting undoes joining. */
  lemma {:induction false} SplitJoin(names: seq<string>)
    requires names != [] && forall i :: 0 <= i < |names| ==> '/' !in names[i]
    ensures Split(Join(names)) == names
  {
    if |names| == 1 {
      SplitName(names[0], "");
    } else {
      SplitJoin(names[1..]);
      SplitName(names[0], Join(names[1..]));
      assert names == [names[0]] + names[1..];
    }
  }

  /** Windows separators count as slashes. */
  function Slashes(s: string): (r: string)
    ensures |r| == |s| && '\\' !in r
  {
    if s == "" then "" else (if s[0] == '\\' then "/" else [s[0]]) + Slashes(s[1..])
  }

  predicate Drive(s: string) { |s| >= 2 && s[1] == ':' && ('a' <= s[0] <= 'z' || 'A' <= s[0] <= 'Z') }

  // ----- Resolution as a function

  /** Outside a root, `up` counts the steps above the skill; only a path with neither is inside. */
  datatype Where = Where(root: string, up: nat, names: seq<string>) {
    predicate Inside() { root == "" && up == 0 }
  }

  function StartAt(w: Where, target: string): Where {
    var t := Slashes(target);
    if t != "" && t[0] == '/' then Where("/", 0, []) else if Drive(t) then Where(t[..2] + "/", 0, []) else w
  }

  function Parts(target: string): seq<string> {
    var t := Slashes(target);
    if !(t != "" && t[0] == '/') && Drive(t) then Split(t[2..]) else Split(t)
  }

  function ParentOf(w: Where): Where {
    if |w.names| > 0 then w.(names := w.names[..|w.names| - 1]) else if w.root == "" then w.(up := w.up + 1) else w
  }

  /** `links` are the symbolic links of the skill by path. */
  function LinkAt(links: map<string, string>, w: Where): Option<string> {
    if w.Inside() && Join(w.names) in links then Some(links[Join(w.names)]) else None
  }

  /** At most `limit` links are followed; the code's limit is MAX_HOPS. */
  function Walk(links: map<string, string>, limit: nat, w: Where, parts: seq<string>, hops: nat): (r: (Where, nat))
    requires hops <= limit
    ensures hops <= r.1 <= limit
    decreases limit - hops, |parts|
  {
    if parts == [] then (w, hops)
    else if parts[0] == "" || parts[0] == "." then Walk(links, limit, w, parts[1..], hops)
    else if parts[0] == ".." then Walk(links, limit, ParentOf(w), parts[1..], hops)
    else
      var at := w.(names := w.names + [parts[0]]);
      var link := LinkAt(links, at);
      if link.Some? && hops < limit
        then Walk(links, limit, StartAt(w, link.value), Parts(link.value) + parts[1..], hops + 1)
      else Walk(links, limit, at, parts[1..], hops)
  }

  // ----- Properties of where it ends

  predicate CleanName(name: string) { name != "" && name != "." && name != ".." && '/' !in name }

  ghost predicate Clean(w: Where) {
    && (forall i :: 0 <= i < |w.names| ==> CleanName(w.names[i]))
    && (w.root == "" || w.root == "/" || (|w.root| == 3 && Drive(w.root) && w.root[2] == '/'))
    && (w.root != "" ==> w.up == 0)
  }

  /** No directory on the way, nor the end, is itself a link. */
  ghost predicate Settled(links: map<string, string>, w: Where) {
    w.Inside() ==> forall k :: 0 < k <= |w.names| ==> Join(w.names[..k]) !in links
  }

  ghost predicate Plain(parts: seq<string>) { forall i :: 0 <= i < |parts| ==> '/' !in parts[i] }

  /** Names are never empty, never dots, and hold no slash. */
  lemma {:induction false} WalkClean(links: map<string, string>, limit: nat, w: Where, parts: seq<string>, hops: nat)
    requires hops <= limit && Clean(w) && Plain(parts)
    ensures Clean(Walk(links, limit, w, parts, hops).0)
    decreases limit - hops, |parts|
  {
    hide Join;
    if parts != [] {
      if parts[0] == "" || parts[0] == "." {
        WalkClean(links, limit, w, parts[1..], hops);
      } else if parts[0] == ".." {
        WalkClean(links, limit, ParentOf(w), parts[1..], hops);
      } else {
        var at := w.(names := w.names + [parts[0]]);
        var link := LinkAt(links, at);
        if link.Some? && hops < limit {
          WalkClean(links, limit, StartAt(w, link.value), Parts(link.value) + parts[1..], hops + 1);
        } else {
          WalkClean(links, limit, at, parts[1..], hops);
        }
      }
    }
  }

  /** A walk that would not follow one link more than the limit follows the same links, and ends
      in the same place, under every larger limit. */
  lemma {:induction false} UncutWalk(links: map<string, string>, limit: nat, more: nat, w: Where, parts: seq<string>,
      hops: nat)
    requires hops <= limit < more
    ensures Walk(links, more, w, parts, hops) == Walk(links, limit, w, parts, hops)
       <==> Walk(links, limit + 1, w, parts, hops).1 <= limit
    decreases limit - hops, |parts|
  {
    hide Join, LinkAt, StartAt, Parts, ParentOf;
    if parts != [] {
      if parts[0] == "" || parts[0] == "." {
        UncutWalk(links, limit, more, w, parts[1..], hops);
      } else if parts[0] == ".." {
        UncutWalk(links, limit, more, ParentOf(w), parts[1..], hops);
      } else {
        var at := w.(names := w.names + [parts[0]]);
        var link := LinkAt(links, at);
        if link.None? {
          UncutWalk(links, limit, more, at, parts[1..], hops);
        } else if hops < limit {
          UncutWalk(links, limit, more, StartAt(w, link.value), Parts(link.value) + parts[1..], hops + 1);
        }
      }
    }
  }

  /** Unless there was one link more to follow, no link is left unresolved on the way. */
  lemma {:induction false} WalkSettled(links: map<string, string>, limit: nat, w: Where, parts: seq<string>, hops: nat)
    requires hops <= limit && Settled(links, w) && Walk(links, limit + 1, w, parts, hops).1 <= limit
    ensures Settled(links, Walk(links, limit, w, parts, hops).0)
    decreases limit - hops, |parts|
  {
    hide Join;
    if parts != [] {
      if parts[0] == "" || parts[0] == "." {
        WalkSettled(links, limit, w, parts[1..], hops);
      } else if parts[0] == ".." {
        ParentSettled(links, w);
        WalkSettled(links, limit, ParentOf(w), parts[1..], hops);
      } else {
        var at := w.(names := w.names + [parts[0]]);
        var link := LinkAt(links, at);
        if link.Some? {
          WalkSettled(links, limit, StartAt(w, link.value), Parts(link.value) + parts[1..], hops + 1);
        } else {
          AppendSettled(links, w, parts[0]);
          WalkSettled(links, limit, at, parts[1..], hops);
        }
      }
    }
  }

  /** Fewer links than the limit were followed: none was cut off. */
  lemma {:induction false} FewerHops(links: map<string, string>, limit: nat, w: Where, parts: seq<string>, hops: nat)
    requires hops <= limit
    ensures Walk(links, limit, w, parts, hops).1 < limit ==> Walk(links, limit + 1, w, parts, hops).1 < limit
    decreases limit - hops, |parts|
  {
    hide Join, LinkAt, StartAt, Parts, ParentOf;
    if parts != [] {
      if parts[0] == "" || parts[0] == "." {
        FewerHops(links, limit, w, parts[1..], hops);
      } else if parts[0] == ".." {
        FewerHops(links, limit, ParentOf(w), parts[1..], hops);
      } else {
        var at := w.(names := w.names + [parts[0]]);
        var link := LinkAt(links, at);
        if link.Some? && hops < limit {
          FewerHops(links, limit, StartAt(w, link.value), Parts(link.value) + parts[1..], hops + 1);
        } else if link.None? {
          FewerHops(links, limit, at, parts[1..], hops);
        }
      }
    }
  }

  ghost predicate NoUps(parts: seq<string>) { forall i :: 0 <= i < |parts| ==> parts[i] != ".." }

  /** No link of the skill steps up. */
  ghost predicate NoLinkUps(links: map<string, string>) {
    forall path :: path in links ==> NoUps(Parts(links[path]))
  }

  /** A link in the names stays there once no link is followed and nothing steps up. */
  lemma {:induction false} LinkStays(links: map<string, string>, limit: nat, w: Where, parts: seq<string>, k: nat)
    requires w.Inside() && 0 < k <= |w.names| && Join(w.names[..k]) in links && NoUps(parts)
    ensures !Settled(links, Walk(links, limit, w, parts, limit).0)
    decreases |parts|
  {
    hide Join;
    if parts == [] {
      assert Join(w.names[..k]) in links;
    } else if parts[0] == "" || parts[0] == "." {
      LinkStays(links, limit, w, parts[1..], k);
    } else {
      var at := w.(names := w.names + [parts[0]]);
      assert at.names[..k] == w.names[..k];
      LinkStays(links, limit, at, parts[1..], k);
    }
  }

  /** Where nothing steps up, the path is resolved to the end exactly when the limit cut no link off. */
  lemma {:induction false} SettledIff(links: map<string, string>, limit: nat, w: Where, parts: seq<string>, hops: nat)
    requires hops <= limit && Settled(links, w) && NoUps(parts) && NoLinkUps(links)
    ensures Settled(links, Walk(links, limit, w, parts, hops).0) <==> Walk(links, limit + 1, w, parts, hops).1 <= limit
    decreases limit - hops, |parts|
  {
    hide Join, Settled, Parts, StartAt;
    if parts != [] {
      var rest := parts[1..];
      if parts[0] == "" || parts[0] == "." {
        SettledIff(links, limit, w, rest, hops);
      } else {
        var at := w.(names := w.names + [parts[0]]);
        var link := LinkAt(links, at);
        if link.None? {
          AppendSettled(links, w, parts[0]);
          SettledIff(links, limit, at, rest, hops);
        } else if hops < limit {
          StartSettled(links, w, link.value);
          SettledIff(links, limit, StartAt(w, link.value), Parts(link.value) + rest, hops + 1);
        } else {
          assert at.names[..|at.names|] == at.names;
          LinkStays(links, limit, at, rest, |at.names|);
        }
      }
    }
  }

  lemma {:induction false} StartSettled(links: map<string, string>, w: Where, target: string)
    requires Settled(links, w)
    ensures Settled(links, StartAt(w, target))
  {
    hide Join;
  }

  /** A link to itself is cut off by every limit, and left in the path. */
  lemma {:induction false} SelfLink(limit: nat, hops: nat)
    requires hops <= limit
    ensures var links := map["a" := "a"];
            Walk(links, limit, Where("", 0, []), ["a"], hops) == (Where("", 0, ["a"]), limit)
            && !Settled(links, Where("", 0, ["a"]))
    decreases limit - hops
  {
    var links, w := map["a" := "a"], Where("", 0, []);
    assert w.names + ["a"] == ["a"] && ["a"][..1] == ["a"] && ["a"][1..] == [];
    assert Slashes("a") == "a" by { assert "a"[1..] == ""; }
    SplitName("a", "");
    assert Parts("a") + [] == ["a"];
    if hops < limit {
      SelfLink(limit, hops + 1);
    }
  }

  lemma {:induction false} ParentSettled(links: map<string, string>, w: Where)
    requires Settled(links, w)
    ensures Settled(links, ParentOf(w))
  {
    hide Join;
    var u := ParentOf(w);
    if u.Inside() {
      forall k | 0 < k <= |u.names| ensures Join(u.names[..k]) !in links {
        assert u.names[..k] == w.names[..k];
      }
    }
  }

  lemma {:induction false} AppendSettled(links: map<string, string>, w: Where, name: string)
    requires Settled(links, w) && LinkAt(links, w.(names := w.names + [name])).None?
    ensures Settled(links, w.(names := w.names + [name]))
  {
    hide Join;
    var at := w.(names := w.names + [name]);
    if at.Inside() {
      forall k | 0 < k <= |at.names| ensures Join(at.names[..k]) !in links {
        if k <= |w.names| {
          assert at.names[..k] == w.names[..k];
        } else {
          assert at.names[..k] == at.names;
        }
      }
    }
  }

  /** The name of `n + 1` letters. */
  function Letters(n: nat): (s: string)
    ensures |s| == n + 1 && forall i :: 0 <= i < |s| ==> s[i] == 'a'
  {
    if n == 0 then "a" else "a" + Letters(n - 1)
  }

  /** Links from each name to the next longer one. */
  function Chain(n: nat): map<string, string> {
    if n == 0 then map[] else Chain(n - 1)[Letters(n - 1) := Letters(n)]
  }

  lemma {:induction false} ChainAt(n: nat, i: nat)
    ensures Letters(i) in Chain(n) <==> i < n
    ensures i < n ==> Chain(n)[Letters(i)] == Letters(i + 1)
  {
    if n > 0 {
      ChainAt(n - 1, i);
      assert i != n - 1 ==> |Letters(i)| != |Letters(n - 1)|;
    }
  }

  lemma {:induction false} LettersStay(s: string)
    requires forall i :: 0 <= i < |s| ==> s[i] == 'a'
    ensures Slashes(s) == s && Split(s) == [s]
  {
    if s != "" {
      assert forall i :: 0 <= i < |s[1..]| ==> s[1..][i] == s[i + 1];
      LettersStay(s[1..]);
      assert [s[0]] + s[1..] == s;
    }
  }

  /** A chain of as many links as the limit is resolved to its end, with every link followed. */
  lemma {:induction false} ChainResolved(limit: nat, n: nat, i: nat)
    requires i <= n <= limit
    ensures Walk(Chain(n), limit, Where("", 0, []), [Letters(i)], i) == (Where("", 0, [Letters(n)]), n)
    ensures Settled(Chain(n), Where("", 0, [Letters(n)]))
    decreases n - i
  {
    hide Chain, Letters;
    var name, w := Letters(i), Where("", 0, []);
    ChainAt(n, i);
    ChainAt(n, n);
    LettersStay(Letters(i + 1));
    assert name != "" && name != "." && name != ".." by { assert name[0] == 'a'; }
    assert w.names + [name] == [name] && [name][1..] == [] && Join([name]) == name;
    assert [Letters(n)][..1] == [Letters(n)] && Join([Letters(n)]) == Letters(n);
    if i < n {
      assert Parts(Letters(i + 1)) + [] == [Letters(i + 1)];
      ChainResolved(limit, n, i + 1);
    }
  }

  /** What was resolved stays: a settled path walked again follows no link and ends where it did. */
  lemma {:induction false} SettledStays(links: map<string, string>, limit: nat, w: Where, done: nat, hops: nat)
    requires hops <= limit && w.Inside() && Clean(w) && Settled(links, w) && done <= |w.names|
    ensures Walk(links, limit, w.(names := w.names[..done]), w.names[done..], hops) == (w, hops)
    decreases |w.names| - done
  {
    hide Join;
    var at := w.(names := w.names[..done]);
    if done == |w.names| {
      assert at == w;
    } else {
      var parts := w.names[done..];
      assert CleanName(w.names[done]);
      assert parts[1..] == w.names[done + 1..];
      assert w.names[..done] + [parts[0]] == w.names[..done + 1];
      SettledStays(links, limit, w, done + 1, hops);
    }
  }

  /** A path is walked part by part: first to where its front leads, then on from there. */
  lemma {:induction false} WalkThen(links: map<string, string>, limit: nat, w: Where, front: seq<string>,
      back: seq<string>, hops: nat)
    requires hops <= limit
    ensures var mid := Walk(links, limit, w, front, hops);
            Walk(links, limit, w, front + back, hops) == Walk(links, limit, mid.0, back, mid.1)
    decreases limit - hops, |front|
  {
    hide Join, LinkAt, StartAt, Parts, ParentOf;
    if front == [] {
      assert front + back == back;
    } else {
      assert (front + back)[0] == front[0] && (front + back)[1..] == front[1..] + back;
      if front[0] == "" || front[0] == "." {
        WalkThen(links, limit, w, front[1..], back, hops);
      } else if front[0] == ".." {
        WalkThen(links, limit, ParentOf(w), front[1..], back, hops);
      } else {
        var at := w.(names := w.names + [front[0]]);
        var link := LinkAt(links, at);
        if link.Some? && hops < limit {
          var target := Parts(link.value);
          WalkThen(links, limit, StartAt(w, link.value), target + front[1..], back, hops + 1);
          assert (target + front[1..]) + back == target + (front[1..] + back);
        } else {
          WalkThen(links, limit, at, front[1..], back, hops);
        }
      }
    }
  }

  // ----- Where a path without links ends

  predicate IsName(part: string) { part != "" && part != "." && part != ".." }

  /** How many names the first `k` parts add, less those they take back. */
  function Depth(parts: seq<string>, k: nat): int
    requires k <= |parts|
  {
    if k == 0 then 0
    else Depth(parts, k - 1) + if parts[k - 1] == ".." then -1 else if IsName(parts[k - 1]) then 1 else 0
  }

  /** The most by which a prefix falls below the start. */
  ghost predicate IsFall(parts: seq<string>, fall: nat) {
    && (forall k :: 0 <= k <= |parts| ==> Depth(parts, k) + fall >= 0)
    && exists k :: 0 <= k <= |parts| && Depth(parts, k) + fall == 0
  }

  /** A name that no later part takes back: the path never comes back to the depth before it. */
  ghost predicate Survives(parts: seq<string>, i: nat)
    requires i < |parts|
  {
    IsName(parts[i]) && forall k :: i < k <= |parts| ==> Depth(parts, k) > Depth(parts, i)
  }

  /** The indices of exactly the surviving names, in order. */
  ghost predicate Survivors(parts: seq<string>, kept: seq<nat>) {
    && (forall q :: 0 <= q < |kept| ==> kept[q] < |parts|)
    && (forall p, q :: 0 <= p < q < |kept| ==> kept[p] < kept[q])
    && forall i :: 0 <= i < |parts| ==> (Survives(parts, i) <==> i in kept)
  }

  /** From `from`, which has no names yet, the parts lead to `to`: outside a root as far up as they fall below the
      start, at a root never above it, and with the surviving names. */
  ghost predicate Leads(from: Where, parts: seq<string>, to: Where) {
    && to.root == from.root
    && (from.root == "" ==> to.up >= from.up && IsFall(parts, to.up - from.up))
    && (from.root != "" ==> to.up == from.up)
    && exists kept :: Survivors(parts, kept) && NamesAt(parts, kept, to.names)
  }

  ghost predicate NamesAt(parts: seq<string>, kept: seq<nat>, names: seq<string>) {
    |names| == |kept| && forall q :: 0 <= q < |kept| ==> kept[q] < |parts| && names[q] == parts[kept[q]]
  }

  /** The survivors stand at consecutive depths, from the lowest depth to the last one. */
  ghost predicate Stacked(parts: seq<string>, kept: seq<nat>, fall: nat) {
    && Survivors(parts, kept) && IsFall(parts, fall) && |kept| == Depth(parts, |parts|) + fall
    && forall q :: 0 <= q < |kept| ==> Depth(parts, kept[q]) == q - fall
  }

  lemma {:induction false} DepthFront(parts: seq<string>, part: string, k: nat)
    requires k <= |parts|
    ensures Depth(parts + [part], k) == Depth(parts, k)
  {
    if k > 0 {
      DepthFront(parts, part, k - 1);
    }
  }

  /** One more part: a name is put on top, and two dots take the top away or fall one step lower. */
  ghost function Next(parts: seq<string>, kept: seq<nat>, part: string): seq<nat> {
    if part == ".." then if kept == [] then [] else kept[..|kept| - 1]
    else if IsName(part) then kept + [|parts|] else kept
  }

  lemma {:induction false} StackedNext(parts: seq<string>, kept: seq<nat>, fall: nat, part: string)
    requires Stacked(parts, kept, fall)
    ensures Stacked(parts + [part], Next(parts, kept, part), if part == ".." && kept == [] then fall + 1 else fall)
  {
    hide IsName, Depth;
    var all, n := parts + [part], |parts|;
    forall k | 0 <= k <= n ensures Depth(all, k) == Depth(parts, k) {
      DepthFront(parts, part, k);
    }
    LastDepth(parts, part);
    FallNext(parts, kept, fall, part);
    forall i | 0 <= i < |all| ensures Survives(all, i) <==> i in Next(parts, kept, part) {
      SurvivesNext(parts, kept, fall, part, i);
    }
  }

  lemma {:induction false} LastDepth(parts: seq<string>, part: string)
    ensures Depth(parts + [part], |parts| + 1)
         == Depth(parts, |parts|) + if part == ".." then -1 else if IsName(part) then 1 else 0
    ensures IsName(part) ==> part != ".."
  {
    DepthFront(parts, part, |parts|);
  }

  lemma {:induction false} FallNext(parts: seq<string>, kept: seq<nat>, fall: nat, part: string)
    requires Stacked(parts, kept, fall)
    ensures IsFall(parts + [part], if part == ".." && kept == [] then fall + 1 else fall)
  {
    hide IsName, Depth, Survivors;
    var all, n := parts + [part], |parts|;
    forall k | 0 <= k <= n ensures Depth(all, k) == Depth(parts, k) {
      DepthFront(parts, part, k);
    }
    LastDepth(parts, part);
    var k :| 0 <= k <= n && Depth(parts, k) + fall == 0;
    assert Depth(all, k) + fall == 0;
  }

  lemma {:induction false} SurvivesNext(parts: seq<string>, kept: seq<nat>, fall: nat, part: string, i: nat)
    requires Stacked(parts, kept, fall) && i <= |parts|
    ensures Survives(parts + [part], i) <==> i in Next(parts, kept, part)
  {
    hide IsName, Depth, IsFall;
    var all, n := parts + [part], |parts|;
    forall k | 0 <= k <= n ensures Depth(all, k) == Depth(parts, k) {
      DepthFront(parts, part, k);
    }
    LastDepth(parts, part);
    if i < n {
      assert Survives(all, i) <==> Survives(parts, i) && Depth(all, n + 1) > Depth(parts, i);
      if i in kept {
        var q :| 0 <= q < |kept| && kept[q] == i;
        if part == ".." {
          assert i in kept[..|kept| - 1] <==> q < |kept| - 1;
        }
      }
    }
  }

  /** A walk that follows no link. */
  lemma {:induction false} StackedWalk(links: map<string, string>, limit: nat, w: Where, parts: seq<string>, hops: nat)
    returns (kept: seq<nat>, fall: nat)
    requires hops <= limit && w.names == [] && Walk(links, limit, w, parts, hops).1 == hops
    ensures Stacked(parts, kept, fall) && NamesAt(parts, kept, Walk(links, limit, w, parts, hops).0.names)
    ensures var to := Walk(links, limit, w, parts, hops).0;
            to.root == w.root && to.up == if w.root == "" then w.up + fall else w.up
  {
    hide Stacked, Join;
    if parts == [] {
      kept, fall := [], 0;
      NothingStacked();
    } else {
      var n := |parts| - 1;
      var front, part := parts[..n], parts[n];
      assert parts == front + [part];
      WalkThen(links, limit, w, front, [part], hops);
      var mid := Walk(links, limit, w, front, hops);
      var before, fell := StackedWalk(links, limit, w, front, hops);
      StackedNext(front, before, fell, part);
      kept, fall := Next(front, before, part), if part == ".." && before == [] then fell + 1 else fell;
      OneStep(links, limit, mid.0, part, hops);
    }
  }

  lemma {:induction false} NothingStacked()
    ensures Stacked([], [], 0)
  {
    assert Depth([], 0) == 0;
  }

  /** One part of a path, when it is no link. */
  lemma {:induction false} OneStep(links: map<string, string>, limit: nat, w: Where, part: string, hops: nat)
    requires hops <= limit && Walk(links, limit, w, [part], hops).1 == hops
    ensures var to := Walk(links, limit, w, [part], hops).0;
            && to.root == w.root
            && (IsName(part) ==> to.names == w.names + [part] && to.up == w.up)
            && (part == ".." && w.names != [] ==> to.names == w.names[..|w.names| - 1] && to.up == w.up)
            && (part == ".." && w.names == [] ==> to.names == [] && to.up == if w.root == "" then w.up + 1 else w.up)
            && (!IsName(part) && part != ".." ==> to == w)
  {
    hide Join;
    assert [part][1..] == [];
    if IsName(part) {
      var at := w.(names := w.names + [part]);
      assert LinkAt(links, at).None? || hops == limit;
    }
  }

  /** A path without links leads where its parts say, whatever they go up. */
  lemma {:induction false} PlainWalkLeads(links: map<string, string>, limit: nat, w: Where, parts: seq<string>,
      hops: nat)
    requires hops <= limit && w.names == [] && Walk(links, limit, w, parts, hops).1 == hops
    ensures Leads(w, parts, Walk(links, limit, w, parts, hops).0)
  {
    var kept, fall := StackedWalk(links, limit, w, parts, hops);
  }

  /** From a settled directory a relative path without links leads where the names of the directory and
      its parts say. */
  lemma {:induction false} RelativeLeads(links: map<string, string>, limit: nat, dir: seq<string>, parts: seq<string>)
    requires Clean(Where("", 0, dir)) && Settled(links, Where("", 0, dir))
    requires Walk(links, limit, Where("", 0, dir), parts, 0).1 == 0
    ensures Leads(Where("", 0, []), dir + parts, Walk(links, limit, Where("", 0, dir), parts, 0).0)
  {
    hide Leads, Clean, Settled;
    var w := Where("", 0, dir);
    SettledStays(links, limit, w, 0, 0);
    assert dir[..0] == [] && dir[0..] == dir;
    WalkThen(links, limit, Where("", 0, []), dir, parts, 0);
    PlainWalkLeads(links, limit, Where("", 0, []), dir + parts, 0);
  }

  /** Nothing outside the skill is a link of the skill: a walk that has left it, or is at a root, follows none, and
      never comes back inside. */
  lemma {:induction false} OutsideStays(links: map<string, string>, limit: nat, w: Where, parts: seq<string>, hops: nat)
    requires hops <= limit && (w.root != "" || w.up > 0)
    ensures var r := Walk(links, limit, w, parts, hops);
            r.1 == hops && r.0.root == w.root && w.up <= r.0.up && (w.root != "" ==> r.0.up == w.up)
    decreases |parts|
  {
    hide Join;
    if parts != [] {
      if parts[0] == "" || parts[0] == "." {
        OutsideStays(links, limit, w, parts[1..], hops);
      } else if parts[0] == ".." {
        OutsideStays(links, limit, ParentOf(w), parts[1..], hops);
      } else {
        OutsideStays(links, limit, w.(names := w.names + [parts[0]]), parts[1..], hops);
      }
    }
  }

  lemma {:induction false} StepUp(links: map<string, string>, limit: nat, w: Where, rest: seq<string>)
    requires w.root == "" && w.names == []
    ensures Walk(links, limit, w, [".."] + rest, 0) == Walk(links, limit, w.(up := w.up + 1), rest, 0)
  {
    assert ([".."] + rest)[1..] == rest;
  }

  lemma {:induction false} StepName(links: map<string, string>, limit: nat, w: Where, name: string, rest: seq<string>)
    requires w.up > 0 && IsName(name)
    ensures Walk(links, limit, w, [name] + rest, 0) == Walk(links, limit, w.(names := w.names + [name]), rest, 0)
  {
    assert ([name] + rest)[1..] == rest;
  }

  /** What is known of the end of a walk with the limit of the code. */
  lemma {:induction false} ResolvedEnd(links: map<string, string>, dir: seq<string>, w: Where, parts: seq<string>)
    requires Clean(Where("", 0, dir)) && Settled(links, Where("", 0, dir)) && Clean(w) && Settled(links, w)
      && Plain(parts)
    requires w == Where("", 0, dir) || (w.root != "" && w.names == [])
    ensures var end := Walk(links, MAX_HOPS, w, parts, 0);
            && Clean(end.0)
            && (Walk(links, MAX_HOPS + 1, w, parts, 0).1 <= MAX_HOPS ==> Settled(links, end.0))
            && (end.1 < MAX_HOPS ==> Settled(links, end.0))
            && (end.1 == 0 && w == Where("", 0, dir) ==> Leads(Where("", 0, []), dir + parts, end.0))
            && (end.1 == 0 && w.root != "" ==> Leads(w, parts, end.0))
  {
    hide Walk, Leads, Settled, Clean, Join, Plain;
    var end := Walk(links, MAX_HOPS, w, parts, 0);
    WalkClean(links, MAX_HOPS, w, parts, 0);
    UncutWalk(links, MAX_HOPS, MAX_HOPS + 1, w, parts, 0);
    FewerHops(links, MAX_HOPS, w, parts, 0);
    if Walk(links, MAX_HOPS + 1, w, parts, 0).1 <= MAX_HOPS {
      WalkSettled(links, MAX_HOPS, w, parts, 0);
    }
    if end.1 == 0 && w == Where("", 0, dir) {
      RelativeLeads(links, MAX_HOPS, dir, parts);
    } else if end.1 == 0 {
      PlainWalkLeads(links, MAX_HOPS, w, parts, 0);
    }
  }

  /** A link to "../../etc/passwd" at the top of the skill leads two steps out of it. */
  lemma {:induction false} EscapingLink(links: map<string, string>, limit: nat)
    ensures StartAt(Where("", 0, []), "../../etc/passwd") == Where("", 0, [])
    ensures Walk(links, limit, Where("", 0, []), Parts("../../etc/passwd"), 0) == (Where("", 2, ["etc", "passwd"]), 0)
  {
    hide Join, Split, Walk, StartAt, Parts, Slashes, Drive;
    var top := Where("", 0, []);
    RelativeTarget(top, "../../etc/passwd");
    EscapingParts();
    StepUp(links, limit, top, ["..", "etc", "passwd"]);
    StepUp(links, limit, Where("", 1, []), ["etc", "passwd"]);
    StepName(links, limit, Where("", 2, []), "etc", ["passwd"]);
    StepName(links, limit, Where("", 2, ["etc"]), "passwd", []);
    assert [".."] + ["..", "etc", "passwd"] == ["..", "..", "etc", "passwd"];
    assert [".."] + ["etc", "passwd"] == ["..", "etc", "passwd"];
    assert ["etc"] + ["passwd"] == ["etc", "passwd"] && ["passwd"] + [] == ["passwd"] && [] + ["etc"] == ["etc"];
    NoMoreParts(links, limit, Where("", 2, ["etc", "passwd"]));
  }

  /** A target without backslash, root or drive goes on from where the link is. */
  lemma {:induction false} RelativeTarget(w: Where, target: string)
    requires |target| >= 2 && target[0] != '/' && target[1] != ':' && '\\' !in target
    ensures StartAt(w, target) == w && Parts(target) == Split(target)
  {
    hide Slashes, Split;
    NoBackslash(target);
  }

  lemma {:induction false} NoMoreParts(links: map<string, string>, limit: nat, w: Where)
    ensures Walk(links, limit, w, [], 0) == (w, 0)
  {
  }

  lemma {:induction false} EscapingParts()
    ensures Split("../../etc/passwd") == ["..", "..", "etc", "passwd"]
  {
    hide Split;
    SplitName("..", "../etc/passwd");
    SplitName("..", "etc/passwd");
    SplitName("etc", "passwd");
    SplitName("passwd", "");
    assert ".." + "/" + "../etc/passwd" == "../../etc/passwd";
    assert ".." + "/" + "etc/passwd" == "../etc/passwd";
    assert "etc" + "/" + "passwd" == "etc/passwd";
  }

  lemma {:induction false} NoBackslash(s: string)
    requires '\\' !in s
    ensures Slashes(s) == s
  {
    if s != "" {
      NoBackslash(s[1..]);
      assert [s[0]] + s[1..] == s;
    }
  }

  // ----- The text of a path

  function Ups(n: nat): seq<string> { if n == 0 then [] else [".."] + Ups(n - 1) }

  function Text(w: Where): string {
    if w.root != "" then w.root + Join(w.names)
    else if Join(Ups(w.up) + w.names) != "" then Join(Ups(w.up) + w.names)
    else "."
  }

  lemma {:induction false} JoinEmpty(names: seq<string>)
    requires forall i :: 0 <= i < |names| ==> names[i] != ""
    ensures Join(names) == "" <==> names == []
  {
    if |names| > 1 {
      assert names[0] != "";
    }
  }

  lemma {:induction false} UpsAre(n: nat)
    ensures |Ups(n)| == n && forall i :: 0 <= i < n ==> Ups(n)[i] == ".."
  {
    if n > 0 {
      UpsAre(n - 1);
    }
  }

  /** The text tells where a path is: its first segment is two dots exactly when it leaves the skill,
      and a text with no root never starts with a slash. */
  lemma {:induction false} TextTells(w: Where)
    requires Clean(w)
    ensures w.root == "" ==> (Split(Text(w))[0] == ".." <==> w.up > 0)
    ensures w.root == "" ==> Split(Text(w)) == if w.up == 0 && w.names == [] then ["."] else Ups(w.up) + w.names
    ensures Text(w) != "" && (Text(w)[0] == '/' <==> w.root == "/")
  {
    var all := Ups(w.up) + w.names;
    UpsAre(w.up);
    if w.root == "" {
      forall i | 0 <= i < |all| ensures all[i] != "" && '/' !in all[i] {
        if i >= w.up {
          assert CleanName(w.names[i - w.up]);
        }
      }
      JoinEmpty(all);
      if all == [] {
        SplitName(".", "");
      } else {
        SplitJoin(all);
        JoinStart(all);
        if w.up == 0 {
          assert CleanName(w.names[0]);
        }
      }
    }
  }

  lemma {:induction false} JoinStart(names: seq<string>)
    requires names != [] && names[0] != ""
    ensures Join(names) != "" && Join(names)[0] == names[0][0]
  {
  }

  // ----- Resolution in place

  class Resolved {
    var root: string
    var up: nat
    var names: seq<string>

    constructor ()
      ensures Now() == Where("", 0, [])
    {
      root, up, names := "", 0, [];
    }

    function Now(): Where
      reads this
    {
      Where(root, up, names)
    }

    method Start(target: string) returns (parts: seq<string>)
      modifies this
      ensures Now() == StartAt(old(Now()), target) && parts == Parts(target)
    {
      var t := Slashes(target);
      if |t| > 0 && t[0] == '/' {
        root, up, names := "/", 0, [];
      } else if Drive(t) {
        root, up, names := t[..2] + "/", 0, [];
        t := t[2..];
      }
      parts := Split(t);
    }

    method Parent()
      modifies this
      ensures Now() == ParentOf(old(Now()))
    {
      if |names| > 0 {
        names := names[..|names| - 1];
      } else if root == "" {
        up := up + 1;
      }
    }

    method Link(links: map<string, string>) returns (target: Option<string>)
      ensures target == LinkAt(links, Now())
    {
      if root != "" || up > 0 {
        return None;
      }
      if Join(names) !in links {
        return None;
      }
      return Some(links[Join(names)]);
    }

    /** `dir` are the names of the directory that holds the link; `content` is where the link points. */
    method Resolve(links: map<string, string>, dir: seq<string>, content: string) returns (text: string, hops: nat)
      requires Now() == Where("", 0, [])
      requires Clean(Where("", 0, dir)) && Settled(links, Where("", 0, dir))
      modifies this
      ensures (Now(), hops) == Walk(links, MAX_HOPS, StartAt(Where("", 0, dir), content), Parts(content), 0)
        && hops <= MAX_HOPS
      ensures Clean(Now()) && text == Text(Now())
      ensures Walk(links, MAX_HOPS + 1, StartAt(Where("", 0, dir), content), Parts(content), 0).1 <= MAX_HOPS ==>
        Settled(links, Now())
      ensures hops < MAX_HOPS ==> Settled(links, Now())
      ensures hops == 0 && StartAt(Where("", 0, dir), content) == Where("", 0, dir) ==>
        Leads(Where("", 0, []), dir + Parts(content), Now())
      ensures hops == 0 && StartAt(Where("", 0, dir), content).root != "" ==>
        Leads(StartAt(Where("", 0, dir), content), Parts(content), Now())
    {
      names := dir;
      var parts := Start(content);
      ghost var w0, parts0 := Now(), parts;
      hops := 0;
      while |parts| > 0
        invariant hops <= MAX_HOPS && Walk(links, MAX_HOPS, w0, parts0, 0) == Walk(links, MAX_HOPS, Now(), parts, hops)
        decreases MAX_HOPS - hops, |parts|
      {
        var part := parts[0];
        parts := parts[1..];
        if part == "" || part == "." {
        } else if part == ".." {
          Parent();
        } else {
          names := names + [part];
          var target := Link(links);
          if target.Some? && hops < MAX_HOPS {
            hops := hops + 1;
            names := names[..|names| - 1];
            var more := Start(target.value);
            parts := more + parts;
          }
        }
      }
      hide Walk, Leads, Settled, Clean, Join;
      ResolvedEnd(links, dir, w0, parts0);
      text := Text(Now());
    }
  }
}
