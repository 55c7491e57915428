/** References and their reports (pkg/refs/refs.go). */
module Refs {
  datatype Kind = Domain | GitHub | Package | Address {
    function Name(): string {
      match this
      case Domain => "domain"
      case GitHub => "github"
      case Package => "package"
      case Address => "address"
    }
  }

  datatype Location = Location(file: string, line: nat)

  datatype Ref = Ref(kind: Kind, value: string, urls: seq<string>, locations: seq<Location>, derived: bool) {
    function Key(): string { kind.Name() + ":" + value }
  }

  datatype Status = Checked | NotChecked | Failed

  datatype Report = Report(ref: Ref, status: Status, detail: string, facts: seq<(string, string)>,
    findings: seq<string>, derived: seq<Ref>, unpopular: bool)

  function Unchecked(ref: Ref, detail: string): Report { Report(ref, NotChecked, detail, [], [], [], false) }

  /** A key names one kind and one value. */
  lemma {:induction false} KeyInjective(a: Ref, b: Ref)
    requires a.Key() == b.Key()
    ensures a.kind == b.kind && a.value == b.value
  {
    var s, t := a.kind.Name(), b.kind.Name();
    assert a.Key()[..|s|] == s && a.Key()[|s|] == ':' && a.Key()[|s| + 1..] == a.value;
    assert b.Key()[..|t|] == t && b.Key()[|t|] == ':' && b.Key()[|t| + 1..] == b.value;
    assert a.Key()[0] == s[0] && b.Key()[0] == t[0];
  }

  // ----- Merging, on lists of references

  function Join<T(==,!new)>(xs: seq<T>, ys: seq<T>): (r: seq<T>)
    ensures xs <= r && forall x :: x in r <==> x in xs || x in ys
  {
    if ys == [] then xs
    else
      var r := Join(xs, ys[..|ys| - 1]);
      var y := ys[|ys| - 1];
      if y in r then r else r + [y]
  }

  function Merge(ref: Ref, found: Ref): (r: Ref)
    ensures r.Key() == ref.Key()
  {
    ref.(locations := Join(ref.locations, found.locations), urls := Join(ref.urls, found.urls))
  }

  /** Where a key is listed first, or the length. */
  function Find(refs: seq<Ref>, key: string): (i: nat)
    ensures i <= |refs| && (i < |refs| ==> refs[i].Key() == key)
    ensures forall j :: 0 <= j < i ==> refs[j].Key() != key
  {
    if refs == [] then 0 else if refs[0].Key() == key then 0 else 1 + Find(refs[1..], key)
  }

  function AddOne(refs: seq<Ref>, found: Ref): seq<Ref> {
    var i := Find(refs, found.Key());
    if i < |refs| then refs[i := Merge(refs[i], found)] else refs + [found]
  }

  function AddAll(refs: seq<Ref>, found: seq<Ref>): seq<Ref> {
    if found == [] then refs else AddOne(AddAll(refs, found[..|found| - 1]), found[|found| - 1])
  }

  ghost predicate Distinct(refs: seq<Ref>) {
    forall i, j :: 0 <= i < j < |refs| ==> refs[i].Key() != refs[j].Key()
  }

  /** A longer list with the same references in front, each as it was but for more locations and URLs. */
  ghost predicate Grows(before: seq<Ref>, after: seq<Ref>) {
    && |before| <= |after|
    && forall i :: 0 <= i < |before| ==>
         && after[i] == before[i].(locations := after[i].locations, urls := after[i].urls)
         && before[i].locations <= after[i].locations && before[i].urls <= after[i].urls
  }

  /** One reference per key, the listed ones stay where they are. */
  lemma {:induction false} AddKeepsDistinct(refs: seq<Ref>, found: seq<Ref>)
    requires Distinct(refs)
    ensures Distinct(AddAll(refs, found)) && Grows(refs, AddAll(refs, found))
  {
    if found != [] {
      AddKeepsDistinct(refs, found[..|found| - 1]);
    }
  }

  /** Where a found reference ends up, with all its locations and URLs. */
  ghost predicate Holds(refs: seq<Ref>, found: Ref) {
    exists i :: 0 <= i < |refs| && refs[i].Key() == found.Key()
      && (forall loc :: loc in found.locations ==> loc in refs[i].locations)
      && (forall url :: url in found.urls ==> url in refs[i].urls)
  }

  lemma {:induction false} GrowsHolds(before: seq<Ref>, after: seq<Ref>, found: Ref)
    requires Grows(before, after) && Holds(before, found)
    ensures Holds(after, found)
  {
    var i :| 0 <= i < |before| && before[i].Key() == found.Key()
      && (forall loc :: loc in found.locations ==> loc in before[i].locations)
      && (forall url :: url in found.urls ==> url in before[i].urls);
    assert after[i].Key() == found.Key();
  }

  lemma {:induction false} AddOneHolds(refs: seq<Ref>, found: Ref)
    ensures Grows(refs, AddOne(refs, found)) && Holds(AddOne(refs, found), found)
  {
    var i := Find(refs, found.Key());
    assert AddOne(refs, found)[i].Key() == found.Key();
  }

  /** Nothing found is lost. */
  lemma {:induction false} AddLosesNothing(refs: seq<Ref>, found: seq<Ref>, k: nat)
    requires Distinct(refs) && k < |found|
    ensures Holds(AddAll(refs, found), found[k])
    decreases |found|
  {
    hide AddOne, Holds, Grows, Distinct;
    var n := |found| - 1;
    var before := AddAll(refs, found[..n]);
    AddKeepsDistinct(refs, found[..n]);
    AddOneHolds(before, found[n]);
    if k < n {
      AddLosesNothing(refs, found[..n], k);
      GrowsHolds(before, AddOne(before, found[n]), found[k]);
    }
  }

  /** Where a location of a merged reference was read. */
  ghost predicate Sourced(refs: seq<Ref>, key: string, loc: Location) {
    exists i :: 0 <= i < |refs| && refs[i].Key() == key && loc in refs[i].locations
  }

  /** Nothing is invented: every key, and every location of a key, was listed or found. */
  lemma {:induction false} AddInventsNothing(refs: seq<Ref>, found: seq<Ref>, i: nat, loc: Location)
    requires i < |AddAll(refs, found)|
    ensures var r := AddAll(refs, found)[i];
            (loc in r.locations ==> Sourced(refs + found, r.Key(), loc))
            && exists j :: 0 <= j < |refs + found| && (refs + found)[j].Key() == r.Key()
  {
    var r := AddAll(refs, found)[i];
    if found == [] {
      assert refs + found == refs;
    } else {
      var n := |found| - 1;
      var all := refs + found;
      var before := AddAll(refs, found[..n]);
      assert all[..|all| - 1] == refs + found[..n] && all[|all| - 1] == found[n];
      if i < |before| {
        AddInventsNothing(refs, found[..n], i, loc);
        var j :| 0 <= j < |refs + found[..n]| && (refs + found[..n])[j].Key() == before[i].Key();
        assert all[j].Key() == r.Key();
        if loc in r.locations {
          if loc in before[i].locations {
            var k :| 0 <= k < |refs + found[..n]| && (refs + found[..n])[k].Key() == r.Key()
              && loc in (refs + found[..n])[k].locations;
            assert all[k] == (refs + found[..n])[k];
          } else {
            assert all[|all| - 1].Key() == r.Key() && loc in all[|all| - 1].locations;
          }
        }
      } else {
        assert r == all[|all| - 1];
      }
    }
  }
}
