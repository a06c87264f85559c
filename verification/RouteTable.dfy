/** Route entries, their order, and the in-place pass that keeps the best entry of every key
    (src/network/route.c). */
module RouteTable {
  import opened Words

  /** An interface index and a hardware address are plain numbers here. */
  datatype RouteEntry = RouteEntry(ip: u32, mask: u32, device: nat, dist: u32, mac: nat)

  const MAX_DIST: u32 := 20
  const HOST_MASK: u32 := 0xffff_ffff

  /** compareRouteEntries. */
  function Compare(a: RouteEntry, b: RouteEntry): int {
    if a.mask < b.mask then -1
    else if a.mask > b.mask then 1
    else if a.ip < b.ip then -1
    else if a.ip > b.ip then 1
    else 0
  }

  predicate SameKey(a: RouteEntry, b: RouteEntry) {
    a.ip == b.ip && a.mask == b.mask
  }

  /** What qsort promises with this comparison. */
  ghost predicate Sorted(s: seq<RouteEntry>) {
    forall i, j :: 0 <= i < j < |s| ==> Compare(s[i], s[j]) <= 0
  }

  ghost predicate StrictlySorted(s: seq<RouteEntry>) {
    forall i, j :: 0 <= i < j < |s| ==> Compare(s[i], s[j]) < 0
  }

  /** The order is by mask and then by address, and only equal keys compare as equal. */
  lemma CompareIsByKey(a: RouteEntry, b: RouteEntry)
    ensures Compare(a, b) < 0 <==> a.mask < b.mask || (a.mask == b.mask && a.ip < b.ip)
    ensures Compare(a, b) == 0 <==> SameKey(a, b)
    ensures Compare(a, b) == -Compare(b, a)
  {
  }

  // ----- the two loops of removeDuplicates, as functions of what they have consumed -----

  function Last(s: seq<RouteEntry>): RouteEntry
    requires s != []
  {
    s[|s| - 1]
  }

  function Init(s: seq<RouteEntry>): seq<RouteEntry>
    requires s != []
  {
    s[..|s| - 1]
  }

  /** The entry `e` joins a merged prefix: a new key is added, a nearer entry replaces the last. */
  function Join(t: seq<RouteEntry>, e: RouteEntry): seq<RouteEntry>
    requires t != []
  {
    if !SameKey(e, Last(t)) then t + [e]
    else if e.dist < Last(t).dist then Init(t) + [e]
    else t
  }

  function Merge(s: seq<RouteEntry>): (t: seq<RouteEntry>)
    ensures (t == [] <==> s == []) && |t| <= |s|
  {
    if |s| <= 1 then s else Join(Merge(Init(s)), Last(s))
  }

  function Cut(s: seq<RouteEntry>): (t: seq<RouteEntry>)
    ensures |t| <= |s|
  {
    if s == [] then []
    else if Last(s).dist <= MAX_DIST then Cut(Init(s)) + [Last(s)]
    else Cut(Init(s))
  }

  /** removeDuplicates, with its early return. */
  function Dedup(s: seq<RouteEntry>): seq<RouteEntry> {
    if |s| <= 1 then s else Cut(Merge(s))
  }

  /** One iteration of the first loop of removeDuplicates. */
  method JoinInPlace(entries: array<RouteEntry>, uniqueIndex: nat, i: nat) returns (uniqueIndex': nat)
    requires 1 <= uniqueIndex <= i < entries.Length
    modifies entries
    ensures uniqueIndex <= uniqueIndex' <= uniqueIndex + 1
    ensures entries[..uniqueIndex'] == Join(old(entries[..uniqueIndex]), old(entries[i]))
    ensures entries[i + 1..] == old(entries[i + 1..])
  {
    uniqueIndex' := uniqueIndex;
    ghost var merged := entries[..uniqueIndex];
    assert Last(merged) == entries[uniqueIndex - 1];
    if entries[i].ip != entries[uniqueIndex - 1].ip || entries[i].mask != entries[uniqueIndex - 1].mask {
      entries[uniqueIndex] := entries[i];
      uniqueIndex' := uniqueIndex + 1;
    } else if entries[i].dist < entries[uniqueIndex - 1].dist {
      entries[uniqueIndex - 1] := entries[i];
    }
  }

  /** The first loop of removeDuplicates: the first `uniqueIndex` entries are the result. */
  method MergeInPlace(entries: array<RouteEntry>, numEntries: nat) returns (uniqueIndex: nat)
    requires 1 <= numEntries <= entries.Length
    modifies entries
    ensures uniqueIndex <= numEntries
    ensures entries[..uniqueIndex] == Merge(old(entries[..numEntries]))
  {
    ghost var input := entries[..];
    uniqueIndex := 1;
    for i := 1 to numEntries
      invariant 1 <= uniqueIndex <= i
      invariant entries[..uniqueIndex] == Merge(input[..i])
      invariant entries[i..] == input[i..]
    {
      assert entries[i] == entries[i..][0] == input[i];
      assert input[i + 1..] == input[i..][1..] == entries[i..][1..] == entries[i + 1..];
      assert Init(input[..i + 1]) == input[..i] && Last(input[..i + 1]) == input[i];
      uniqueIndex := JoinInPlace(entries, uniqueIndex, i);
    }
    assert input[..numEntries] == old(entries[..numEntries]);
  }

  /** The second loop of removeDuplicates. */
  method CutInPlace(entries: array<RouteEntry>, numEntries: nat) returns (index: nat)
    requires numEntries <= entries.Length
    modifies entries
    ensures index <= numEntries
    ensures entries[..index] == Cut(old(entries[..numEntries]))
  {
    ghost var input := entries[..numEntries];
    index := 0;
    for i := 0 to numEntries
      invariant index <= i
      invariant entries[..index] == Cut(input[..i])
      invariant entries[i..numEntries] == input[i..]
    {
      assert entries[i] == entries[i..numEntries][0] == input[i];
      assert Init(input[..i + 1]) == input[..i];
      ghost var kept := entries[..index];
      ghost var rest := entries[i + 1..numEntries];
      assert rest == entries[i..numEntries][1..] == input[i + 1..];
      if entries[i].dist <= MAX_DIST {
        entries[index] := entries[i];
        index := index + 1;
        assert entries[..index] == kept + [input[i]];
      }
      assert entries[i + 1..numEntries] == rest;
    }
    assert input[..numEntries] == input;
  }

  /** removeDuplicates in place: the first `count` entries are the result. */
  method RemoveDuplicates(entries: array<RouteEntry>, numEntries: nat) returns (count: nat)
    requires numEntries <= entries.Length
    modifies entries
    ensures count <= numEntries
    ensures entries[..count] == Dedup(old(entries[..numEntries]))
  {
    if numEntries <= 1 {
      return numEntries;
    }
    count := MergeInPlace(entries, numEntries);
    count := CutInPlace(entries, count);
  }

  // ----- what the pass achieves -----

  ghost predicate HasKey(t: seq<RouteEntry>, y: RouteEntry) {
    exists x :: x in t && SameKey(x, y)
  }

  lemma {:induction false} MergeOrdered(s: seq<RouteEntry>)
    requires Sorted(s)
    ensures StrictlySorted(Merge(s))
    ensures s != [] ==> SameKey(Last(Merge(s)), Last(s))
  {
    if |s| > 1 {
      MergeOrdered(Init(s));
      assert Compare(Last(Init(s)), Last(s)) <= 0;
    }
  }

  lemma {:induction false} MergeIncluded(s: seq<RouteEntry>)
    ensures forall x :: x in Merge(s) ==> x in s
  {
    if |s| > 1 {
      MergeIncluded(Init(s));
      assert s == Init(s) + [Last(s)];
    }
  }

  /** One step of the first loop: the new entry and every entry kept so far stay covered. */
  lemma MergeStep(t: seq<RouteEntry>, e: RouteEntry, x: RouteEntry)
    requires t != [] && (x in t || x == e)
    ensures var m := Join(t, e);
      x in m || (SameKey(e, x) && e.dist <= x.dist && e in m)
      || (SameKey(Last(t), x) && Last(t).dist <= x.dist && Last(t) in m)
  {
    assert t == Init(t) + [Last(t)];
  }

  lemma {:induction false} MergeCovers(s: seq<RouteEntry>, y: RouteEntry) returns (x: RouteEntry)
    requires y in s
    ensures x in Merge(s) && SameKey(x, y) && x.dist <= y.dist
  {
    if |s| <= 1 {
      return y;
    }
    var t, e := Merge(Init(s)), Last(s);
    assert s == Init(s) + [e];
    if y in Init(s) {
      x := MergeCovers(Init(s), y);
    } else {
      x := e;
    }
    MergeStep(t, e, x);
    if x !in Merge(s) {
      x := if e in Merge(s) && SameKey(e, x) && e.dist <= x.dist then e else Last(t);
    }
  }

  lemma {:induction false} CutKeeps(s: seq<RouteEntry>)
    ensures forall x :: x in Cut(s) <==> x in s && x.dist <= MAX_DIST
    ensures StrictlySorted(s) ==> StrictlySorted(Cut(s))
  {
    if s != [] {
      CutKeeps(Init(s));
      assert s == Init(s) + [Last(s)];
      if StrictlySorted(s) {
        forall x | x in Cut(Init(s))
          ensures Compare(x, Last(s)) < 0
        {
          var i :| 0 <= i < |Init(s)| && Init(s)[i] == x;
          assert s[i] == x;
        }
      }
    }
  }

  /** `out` is the table of the best entries of `input`: strictly ordered, every entry one of the
      inputs with the least distance of its key and at most 20, and no such key missing. */
  ghost predicate BestOf(out: seq<RouteEntry>, input: seq<RouteEntry>) {
    && StrictlySorted(out)
    && (forall x :: x in out ==> x in input && x.dist <= MAX_DIST)
    && (forall x, y :: x in out && y in input && SameKey(x, y) ==> x.dist <= y.dist)
    && (forall y :: y in input && y.dist <= MAX_DIST ==> HasKey(out, y))
  }

  lemma KeyWitness(t: seq<RouteEntry>, y: RouteEntry) returns (x: RouteEntry)
    requires HasKey(t, y)
    ensures x in t && SameKey(x, y)
  {
    x :| x in t && SameKey(x, y);
  }

  lemma SameKeySame(s: seq<RouteEntry>, x: RouteEntry, y: RouteEntry)
    requires StrictlySorted(s) && x in s && y in s && SameKey(x, y)
    ensures x == y
  {
    var i :| 0 <= i < |s| && s[i] == x;
    var j :| 0 <= j < |s| && s[j] == y;
  }

  /** For any order qsort leaves equal keys in, the pass yields the best entries, as long as some
      entry is within reach, as a router's own devices always are. */
  lemma DedupIsBest(s: seq<RouteEntry>)
    requires Sorted(s) && exists y :: y in s && y.dist <= MAX_DIST
    ensures BestOf(Dedup(s), s)
  {
    if |s| == 1 {
      assert s[0] in s;
    } else {
      var t := Merge(s);
      MergeOrdered(s);
      MergeIncluded(s);
      CutKeeps(t);
      forall x, y | x in Cut(t) && y in s && SameKey(x, y)
        ensures x.dist <= y.dist
      {
        var z := MergeCovers(s, y);
        SameKeySame(t, x, z);
      }
      forall y | y in s && y.dist <= MAX_DIST
        ensures HasKey(Cut(t), y)
      {
        var x := MergeCovers(s, y);
        assert x in Cut(t);
      }
    }
  }

  /** The early return keeps a lone entry whatever its distance, and that is the only way a result
      can hold an entry beyond 20. */
  lemma DistanceBound(s: seq<RouteEntry>)
    ensures (forall x :: x in Dedup(s) ==> x.dist <= MAX_DIST) <==> !(|s| == 1 && s[0].dist > MAX_DIST)
  {
    if |s| > 1 {
      CutKeeps(Merge(s));
    } else if |s| == 1 {
      assert s[0] in Dedup(s);
    }
  }

  /** Two tables of best entries of the same inputs agree in keys and distances, so the choice an
      unstable sort makes among equal keys only affects which equally near entry is kept. */
  lemma BestIsUnique(out: seq<RouteEntry>, out': seq<RouteEntry>, input: seq<RouteEntry>, x: RouteEntry)
    requires BestOf(out, input) && BestOf(out', input) && x in out
    ensures exists x' :: x' in out' && SameKey(x', x) && x'.dist == x.dist
  {
    hide HasKey, StrictlySorted;
    var x' := KeyWitness(out', x);
    assert SameKey(x, x') && x'.dist == x.dist;
  }
}
