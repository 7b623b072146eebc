/** The overlap check of a patch: which fixtures' channel ranges meet, and what that says of their slots. */
module Collisions {
  import opened Prelude
  import opened ChannelMap
  import opened WireFrames

  /** Fixtures without channels, or without a valid start address, are left out of the check. */
  predicate Ranged(a: Address)
  {
    a.footprint != 0 && 1 <= a.start <= 512
  }

  function EndOf(a: Address): int
  {
    if a.footprint == 0 then a.start else a.start + a.footprint - 1
  }

  predicate Overlapping(a: Address, b: Address)
  {
    Ranged(a) && Ranged(b) && a.universe == b.universe && a.start <= EndOf(b) && b.start <= EndOf(a)
  }

  /** Fixtures first and second share the channels from lo to hi; hi is reported in 16 bits. */
  datatype Overlap = Overlap(first: nat, second: nat, universe: uint16, lo: uint16, hi: uint16)

  function Max(a: int, b: int): int { if a > b then a else b }

  function Min(a: int, b: int): int { if a < b then a else b }

  function Reported(i: nat, j: nat, a: Address, b: Address): Overlap
  {
    Overlap(i, j, a.universe, Max(a.start, b.start), Min(EndOf(a), EndOf(b)) % 0x1_0000)
  }

  predicate OverlapAt(patch: seq<Address>, i: int, j: int)
  {
    0 <= i < j < |patch| && Overlapping(patch[i], patch[j])
  }

  /** found reports the pairs, each once. */
  ghost predicate Reports(found: seq<Overlap>, patch: seq<Address>, pairs: set<(nat, nat)>)
  {
    (forall n :: 0 <= n < |found| ==> IsReport(found[n], patch) && (found[n].first, found[n].second) in pairs) &&
    (forall p :: p in pairs ==> exists n :: 0 <= n < |found| && (found[n].first, found[n].second) == p) &&
    forall n, k :: 0 <= n < k < |found| ==> (found[n].first, found[n].second) != (found[k].first, found[k].second)
  }

  ghost predicate IsReport(f: Overlap, patch: seq<Address>)
  {
    OverlapAt(patch, f.first, f.second) && f == Reported(f.first, f.second, patch[f.first], patch[f.second])
  }

  lemma OneMore(found: seq<Overlap>, patch: seq<Address>, pairs: set<(nat, nat)>, f: Overlap)
    requires Reports(found, patch, pairs) && IsReport(f, patch) && (f.first, f.second) !in pairs
    ensures Reports(found + [f], patch, pairs + {(f.first, f.second)})
  {
    hide IsReport;
    var now := found + [f];
    forall p | p in pairs + {(f.first, f.second)} ensures exists n :: 0 <= n < |now| && (now[n].first, now[n].second) == p {
      if p in pairs {
        var n :| 0 <= n < |found| && (found[n].first, found[n].second) == p;
        assert now[n] == found[n];
      } else {
        assert now[|found|] == f;
      }
    }
  }

  /** The fixtures of universe u that have a range, in patch order. */
  ghost predicate Lists(ranges: seq<nat>, patch: seq<Address>, n: nat, u: uint16)
    requires n <= |patch|
  {
    (forall x, y :: 0 <= x < y < |ranges| ==> ranges[x] < ranges[y]) && (forall i :: i in ranges ==> i < n) &&
    forall i :: 0 <= i < n ==> (i in ranges <==> Ranged(patch[i]) && patch[i].universe == u)
  }

  function ListOne(ranges: seq<nat>, patch: seq<Address>, n: nat, u: uint16): seq<nat>
    requires n < |patch|
  {
    if Ranged(patch[n]) && patch[n].universe == u then ranges + [n] else ranges
  }

  lemma ListGrows(ranges: seq<nat>, patch: seq<Address>, n: nat, u: uint16)
    requires n < |patch|
    ensures Lists(ranges, patch, n, u) ==> Lists(ListOne(ranges, patch, n, u), patch, n + 1, u)
  {
    if Lists(ranges, patch, n, u) {
      var next := ListOne(ranges, patch, n, u);
      assert forall x :: 0 <= x < |ranges| ==> ranges[x] in ranges;
      forall i | 0 <= i < n + 1 ensures i in next <==> Ranged(patch[i]) && patch[i].universe == u {
        assert i in next <==> i in ranges || (i == n && Ranged(patch[n]) && patch[n].universe == u);
      }
    }
  }

  function ListOf(lists: map<uint16, seq<nat>>, u: uint16): seq<nat>
  {
    if u in lists then lists[u] else []
  }

  method ByUniverse(patch: seq<Address>) returns (lists: map<uint16, seq<nat>>)
    ensures forall u :: Lists(ListOf(lists, u), patch, |patch|, u)
  {
    lists := map[];
    for i := 0 to |patch|
      invariant forall u :: Lists(ListOf(lists, u), patch, i, u)
    {
      ghost var was := lists;
      if Ranged(patch[i]) {
        var u := patch[i].universe;
        lists := lists[u := (if u in lists then lists[u] else []) + [i]];
      }
      hide Lists, Ranged;
      forall u ensures Lists(ListOf(lists, u), patch, i + 1, u) {
        ListGrows(ListOf(was, u), patch, i, u);
      }
    }
  }

  /** Reports every pair of ranges that meet, i before j. */
  method PairUp(patch: seq<Address>, ranges: seq<nat>, u: uint16, was: seq<Overlap>, ghost pairs: set<(nat, nat)>)
    returns (found: seq<Overlap>, ghost now: set<(nat, nat)>)
    requires Lists(ranges, patch, |patch|, u) && Reports(was, patch, pairs)
    requires forall i, j :: (i, j) in pairs ==> i !in ranges
    ensures Reports(found, patch, now)
    ensures forall i, j :: (i, j) in now <==> (i, j) in pairs || (i in ranges && j in ranges && OverlapAt(patch, i, j))
  {
    found, now := was, pairs;
    for x := 0 to |ranges|
      invariant Reports(found, patch, now)
      invariant forall i, j :: (i, j) in now <==> (i, j) in pairs || (i in ranges[..x] && j in ranges && OverlapAt(patch, i, j))
    {
      hide Reports, Overlapping;
      ghost var before := now;
      for y := x + 1 to |ranges|
        invariant Reports(found, patch, now)
        invariant forall i, j :: (i, j) in now <==> (i, j) in before || (i == ranges[x] && j in ranges[x + 1..y] && OverlapAt(patch, i, j))
      {
        assert ranges[x] in ranges && ranges[y] in ranges;
        var a, b := patch[ranges[x]], patch[ranges[y]];
        if a.start <= EndOf(b) && b.start <= EndOf(a) {
          var f := Reported(ranges[x], ranges[y], a, b);
          OneMore(found, patch, now, f);
          found, now := found + [f], now + {(ranges[x], ranges[y])};
        }
      }
    }
  }

  /** The overlaps of a patch. The universes come in any order, so of several with overlaps either may be
      reported first. */
  method DetectOverlaps(patch: seq<Address>) returns (found: seq<Overlap>)
    ensures forall n :: 0 <= n < |found| ==> IsReport(found[n], patch)
    ensures forall i, j :: 0 <= i < j < |patch| && Overlapping(patch[i], patch[j]) ==> exists n :: 0 <= n < |found| && found[n].first == i && found[n].second == j
    ensures forall n, k :: 0 <= n < k < |found| ==> (found[n].first, found[n].second) != (found[k].first, found[k].second)
  {
    var lists := ByUniverse(patch);
    var rest := lists.Keys;
    found := [];
    ghost var pairs: set<(nat, nat)> := {};
    forall i, j | OverlapAt(patch, i, j) ensures patch[i].universe in rest {
      assert i in ListOf(lists, patch[i].universe);
    }
    while rest != {}
      invariant rest <= lists.Keys && Reports(found, patch, pairs)
      invariant forall i, j :: (i, j) in pairs <==> OverlapAt(patch, i, j) && patch[i].universe !in rest
    {
      hide Reports;
      var u :| u in rest;
      rest := rest - {u};
      assert lists[u] == ListOf(lists, u);
      found, pairs := PairUp(patch, lists[u], u, found, pairs);
    }
    AllReported(found, patch, pairs);
    forall i, j | 0 <= i < j < |patch| && Overlapping(patch[i], patch[j]) ensures exists n :: 0 <= n < |found| && found[n].first == i && found[n].second == j {
      assert OverlapAt(patch, i, j);
    }
  }

  lemma AllReported(found: seq<Overlap>, patch: seq<Address>, pairs: set<(nat, nat)>)
    requires Reports(found, patch, pairs) && forall i, j :: (i, j) in pairs <==> OverlapAt(patch, i, j)
    ensures forall n :: 0 <= n < |found| ==> IsReport(found[n], patch)
    ensures forall i, j :: OverlapAt(patch, i, j) ==> exists n :: 0 <= n < |found| && found[n].first == i && found[n].second == j
    ensures forall n, k :: 0 <= n < k < |found| ==> (found[n].first, found[n].second) != (found[k].first, found[k].second)
  {
    hide IsReport, OverlapAt;
    forall i, j | OverlapAt(patch, i, j) ensures exists n :: 0 <= n < |found| && found[n].first == i && found[n].second == j {
      assert (i, j) in pairs;
      var n :| 0 <= n < |found| && (found[n].first, found[n].second) == (i, j);
    }
  }

  // ---------------------------------------------------------------- what an overlap means

  /** Some slot belongs to both. */
  ghost predicate ShareSlot(a: Address, b: Address)
  {
    exists o, o' :: Addressable(a, o) && Addressable(b, o') && SlotOf(a, o) == SlotOf(b, o')
  }

  /** The check reports two fixtures exactly when one slot would carry bytes of both: ranges that run past
      the universe, invalid addresses and empty footprints make no difference. */
  lemma OverlapIsShared(a: Address, b: Address)
    ensures Overlapping(a, b) <==> ShareSlot(a, b)
  {
    if Overlapping(a, b) {
      var c := Max(a.start, b.start);
      var o: uint16, o': uint16 := c - a.start + 1, c - b.start + 1;
      assert Addressable(a, o) && Addressable(b, o') && SlotOf(a, o) == SlotOf(b, o');
    }
  }

  /** c is a channel of the range a starts at. */
  predicate InRange(a: Address, c: int)
  {
    a.start <= c < a.start + a.footprint
  }

  /** What a report says: an earlier and a later fixture of one universe, and the channels both have, from the
      first to the last; the last of them in 16 bits. */
  lemma ReportShares(f: Overlap, patch: seq<Address>) returns (end: int)
    requires IsReport(f, patch)
    ensures f.first < f.second < |patch| && f.universe == patch[f.first].universe == patch[f.second].universe
    ensures f.lo <= end && f.hi == end % 0x1_0000
    ensures forall c :: f.lo <= c <= end <==> InRange(patch[f.first], c) && InRange(patch[f.second], c)
  {
    end := Min(EndOf(patch[f.first]), EndOf(patch[f.second]));
  }

  // ---------------------------------------------------------------- a patch without overlaps

  /** The check finds no overlap among these fixtures. */
  ghost predicate NoOverlaps(patch: map<string, Address>)
  {
    forall e, f :: e in patch && f in patch && e != f ==> !Overlapping(patch[e], patch[f])
  }

  /** Channels of one fixture share no byte, and no channel has one twice. */
  ghost predicate BytesApart(chans: seq<Assigned>)
  {
    (forall j, j', o :: 0 <= j < |chans| && 0 <= j' < |chans| && j != j' && chans[j].entry == chans[j'].entry && o in chans[j].p.offsets ==>
       o !in chans[j'].p.offsets) &&
    forall j :: 0 <= j < |chans| ==> NoRepeat(chans[j].p.offsets)
  }

  /** Then every byte on the wire has a slot of its own. */
  lemma PatchedApart(chans: seq<Assigned>, patch: map<string, Address>)
    requires NoOverlaps(patch) && BytesApart(chans)
    ensures SlotsApart(chans, patch)
  {
    hide Overlapping;
    forall j, i, j', i', s | Writes(chans, patch, j, i, s) && Writes(chans, patch, j', i', s) ensures j == j' && i == i' {
      var o, o' := chans[j].p.offsets[i], chans[j'].p.offsets[i'];
      if chans[j].entry != chans[j'].entry {
        OverlapIsShared(patch[chans[j].entry], patch[chans[j'].entry]);
        assert SlotOf(patch[chans[j].entry], o) == SlotOf(patch[chans[j'].entry], o');
      } else {
        SameOffset(patch[chans[j].entry], o, o');
        assert o in chans[j].p.offsets && o' in chans[j'].p.offsets;
      }
    }
  }

  lemma SameOffset(a: Address, o: uint16, o': uint16)
    requires SlotOf(a, o) == SlotOf(a, o')
    ensures o == o'
  {}
}
