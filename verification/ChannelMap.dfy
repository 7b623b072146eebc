/** The channel map of a patch entry and the way its DMX offsets are shared out among parameters:
    a full-detail channel takes its coarse byte and the nearest matching finer bytes, an offset
    known only by its first function falls back to a channel of its own (or of its stated width),
    and whatever is left inside the footprint is raw. */
module ChannelMap {
  import opened Prelude

  datatype Source = GDTF | RDMInferred | Absent

  datatype ChannelFunction = ChannelFunction(
    instance: string,
    source: Source,
    attribute: string,
    hasDefault: bool,
    defaultByteCount: uint16,
    functionsKnown: bool,
    byteCount: int,
    byteIndex: int)

  type ChannelMap = map<uint16, ChannelFunction>

  datatype Detail = Full | FirstFunction | AttributeOnly | VirtualDetail

  /** One controllable channel. A virtual dimmer scales the colour channels virtualOf, the software
      master multiplies the channels masterOf; neither has DMX bytes of its own. */
  datatype Parameter = Parameter(
    offset: uint16,
    offsets: seq<uint16>,
    byteCount: nat,
    max: uint32,
    attribute: string,
    instance: string,
    cell: string,
    source: Source,
    detail: Detail,
    virtual: bool,
    virtualOf: seq<uint16>,
    master: bool,
    masterOf: seq<uint16>,
    inner: bool)

  function Distance(a: uint16, b: uint16): nat
  {
    if a > b then a - b else b - a
  }

  ghost predicate Ascending(s: seq<uint16>)
  {
    forall i, j :: 0 <= i < j < |s| ==> s[i] < s[j]
  }

  /** offsets lists the keys of cfs in ascending order. */
  ghost predicate ListsKeys(offsets: seq<uint16>, cfs: ChannelMap)
  {
    Ascending(offsets) && forall o :: o in offsets <==> o in cfs
  }

  method SortedOffsets(cfs: ChannelMap) returns (offsets: seq<uint16>)
    ensures ListsKeys(offsets, cfs)
  {
    offsets := [];
    var o: nat := 0;
    while o < 0x1_0000
      invariant o <= 0x1_0000
      invariant Ascending(offsets)
      invariant forall j :: 0 <= j < |offsets| ==> offsets[j] < o
      invariant forall x :: x in offsets <==> x in cfs && x < o
    {
      if o in cfs {
        offsets := offsets + [o];
      }
      o := o + 1;
    }
  }

  // ---------------------------------------------------------------- full-detail channels

  /** cf is the coarse byte of a channel with full detail. */
  predicate IsCoarse(cf: ChannelFunction)
  {
    cf.functionsKnown && cf.byteCount >= 1 && cf.byteIndex == 0 && cf.source != Absent
  }

  /** o may serve as byte k of the channel whose coarse offset is off. */
  ghost predicate Candidate(cfs: ChannelMap, claimed: set<uint16>, off: uint16, k: int, o: uint16)
    requires off in cfs
  {
    o in cfs && o !in claimed && o != off && cfs[o].functionsKnown && cfs[o].byteIndex == k &&
    cfs[o].byteCount == cfs[off].byteCount && cfs[o].instance == cfs[off].instance &&
    cfs[o].attribute == cfs[off].attribute
  }

  ghost predicate NoCandidate(cfs: ChannelMap, claimed: set<uint16>, off: uint16, k: int)
    requires off in cfs
  {
    forall o: uint16 :: !Candidate(cfs, claimed, off, k, o)
  }

  /** The unclaimed byte k nearest to off, the lower of two equally near. */
  method NearestByte(cfs: ChannelMap, offsets: seq<uint16>, claimed: set<uint16>, off: uint16, k: int)
    returns (best: Option<uint16>)
    requires ListsKeys(offsets, cfs) && off in cfs
    ensures best.None? <==> NoCandidate(cfs, claimed, off, k)
    ensures best.Some? ==> Candidate(cfs, claimed, off, k, best.value)
    ensures best.Some? ==> forall o :: Candidate(cfs, claimed, off, k, o) ==>
              Distance(best.value, off) < Distance(o, off) || (Distance(best.value, off) == Distance(o, off) && best.value <= o)
  {
    best := None;
    for i := 0 to |offsets|
      invariant best.None? ==> forall j :: 0 <= j < i ==> !Candidate(cfs, claimed, off, k, offsets[j])
      invariant best.Some? ==> Candidate(cfs, claimed, off, k, best.value) && best.value in offsets[..i]
      invariant best.Some? ==> forall j :: 0 <= j < i && Candidate(cfs, claimed, off, k, offsets[j]) ==>
                  Distance(best.value, off) < Distance(offsets[j], off) ||
                  (Distance(best.value, off) == Distance(offsets[j], off) && best.value <= offsets[j])
    {
      var o := offsets[i];
      var c := cfs[o];
      if o in claimed || o == off || !c.functionsKnown || c.byteIndex != k || c.byteCount != cfs[off].byteCount ||
         c.instance != cfs[off].instance || c.attribute != cfs[off].attribute {
        continue;
      }
      if best.None? || Distance(o, off) < Distance(best.value, off) {
        best := Some(o);
      }
    }
    forall o | Candidate(cfs, claimed, off, k, o)
      ensures exists j :: 0 <= j < |offsets| && offsets[j] == o
    {
      assert o in offsets;
    }
  }

  /** Of those that could be byte k of the channel at off, b is the nearest, the lower of two equally near. */
  ghost predicate Nearest(cfs: ChannelMap, claimed: set<uint16>, off: uint16, k: int, b: uint16)
    requires off in cfs
  {
    forall o :: Candidate(cfs, claimed, off, k, o) ==> !Closer(off, o, b)
  }

  /** o is nearer to off than b is, or as near and below it. */
  predicate Closer(off: uint16, o: uint16, b: uint16)
  {
    var away, further := if o < off then off - o else o - off, if b < off then off - b else b - off;
    away < further || (away == further && o < b)
  }

  /** p is a full-detail channel of cfs: its k-th offset is its k-th byte, coarse first. */
  ghost predicate IsFullParameter(cfs: ChannelMap, p: Parameter)
  {
    |p.offsets| == p.byteCount >= 1 && p.offset == p.offsets[0] && p.detail == Full && !p.virtual && !p.master && !p.inner &&
    p.max == MaxForBytes(p.byteCount) && p.offset in cfs && IsCoarse(cfs[p.offset]) &&
    p.attribute == cfs[p.offset].attribute && p.instance == cfs[p.offset].instance && p.source == cfs[p.offset].source && p.cell == "" &&
    forall k :: 0 <= k < |p.offsets| ==>
      p.offsets[k] in cfs && cfs[p.offsets[k]].functionsKnown && cfs[p.offsets[k]].byteIndex == k &&
      cfs[p.offsets[k]].byteCount == p.byteCount && cfs[p.offsets[k]].instance == p.instance &&
      cfs[p.offsets[k]].attribute == p.attribute
  }

  function NewParameter(offsets: seq<uint16>, cf: ChannelFunction, detail: Detail): Parameter
    requires |offsets| > 0
  {
    Parameter(offsets[0], offsets, |offsets|, MaxForBytes(|offsets|), cf.attribute, cf.instance, "", cf.source, detail,
              false, [], false, [], false)
  }

  /** o is a byte of one of ps. */
  ghost predicate IsByteOf(ps: seq<Parameter>, o: uint16)
  {
    exists i :: 0 <= i < |ps| && o in ps[i].offsets
  }

  /** No two of ps share a byte, and no one of them lists a byte twice. */
  ghost predicate BytesDisjoint(ps: seq<Parameter>)
  {
    (forall i, j, o :: 0 <= i < j < |ps| && o in ps[i].offsets ==> o !in ps[j].offsets) &&
    forall i :: 0 <= i < |ps| ==> NoRepeat(ps[i].offsets)
  }

  ghost predicate NoRepeat(s: seq<uint16>)
  {
    forall i, j :: 0 <= i < j < |s| ==> s[i] != s[j]
  }

  function Elems(s: seq<uint16>): set<uint16>
  {
    set o | o in s
  }

  ghost predicate Claims(ps: seq<Parameter>, claimed: set<uint16>)
  {
    forall o :: IsByteOf(ps, o) <==> o in claimed
  }

  /** Byte k of the channel at off has run out: every offset that could serve is another channel's. */
  ghost predicate Stuck(cfs: ChannelMap, claimed: set<uint16>, off: uint16)
    requires off in cfs
  {
    exists k :: 1 <= k < cfs[off].byteCount && NoCandidate(cfs, claimed, off, k)
  }

  lemma StuckGrows(cfs: ChannelMap, claimed: set<uint16>, more: set<uint16>, off: uint16)
    requires off in cfs && Stuck(cfs, claimed, off) && claimed <= more
    ensures Stuck(cfs, more, off)
  {
    var k :| 1 <= k < cfs[off].byteCount && NoCandidate(cfs, claimed, off, k);
    assert forall o :: Candidate(cfs, more, off, k, o) ==> Candidate(cfs, claimed, off, k, o);
    assert NoCandidate(cfs, more, off, k);
  }

  lemma NothingClaimed()
    ensures Claims([], {}) && BytesDisjoint([])
  {}

  lemma AppendParameter(ps: seq<Parameter>, claimed: set<uint16>, p: Parameter)
    requires Claims(ps, claimed) && BytesDisjoint(ps) && NoRepeat(p.offsets)
    requires forall o :: o in p.offsets ==> o !in claimed
    ensures Claims(ps + [p], claimed + Elems(p.offsets))
    ensures BytesDisjoint(ps + [p])
  {
    var qs := ps + [p];
    forall o ensures IsByteOf(qs, o) <==> o in claimed + Elems(p.offsets) {
      if IsByteOf(ps, o) {
        var i :| 0 <= i < |ps| && o in ps[i].offsets;
        assert o in qs[i].offsets;
      }
      if o in p.offsets {
        assert o in qs[|ps|].offsets;
      }
      if IsByteOf(qs, o) {
        var i :| 0 <= i < |qs| && o in qs[i].offsets;
        if i < |ps| {
          assert o in ps[i].offsets;
        }
      }
    }
    forall i, j, o | 0 <= i < j < |qs| && o in qs[i].offsets ensures o !in qs[j].offsets {
      if j == |ps| {
        assert o in ps[i].offsets;
        assert IsByteOf(ps, o);
      }
    }
  }

  /** The bytes taken for other places of the channel are no candidates for byte k. */
  lemma NearestStays(cfs: ChannelMap, claimed: set<uint16>, claimed': set<uint16>, off: uint16, k: nat, b: uint16, offs: seq<uint16>)
    requires off in cfs && |offs| == k >= 1 && claimed' == claimed + Elems(offs[1..])
    requires forall j :: 1 <= j < k ==> Candidate(cfs, claimed, off, j, offs[j])
    requires forall o :: Candidate(cfs, claimed', off, k, o) ==> Distance(b, off) < Distance(o, off) || (Distance(b, off) == Distance(o, off) && b <= o)
    ensures Nearest(cfs, claimed, off, k, b)
  {
    forall o | Candidate(cfs, claimed, off, k, o) ensures !Closer(off, o, b) {
      assert Candidate(cfs, claimed', off, k, o);
    }
  }

  /** Collects the bytes of the channel at off. When one is missing the bytes taken so far are given
      back: claimed is what it was. */
  method CollectBytes(cfs: ChannelMap, offsets: seq<uint16>, claimed: set<uint16>, off: uint16)
    returns (offs: seq<uint16>, complete: bool, claimed': set<uint16>)
    requires ListsKeys(offsets, cfs) && off in cfs && IsCoarse(cfs[off]) && off !in claimed
    ensures |offs| >= 1 && offs[0] == off && NoRepeat(offs)
    ensures forall k :: 1 <= k < |offs| ==> Candidate(cfs, claimed, off, k, offs[k]) && Nearest(cfs, claimed, off, k, offs[k])
    ensures complete ==> |offs| == cfs[off].byteCount && claimed' == claimed + Elems(offs[1..])
    ensures !complete ==> claimed' == claimed && Stuck(cfs, claimed, off)
  {
    offs, complete, claimed' := [off], true, claimed;
    var k := 1;
    while k < cfs[off].byteCount
      invariant 1 <= k <= cfs[off].byteCount && |offs| == k && offs[0] == off && complete
      invariant forall j :: 1 <= j < k ==> Candidate(cfs, claimed, off, j, offs[j]) && Nearest(cfs, claimed, off, j, offs[j])
      invariant claimed' == claimed + Elems(offs[1..])
    {
      var best := NearestByte(cfs, offsets, claimed', off, k);
      if best.None? {
        complete := false;
        break;
      }
      ghost var before := offs;
      assert Nearest(cfs, claimed, off, k, best.value) by {
        NearestStays(cfs, claimed, claimed', off, k, best.value, offs);
      }
      offs := offs + [best.value];
      assert offs[1..] == before[1..] + [best.value];
      claimed' := claimed' + {best.value};
      k := k + 1;
    }
    if !complete {
      ghost var tried := claimed';
      claimed' := claimed' - Elems(offs[1..]);
      assert claimed' == claimed by {
        forall o | o in offs[1..] ensures o !in claimed {
          var j :| 1 <= j < |offs| && offs[j] == o;
        }
      }
      assert NoCandidate(cfs, claimed, off, k) by {
        forall o | o in tried && o !in claimed ensures !Candidate(cfs, claimed, off, k, o) {
          var j :| 1 <= j < |offs| && offs[j] == o;
        }
        forall o ensures !Candidate(cfs, claimed, off, k, o) {
          assert !Candidate(cfs, tried, off, k, o);
        }
      }
    }
    forall i, j | 0 <= i < j < |offs| ensures offs[i] != offs[j] {
      assert Candidate(cfs, claimed, off, j, offs[j]);
      if i > 0 {
        assert Candidate(cfs, claimed, off, i, offs[i]);
      }
    }
  }

  /** The bytes collected for one channel make a full-detail parameter that shares none of its bytes. */
  lemma NewFullParameter(cfs: ChannelMap, claimed: set<uint16>, p: Parameter, ps: seq<Parameter>)
    requires |p.offsets| >= 1 && p.offsets[0] in cfs && IsCoarse(cfs[p.offsets[0]]) && p.offsets[0] !in claimed
    requires p == NewParameter(p.offsets, cfs[p.offsets[0]], Full) && NoRepeat(p.offsets)
    requires forall k :: 1 <= k < |p.offsets| ==> Candidate(cfs, claimed, p.offsets[0], k, p.offsets[k])
    requires |p.offsets| == cfs[p.offsets[0]].byteCount
    requires Claims(ps, claimed) && BytesDisjoint(ps)
    ensures IsFullParameter(cfs, p)
    ensures Claims(ps + [p], claimed + Elems(p.offsets)) && BytesDisjoint(ps + [p])
    ensures forall o :: o in p.offsets && cfs[o].byteIndex == 0 ==> o == p.offsets[0]
  {
    forall o | o in p.offsets ensures o !in claimed {
      var k :| 0 <= k < |p.offsets| && p.offsets[k] == o;
      assert k > 0 ==> Candidate(cfs, claimed, p.offsets[0], k, p.offsets[k]);
    }
    AppendParameter(ps, claimed, p);
  }

  /** Every finer byte of p is the nearest there was, those in taken apart. */
  ghost predicate TakesNearest(cfs: ChannelMap, taken: set<uint16>, p: Parameter)
  {
    p.offset in cfs && forall k :: 1 <= k < |p.offsets| ==> Nearest(cfs, taken, p.offset, k, p.offsets[k])
  }

  /** The channels come in the order of their coarse bytes, and each takes the nearest bytes those before left. */
  ghost predicate InTurn(cfs: ChannelMap, ps: seq<Parameter>)
  {
    (forall i, j :: 0 <= i < j < |ps| ==> ps[i].offset < ps[j].offset) && forall j :: 0 <= j < |ps| ==> TakesNearest(cfs, ByteSet(ps[..j]), ps[j])
  }

  lemma NextInTurn(cfs: ChannelMap, ps: seq<Parameter>, claimed: set<uint16>, p: Parameter)
    requires InTurn(cfs, ps) && Claims(ps, claimed) && TakesNearest(cfs, claimed, p) && forall i :: 0 <= i < |ps| ==> ps[i].offset < p.offset
    ensures InTurn(cfs, ps + [p])
  {
    var qs := ps + [p];
    assert ByteSet(ps) == claimed;
    hide TakesNearest;
    forall j | 0 <= j < |qs| ensures TakesNearest(cfs, ByteSet(qs[..j]), qs[j]) {
      assert qs[..j] == ps[..j];
      assert j == |ps| ==> qs[..j] == ps;
    }
  }

  lemma NoneInTurn(cfs: ChannelMap)
    ensures InTurn(cfs, [])
  {}

  /** One parameter per coarse byte whose finer bytes are all there. Nothing that could be built is
      left out: a coarse byte without a parameter lacks a byte that no other channel spares. */
  method ClaimFullChannels(cfs: ChannelMap, offsets: seq<uint16>) returns (ps: seq<Parameter>, claimed: set<uint16>)
    requires ListsKeys(offsets, cfs)
    ensures Claims(ps, claimed) && BytesDisjoint(ps)
    ensures forall i :: 0 <= i < |ps| ==> IsFullParameter(cfs, ps[i])
    ensures InTurn(cfs, ps)
    ensures forall off :: off in cfs && IsCoarse(cfs[off]) ==> off in claimed || Stuck(cfs, claimed, off)
  {
    ps, claimed := [], {};
    hide Claims, BytesDisjoint, IsFullParameter, Stuck, InTurn;
    NothingClaimed();
    NoneInTurn(cfs);
    for i := 0 to |offsets|
      invariant Claims(ps, claimed) && BytesDisjoint(ps)
      invariant forall j :: 0 <= j < |ps| ==> IsFullParameter(cfs, ps[j])
      invariant InTurn(cfs, ps) && forall j :: 0 <= j < |ps| ==> ps[j].offset in offsets[..i]
      invariant forall o :: o in claimed && o in cfs && cfs[o].byteIndex == 0 ==> o in offsets[..i]
      invariant forall j :: 0 <= j < i && IsCoarse(cfs[offsets[j]]) ==> offsets[j] in claimed || Stuck(cfs, claimed, offsets[j])
    {
      var off := offsets[i];
      if !IsCoarse(cfs[off]) {
        continue;
      }
      assert off !in offsets[..i];
      var offs, complete, claimed' := CollectBytes(cfs, offsets, claimed, off);
      if !complete {
        continue;
      }
      var p := NewParameter(offs, cfs[off], Full);
      NewFullParameter(cfs, claimed, p, ps);
      NextInTurn(cfs, ps, claimed, p);
      assert claimed' + {off} == claimed + Elems(p.offsets) by {
        assert offs == [off] + offs[1..];
      }
      forall j | 0 <= j < i && IsCoarse(cfs[offsets[j]]) && offsets[j] !in claimed
        ensures Stuck(cfs, claimed' + {off}, offsets[j])
      {
        StuckGrows(cfs, claimed, claimed' + {off}, offsets[j]);
      }
      ps, claimed := ps + [p], claimed' + {off};
    }
    forall off | off in cfs && IsCoarse(cfs[off]) ensures off in claimed || Stuck(cfs, claimed, off) {
      assert off in offsets;
    }
  }

  // ---------------------------------------------------------------- channels without full detail

  datatype FallbackKey = FallbackKey(instance: string, attribute: string, source: Source)

  function KeyOf(cf: ChannelFunction): FallbackKey
  {
    FallbackKey(cf.instance, cf.attribute, cf.source)
  }

  predicate NeedsFallback(cfs: ChannelMap, claimed: set<uint16>, o: uint16)
  {
    o in cfs && o !in claimed && cfs[o].source != Absent && !(cfs[o].functionsKnown && cfs[o].byteCount >= 1)
  }

  /** How many bytes each channel of a group of count offsets takes: its stated width when that
      divides the group, else one. */
  function Width(first: ChannelFunction, count: nat): (n: nat)
    ensures n >= 1 && IsMultiple(count, n)
  {
    if first.hasDefault && first.defaultByteCount >= 2 && count % first.defaultByteCount == 0
    then first.defaultByteCount
    else 1
  }

  /** p is a channel known only by its first function: its bytes carry one instance, attribute and
      source, none of them with full detail. */
  ghost predicate IsFallbackParameter(cfs: ChannelMap, p: Parameter)
  {
    |p.offsets| == p.byteCount >= 1 && p.offset == p.offsets[0] && p.detail != Full && !p.virtual && !p.master && !p.inner &&
    p.max == MaxForBytes(p.byteCount) && Ascending(p.offsets) &&
    forall k :: 0 <= k < |p.offsets| ==>
      NeedsFallback(cfs, {}, p.offsets[k]) &&
      KeyOf(cfs[p.offsets[k]]) == FallbackKey(p.instance, p.attribute, p.source)
  }

  /** How many bytes a channel of a group of count offsets takes, told by what the first of them says: its
      stated width, if that is two or more and divides the group, or else one. */
  predicate TakesWidth(first: ChannelFunction, count: nat, n: nat)
  {
    if first.hasDefault && first.defaultByteCount >= 2 && count % first.defaultByteCount == 0 then n == first.defaultByteCount else n == 1
  }

  /** p is a run of the group, as wide as the group's first offset says. What is known of a channel seen over RDM
      is its attribute, of any other its first function. */
  ghost predicate PieceOf(cfs: ChannelMap, group: seq<uint16>, p: Parameter)
  {
    |group| >= 1 && group[0] in cfs && TakesWidth(cfs[group[0]], |group|, p.byteCount) &&
    p.detail == (if p.source == RDMInferred then AttributeOnly else FirstFunction) &&
    exists i :: SpansFrom(group, i, p)
  }

  /** The bytes of p are the group's from the i-th on. */
  predicate SpansFrom(group: seq<uint16>, i: int, p: Parameter)
  {
    0 <= i && i + p.byteCount <= |group| && p.offsets == group[i..i + p.byteCount]
  }

  /** group lists, ascending, offsets that need the fallback and agree on k. */
  ghost predicate IsGroup(cfs: ChannelMap, claimed: set<uint16>, k: FallbackKey, group: seq<uint16>)
  {
    |group| >= 1 && Ascending(group) &&
    forall i :: 0 <= i < |group| ==> NeedsFallback(cfs, claimed, group[i]) && KeyOf(cfs[group[i]]) == k
  }

  ghost predicate Grouped(cfs: ChannelMap, claimed: set<uint16>, groups: map<FallbackKey, seq<uint16>>)
  {
    forall k :: k in groups ==> IsGroup(cfs, claimed, k, groups[k])
  }

  /** order and groups say, key by key, which of seen need the fallback. */
  ghost predicate GatheredOf(cfs: ChannelMap, claimed: set<uint16>, seen: seq<uint16>, order: seq<FallbackKey>, groups: map<FallbackKey, seq<uint16>>)
  {
    (forall i, j :: 0 <= i < j < |order| ==> order[i] != order[j]) && (forall k :: k in order <==> k in groups) &&
    Grouped(cfs, claimed, groups) && (forall k, o :: k in groups && o in groups[k] ==> o in seen) &&
    forall o :: o in seen && NeedsFallback(cfs, claimed, o) ==> KeyOf(cfs[o]) in groups && o in groups[KeyOf(cfs[o])]
  }

  lemma GatherOne(cfs: ChannelMap, claimed: set<uint16>, seen: seq<uint16>, off: uint16, order: seq<FallbackKey>, groups: map<FallbackKey, seq<uint16>>)
    requires GatheredOf(cfs, claimed, seen, order, groups) && NeedsFallback(cfs, claimed, off) && forall o :: o in seen ==> o < off
    ensures var k := KeyOf(cfs[off]);
            GatheredOf(cfs, claimed, seen + [off], if k in groups then order else order + [k],
                       groups[k := (if k in groups then groups[k] else []) + [off]])
  {
    var k := KeyOf(cfs[off]);
    var sofar := if k in groups then groups[k] else [];
    if k in groups {
      assert IsGroup(cfs, claimed, k, groups[k]);
      assert forall o :: o in groups[k] ==> o in seen;
    }
    GroupOne(cfs, claimed, k, sofar, off);
    hide NeedsFallback, IsGroup, KeyOf, Grouped;
    assert k !in groups ==> forall x :: x in order + [k] <==> x in order || x == k;
    assert forall o :: o in sofar + [off] <==> o in sofar || o == off;
  }

  lemma GroupOne(cfs: ChannelMap, claimed: set<uint16>, k: FallbackKey, sofar: seq<uint16>, off: uint16)
    requires sofar != [] ==> IsGroup(cfs, claimed, k, sofar)
    requires NeedsFallback(cfs, claimed, off) && KeyOf(cfs[off]) == k && forall o :: o in sofar ==> o < off
    ensures IsGroup(cfs, claimed, k, sofar + [off])
  {
    hide NeedsFallback, KeyOf;
    assert forall i :: 0 <= i < |sofar| ==> sofar[i] in sofar;
  }

  /** The offsets that need the fallback, gathered by what their channel function says. */
  method GatherFallbacks(cfs: ChannelMap, offsets: seq<uint16>, claimed: set<uint16>)
    returns (order: seq<FallbackKey>, groups: map<FallbackKey, seq<uint16>>)
    requires ListsKeys(offsets, cfs)
    ensures forall i, j :: 0 <= i < j < |order| ==> order[i] != order[j]
    ensures forall k :: k in order <==> k in groups
    ensures Grouped(cfs, claimed, groups)
    ensures forall o :: NeedsFallback(cfs, claimed, o) ==> KeyOf(cfs[o]) in groups && o in groups[KeyOf(cfs[o])]
  {
    order, groups := [], map[];
    for i := 0 to |offsets|
      invariant GatheredOf(cfs, claimed, offsets[..i], order, groups)
    {
      hide NeedsFallback, GatheredOf;
      var off := offsets[i];
      assert offsets[..i + 1] == offsets[..i] + [off];
      if !NeedsFallback(cfs, claimed, off) {
        continue;
      }
      GatherOne(cfs, claimed, offsets[..i], off, order, groups);
      var k := KeyOf(cfs[off]);
      var sofar := [];
      if k !in groups {
        order := order + [k];
      } else {
        sofar := groups[k];
      }
      groups := groups[k := sofar + [off]];
    }
    assert offsets[..|offsets|] == offsets;
  }

  /** The first i offsets of a group have become channels. */
  ghost predicate GroupClaimed(cfs: ChannelMap, offs: seq<uint16>, i: nat, ps0: seq<Parameter>, claimed0: set<uint16>,
                               ps: seq<Parameter>, claimed: set<uint16>)
    requires i <= |offs|
  {
    Claims(ps, claimed) && BytesDisjoint(ps) && claimed == claimed0 + Elems(offs[..i]) &&
    ps0 <= ps && forall j :: |ps0| <= j < |ps| ==> IsFallbackParameter(cfs, ps[j]) && PieceOf(cfs, offs, ps[j])
  }

  lemma ClaimSlice(cfs: ChannelMap, k: FallbackKey, offs: seq<uint16>, i: nat, n: nat, p: Parameter, ps0: seq<Parameter>,
                   claimed0: set<uint16>, ps: seq<Parameter>, claimed: set<uint16>)
    requires IsGroup(cfs, claimed0, k, offs) && n >= 1 && i + n <= |offs| && offs[i] in cfs
    requires p == NewParameter(offs[i..i + n], cfs[offs[i]], if k.source == RDMInferred then AttributeOnly else FirstFunction)
    requires offs[0] in cfs && TakesWidth(cfs[offs[0]], |offs|, n)
    requires GroupClaimed(cfs, offs, i, ps0, claimed0, ps, claimed)
    ensures GroupClaimed(cfs, offs, i + n, ps0, claimed0, ps + [p], claimed + Elems(p.offsets))
  {
    hide Claims, BytesDisjoint, IsFallbackParameter, IsGroup, NoRepeat, PieceOf, Elems, TakesWidth;
    SliceFresh(cfs, k, offs, i, n, claimed0);
    AppendParameter(ps, claimed, p);
    SliceFits(cfs, k, offs, i, n, p, claimed0);
  }

  lemma SliceFits(cfs: ChannelMap, k: FallbackKey, offs: seq<uint16>, i: nat, n: nat, p: Parameter, claimed0: set<uint16>)
    requires IsGroup(cfs, claimed0, k, offs) && n >= 1 && i + n <= |offs| && offs[i] in cfs && offs[0] in cfs
    requires p == NewParameter(offs[i..i + n], cfs[offs[i]], if k.source == RDMInferred then AttributeOnly else FirstFunction)
    requires TakesWidth(cfs[offs[0]], |offs|, n)
    ensures IsFallbackParameter(cfs, p) && PieceOf(cfs, offs, p)
  {
    assert KeyOf(cfs[offs[i]]) == k;
    assert forall j :: 0 <= j < n ==> p.offsets[j] == offs[i + j];
    assert SpansFrom(offs, i, p);
  }

  /** A run of the group behind what is claimed of it. */
  lemma SliceFresh(cfs: ChannelMap, k: FallbackKey, offs: seq<uint16>, i: nat, n: nat, claimed0: set<uint16>)
    requires IsGroup(cfs, claimed0, k, offs) && i + n <= |offs|
    ensures NoRepeat(offs[i..i + n]) && forall o :: o in offs[i..i + n] ==> o !in claimed0 + Elems(offs[..i])
    ensures Elems(offs[..i + n]) == Elems(offs[..i]) + Elems(offs[i..i + n])
  {
    assert offs[..i + n] == offs[..i] + offs[i..i + n];
  }

  lemma WidthTaken(first: ChannelFunction, count: nat)
    ensures TakesWidth(first, count, Width(first, count))
  {}

  /** One group becomes |offs| / n channels of n bytes each. */
  method ClaimGroup(cfs: ChannelMap, k: FallbackKey, offs: seq<uint16>, ps0: seq<Parameter>, claimed0: set<uint16>)
    returns (ps: seq<Parameter>, claimed: set<uint16>)
    requires IsGroup(cfs, claimed0, k, offs)
    requires Claims(ps0, claimed0) && BytesDisjoint(ps0)
    ensures GroupClaimed(cfs, offs, |offs|, ps0, claimed0, ps, claimed)
  {
    ps, claimed := ps0, claimed0;
    hide Claims, BytesDisjoint, IsMultiple, Width, GroupClaimed, Elems, IsGroup, TakesWidth;
    GroupUntouched(cfs, k, offs, ps0, claimed0);
    var n := Width(cfs[offs[0]], |offs|);
    WidthTaken(cfs[offs[0]], |offs|);
    var i := 0;
    while i < |offs|
      invariant 0 <= i <= |offs| && IsMultiple(|offs| - i, n)
      invariant GroupClaimed(cfs, offs, i, ps0, claimed0, ps, claimed)
    {
      TakeOne(|offs| - i, n);
      InGroup(cfs, claimed0, k, offs, i);
      var detail := if k.source == RDMInferred then AttributeOnly else FirstFunction;
      var p := NewParameter(offs[i..i + n], cfs[offs[i]], detail);
      ClaimSlice(cfs, k, offs, i, n, p, ps0, claimed0, ps, claimed);
      ps, claimed, i := ps + [p], claimed + Elems(p.offsets), i + n;
    }
  }

  lemma InGroup(cfs: ChannelMap, claimed: set<uint16>, k: FallbackKey, offs: seq<uint16>, i: nat)
    requires IsGroup(cfs, claimed, k, offs) && i < |offs|
    ensures offs[i] in cfs
  {}

  lemma GroupUntouched(cfs: ChannelMap, k: FallbackKey, offs: seq<uint16>, ps0: seq<Parameter>, claimed0: set<uint16>)
    requires IsGroup(cfs, claimed0, k, offs) && Claims(ps0, claimed0) && BytesDisjoint(ps0)
    ensures GroupClaimed(cfs, offs, 0, ps0, claimed0, ps0, claimed0)
    ensures |offs| >= 1 && offs[0] in cfs
  {}

  /** group lists, ascending, all the offsets that need the fallback and agree with p. */
  ghost predicate ListsGroup(cfs: ChannelMap, taken: set<uint16>, p: Parameter, group: seq<uint16>)
  {
    Ascending(group) &&
    forall o :: o in group <==> NeedsFallback(cfs, taken, o) && cfs[o].instance == p.instance && cfs[o].attribute == p.attribute && cfs[o].source == p.source
  }

  /** p is a piece of all the offsets that agree with it. */
  ghost predicate FromGroup(cfs: ChannelMap, taken: set<uint16>, p: Parameter)
  {
    exists group :: ListsGroup(cfs, taken, p, group) && PieceOf(cfs, group, p)
  }

  lemma GroupListed(cfs: ChannelMap, taken: set<uint16>, groups: map<FallbackKey, seq<uint16>>, k: FallbackKey, p: Parameter)
    requires Grouped(cfs, taken, groups) && forall o :: NeedsFallback(cfs, taken, o) ==> KeyOf(cfs[o]) in groups && o in groups[KeyOf(cfs[o])]
    requires k in groups && IsFallbackParameter(cfs, p) && PieceOf(cfs, groups[k], p)
    ensures FromGroup(cfs, taken, p)
  {
    var group := groups[k];
    assert IsGroup(cfs, taken, k, group);
    assert p.offsets[0] in group by {
      var i :| SpansFrom(group, i, p);
      assert p.offsets[0] == group[i];
    }
    assert KeyOf(cfs[p.offsets[0]]) == k;
    hide PieceOf;
    assert ListsGroup(cfs, taken, p, group);
  }

  method ClaimFallbacks(cfs: ChannelMap, offsets: seq<uint16>, ps0: seq<Parameter>, claimed0: set<uint16>)
    returns (ps: seq<Parameter>, claimed: set<uint16>)
    requires ListsKeys(offsets, cfs) && Claims(ps0, claimed0) && BytesDisjoint(ps0)
    ensures Claims(ps, claimed) && BytesDisjoint(ps)
    ensures forall o :: o in claimed <==> o in claimed0 || NeedsFallback(cfs, claimed0, o)
    ensures ps0 <= ps && forall i :: |ps0| <= i < |ps| ==> IsFallbackParameter(cfs, ps[i]) && FromGroup(cfs, claimed0, ps[i])
  {
    hide PieceOf, FromGroup, IsFallbackParameter;
    var order, groups := GatherFallbacks(cfs, offsets, claimed0);
    ps, claimed := ps0, claimed0;
    for i := 0 to |order|
      invariant Claims(ps, claimed) && BytesDisjoint(ps)
      invariant forall o :: o in claimed <==> o in claimed0 || (NeedsFallback(cfs, claimed0, o) && KeyOf(cfs[o]) in order[..i])
      invariant ps0 <= ps && forall j :: |ps0| <= j < |ps| ==> IsFallbackParameter(cfs, ps[j]) && FromGroup(cfs, claimed0, ps[j])
    {
      var k := order[i];
      assert k in order && k !in order[..i];
      ghost var was := |ps|;
      ps, claimed := ClaimGroup(cfs, k, groups[k], ps, claimed);
      forall j | was <= j < |ps| ensures FromGroup(cfs, claimed0, ps[j]) {
        GroupListed(cfs, claimed0, groups, k, ps[j]);
      }
      assert groups[k][..|groups[k]|] == groups[k];
      assert order[..i + 1] == order[..i] + [k];
    }
    assert order[..|order|] == order;
  }

  // ---------------------------------------------------------------- the whole map

  /** p belongs before q in the parameter list. */
  function InsertByOffset(ps: seq<Parameter>, p: Parameter): seq<Parameter>
  {
    if ps == [] || p.offset < ps[0].offset then [p] + ps else [ps[0]] + InsertByOffset(ps[1..], p)
  }

  /** A stable sort by coarse offset. */
  function SortByOffset(ps: seq<Parameter>): seq<Parameter>
  {
    if ps == [] then [] else InsertByOffset(SortByOffset(ps[..|ps| - 1]), ps[|ps| - 1])
  }

  ghost predicate SortedByOffset(ps: seq<Parameter>)
  {
    forall i, j :: 0 <= i < j < |ps| ==> ps[i].offset < ps[j].offset
  }

  lemma {:induction false} InsertionPoint(ps: seq<Parameter>, p: Parameter) returns (at: nat)
    ensures at <= |ps| && InsertByOffset(ps, p) == ps[..at] + [p] + ps[at..]
    ensures forall i :: 0 <= i < at ==> ps[i].offset <= p.offset
    ensures at < |ps| ==> p.offset < ps[at].offset
  {
    if ps == [] || p.offset < ps[0].offset {
      at := 0;
      assert [p] + ps == ps[..0] + [p] + ps[0..];
    } else {
      var a := InsertionPoint(ps[1..], p);
      at := a + 1;
      assert ps[..at] == [ps[0]] + ps[1..][..a] && ps[at..] == ps[1..][a..];
      forall i | 0 <= i < at ensures ps[i].offset <= p.offset {
        if i > 0 {
          assert ps[1..][i - 1] == ps[i];
        }
      }
    }
  }

  /** Sorting moves the channels about and loses none: what holds of every channel, and which bytes
      are taken, stays; and distinct coarse offsets come out strictly ascending. */
  lemma {:induction false} SortKeeps(ps: seq<Parameter>)
    requires BytesDisjoint(ps) && forall i :: 0 <= i < |ps| ==> |ps[i].offsets| >= 1 && ps[i].offset == ps[i].offsets[0]
    ensures forall p :: p in SortByOffset(ps) <==> p in ps
    ensures BytesDisjoint(SortByOffset(ps)) && SortedByOffset(SortByOffset(ps)) && |SortByOffset(ps)| == |ps|
  {
    if ps != [] {
      var init, last := ps[..|ps| - 1], ps[|ps| - 1];
      SortKeeps(init);
      var ss := SortByOffset(init);
      assert ps == init + [last];
      forall i | 0 <= i < |ss| ensures Apart(ss[i], last) {
        assert ss[i] in init;
        var a :| 0 <= a < |init| && init[a] == ss[i];
        assert ps[a] == ss[i] && ps[|ps| - 1] == last;
        assert ss[i].offsets[0] in ss[i].offsets && last.offsets[0] in last.offsets;
      }
      InsertKeeps(ss, last);
    }
  }

  ghost predicate Apart(p: Parameter, q: Parameter)
  {
    p.offset != q.offset && forall o :: o in p.offsets ==> o !in q.offsets
  }

  lemma InsertKeeps(ss: seq<Parameter>, last: Parameter)
    requires BytesDisjoint(ss) && SortedByOffset(ss) && NoRepeat(last.offsets)
    requires forall i :: 0 <= i < |ss| ==> Apart(ss[i], last)
    ensures forall p :: p in InsertByOffset(ss, last) <==> p in ss + [last]
    ensures BytesDisjoint(InsertByOffset(ss, last)) && SortedByOffset(InsertByOffset(ss, last))
    ensures |InsertByOffset(ss, last)| == |ss| + 1
  {
    hide BytesDisjoint;
    var at := InsertionPoint(ss, last);
    InsertDisjoint(ss, last, at, InsertByOffset(ss, last));
  }

  lemma InsertDisjoint(ss: seq<Parameter>, last: Parameter, at: nat, rs: seq<Parameter>)
    requires BytesDisjoint(ss) && NoRepeat(last.offsets) && at <= |ss|
    requires forall i :: 0 <= i < |ss| ==> Apart(ss[i], last)
    requires rs == ss[..at] + [last] + ss[at..]
    ensures BytesDisjoint(rs)
  {
    forall i, j, o | 0 <= i < j < |rs| && o in rs[i].offsets ensures o !in rs[j].offsets {
      if j == at {
        assert Apart(ss[i], last);
      } else if i == at {
        assert Apart(ss[j - 1], last);
      } else {
        var a, b := if i < at then i else i - 1, if j < at then j else j - 1;
        assert rs[i] == ss[a] && rs[j] == ss[b];
      }
    }
  }

  /** Every byte some channel of ps has. */
  ghost function ByteSet(ps: seq<Parameter>): set<uint16>
  {
    set o: uint16 | 0 <= o < 0x1_0000 && IsByteOf(ps, o)
  }

  /** raw lists, in order, the offsets of the footprint that no channel has. */
  ghost predicate IsRawList(footprint: uint16, ps: seq<Parameter>, raw: seq<uint16>)
  {
    Ascending(raw) && forall o :: o in raw <==> 1 <= o <= footprint && !IsByteOf(ps, o)
  }

  /** Why an offset of the channel map is a byte of no channel: nothing is known of it, or it is a
      byte of a full-detail channel that is not complete. */
  ghost predicate LeftOut(cfs: ChannelMap, ps: seq<Parameter>, o: uint16)
    requires o in cfs
  {
    cfs[o].source == Absent ||
    (cfs[o].functionsKnown && cfs[o].byteCount >= 1 && (cfs[o].byteIndex != 0 || Stuck(cfs, ByteSet(ps), o)))
  }

  /** The footprint is shared out: no byte twice, none lost, every channel complete with its coarse
      byte first, and no channel missing that the map's bytes could still make up. */
  ghost predicate SharedOut(cfs: ChannelMap, footprint: uint16, ps: seq<Parameter>, raw: seq<uint16>)
  {
    SortedByOffset(ps) && BytesDisjoint(ps) && IsRawList(footprint, ps, raw) &&
    (forall p :: p in ps ==> IsFullParameter(cfs, p) || IsFallbackParameter(cfs, p)) &&
    forall o :: o in cfs && !IsByteOf(ps, o) ==> LeftOut(cfs, ps, o)
  }

  /** The raw offsets: the loop of the original counts in 16 bits and stops when it would wrap. */
  method RawOffsets(footprint: uint16, claimed: set<uint16>) returns (raw: seq<uint16>)
    ensures Ascending(raw) && forall o :: o in raw <==> 1 <= o <= footprint && o !in claimed
  {
    raw := [];
    var off: nat := 1;
    while off <= footprint
      invariant 1 <= off <= footprint + 1
      invariant Ascending(raw)
      invariant forall j :: 0 <= j < |raw| ==> raw[j] < off
      invariant forall o :: o in raw <==> 1 <= o < off && o !in claimed
    {
      if off !in claimed {
        raw := raw + [off];
      }
      off := off + 1;
    }
  }

  /** o is a byte of a full-detail channel of ps whose coarse byte lies below. */
  ghost predicate FullByte(ps: seq<Parameter>, below: int, o: uint16)
  {
    exists q :: q in ps && q.detail == Full && q.offset < below && o in q.offsets
  }

  ghost function FullBytes(ps: seq<Parameter>, below: int): set<uint16>
  {
    set o: uint16 | 0 <= o < 0x1_0000 && FullByte(ps, below, o)
  }

  /** Which bytes the channels have: a full-detail one the nearest that those of lower coarse bytes left; any other
      a run of what those leave that agrees with it, as wide as the first of that says. */
  ghost predicate RightBytes(cfs: ChannelMap, ps: seq<Parameter>)
  {
    forall p :: p in ps ==>
      (p.detail == Full ==> TakesNearest(cfs, FullBytes(ps, p.offset), p)) && (p.detail != Full ==> FromGroup(cfs, FullBytes(ps, 0x1_0000), p))
  }

  lemma BytesRight(cfs: ChannelMap, full: seq<Parameter>, claimed1: set<uint16>, all: seq<Parameter>, ps: seq<Parameter>)
    requires full <= all && InTurn(cfs, full) && Claims(full, claimed1) && (forall p :: p in ps <==> p in all)
    requires forall i :: 0 <= i < |full| ==> full[i].detail == Full
    requires forall i :: |full| <= i < |all| ==> all[i].detail != Full && FromGroup(cfs, claimed1, all[i])
    ensures RightBytes(cfs, ps)
  {
    hide TakesNearest, FromGroup;
    assert forall i :: 0 <= i < |full| ==> all[i] == full[i];
    FullOnes(full, all, ps);
    forall p | p in ps
      ensures (p.detail == Full ==> TakesNearest(cfs, FullBytes(ps, p.offset), p)) && (p.detail != Full ==> FromGroup(cfs, FullBytes(ps, 0x1_0000), p))
    {
      var i :| 0 <= i < |all| && all[i] == p;
      if i < |full| {
        EarlierBytes(cfs, full, ps, i);
      } else {
        AllFullBytes(full, claimed1, ps);
      }
    }
  }

  lemma FullOnes(full: seq<Parameter>, all: seq<Parameter>, ps: seq<Parameter>)
    requires full <= all && (forall p :: p in ps <==> p in all) && (forall i :: 0 <= i < |full| ==> full[i].detail == Full)
    requires forall i :: |full| <= i < |all| ==> all[i].detail != Full
    ensures forall q :: q in ps && q.detail == Full <==> q in full
  {
    forall q | q in full ensures q in all {
      var i :| 0 <= i < |full| && full[i] == q;
      assert all[i] == q;
    }
    forall q | q in all && q.detail == Full ensures q in full {
      var i :| 0 <= i < |all| && all[i] == q;
      assert full[i] == q;
    }
  }

  lemma EarlierBytes(cfs: ChannelMap, full: seq<Parameter>, ps: seq<Parameter>, j: nat)
    requires InTurn(cfs, full) && j < |full| && forall q :: q in ps && q.detail == Full <==> q in full
    ensures FullBytes(ps, full[j].offset) == ByteSet(full[..j])
  {
    hide TakesNearest;
    forall o ensures FullByte(ps, full[j].offset, o) <==> IsByteOf(full[..j], o) {
      if q :| q in ps && q.detail == Full && q.offset < full[j].offset && o in q.offsets {
        var i :| 0 <= i < |full| && full[i] == q;
        assert i < j && full[..j][i] == q;
      }
      if i :| 0 <= i < j && o in full[..j][i].offsets {
        assert full[i] in full;
      }
    }
  }

  lemma AllFullBytes(full: seq<Parameter>, claimed1: set<uint16>, ps: seq<Parameter>)
    requires Claims(full, claimed1) && forall q :: q in ps && q.detail == Full <==> q in full
    ensures FullBytes(ps, 0x1_0000) == claimed1
  {
    forall o ensures FullByte(ps, 0x1_0000, o) <==> o in claimed1 {
      if q :| q in ps && q.detail == Full && q.offset < 0x1_0000 && o in q.offsets {
        var i :| 0 <= i < |full| && full[i] == q;
        assert IsByteOf(full, o);
      }
      if IsByteOf(full, o) {
        var i :| 0 <= i < |full| && o in full[i].offsets;
        assert full[i] in full;
      }
    }
  }

  lemma FullAndNot(cfs: ChannelMap, p: Parameter)
    ensures (IsFullParameter(cfs, p) ==> p.detail == Full) && (IsFallbackParameter(cfs, p) ==> p.detail != Full)
  {}

  method ShareOut(cfs: ChannelMap, footprint: uint16) returns (ps: seq<Parameter>, raw: seq<uint16>)
    ensures SharedOut(cfs, footprint, ps, raw) && RightBytes(cfs, ps)
  {
    hide BytesDisjoint, Claims, IsFullParameter, IsFallbackParameter, Stuck, InTurn, FromGroup, RightBytes;
    var offsets := SortedOffsets(cfs);
    var full, claimed1 := ClaimFullChannels(cfs, offsets);
    var all, claimed := ClaimFallbacks(cfs, offsets, full, claimed1);
    ps := SortByOffset(all);
    raw := RawOffsets(footprint, claimed);
    Shared(cfs, full, claimed1, all, claimed);
    SameBytes(all, ps, claimed);
    forall i | 0 <= i < |all| ensures if i < |full| then full[i].detail == Full else all[i].detail != Full {
      FullAndNot(cfs, all[i]);
      assert i < |full| ==> all[i] == full[i];
    }
    BytesRight(cfs, full, claimed1, all, ps);
    forall o | o in cfs && !IsByteOf(ps, o) ensures LeftOut(cfs, ps, o) {
      if cfs[o].source != Absent && cfs[o].functionsKnown && cfs[o].byteCount >= 1 && cfs[o].byteIndex == 0 {
        StuckGrows(cfs, claimed1, claimed, o);
      }
    }
  }

  lemma Shared(cfs: ChannelMap, full: seq<Parameter>, claimed1: set<uint16>, all: seq<Parameter>, claimed: set<uint16>)
    requires full <= all && BytesDisjoint(all)
    requires forall i :: 0 <= i < |full| ==> IsFullParameter(cfs, full[i])
    requires forall i :: |full| <= i < |all| ==> IsFallbackParameter(cfs, all[i])
    ensures forall p :: p in all ==> IsFullParameter(cfs, p) || IsFallbackParameter(cfs, p)
    ensures forall p :: p in SortByOffset(all) <==> p in all
    ensures BytesDisjoint(SortByOffset(all)) && SortedByOffset(SortByOffset(all))
  {
    hide BytesDisjoint;
    forall i | 0 <= i < |all|
      ensures IsFullParameter(cfs, all[i]) || IsFallbackParameter(cfs, all[i])
      ensures |all[i].offsets| >= 1 && all[i].offset == all[i].offsets[0]
    {
      assert i < |full| ==> all[i] == full[i];
    }
    SortKeeps(all);
  }

  lemma SameBytes(ps: seq<Parameter>, qs: seq<Parameter>, claimed: set<uint16>)
    requires (forall p :: p in ps <==> p in qs) && Claims(ps, claimed)
    ensures forall o :: IsByteOf(qs, o) <==> o in claimed
    ensures ByteSet(qs) == claimed
  {
    forall o ensures IsByteOf(qs, o) <==> IsByteOf(ps, o) {
      if IsByteOf(qs, o) {
        var i :| 0 <= i < |qs| && o in qs[i].offsets;
        assert qs[i] in ps;
        var j :| 0 <= j < |ps| && ps[j] == qs[i];
        assert o in ps[j].offsets;
      }
      if IsByteOf(ps, o) {
        var i :| 0 <= i < |ps| && o in ps[i].offsets;
        assert ps[i] in qs;
        var j :| 0 <= j < |qs| && qs[j] == ps[i];
        assert o in qs[j].offsets;
      }
    }
  }

  /** The i-th channel's k-th byte is at o. */
  ghost predicate SitsAt(ps: seq<Parameter>, i: int, k: int, o: uint16)
  {
    0 <= i < |ps| && 0 <= k < |ps[i].offsets| && ps[i].offsets[k] == o
  }

  /** Each offset of the footprint is a raw offset or one byte of one channel, never both. */
  lemma EveryOffsetOnce(cfs: ChannelMap, footprint: uint16, ps: seq<Parameter>, raw: seq<uint16>, o: uint16)
    requires SharedOut(cfs, footprint, ps, raw) && 1 <= o <= footprint
    ensures o in raw <==> !exists i, k :: SitsAt(ps, i, k, o)
    ensures forall i, k, i', k' :: SitsAt(ps, i, k, o) && SitsAt(ps, i', k', o) ==> i == i' && k == k'
  {
    if IsByteOf(ps, o) {
      var i :| 0 <= i < |ps| && o in ps[i].offsets;
      var k :| 0 <= k < |ps[i].offsets| && ps[i].offsets[k] == o;
      assert SitsAt(ps, i, k, o);
    }
    forall i, k, i', k' | SitsAt(ps, i, k, o) && SitsAt(ps, i', k', o) ensures i == i' && k == k' {
      assert o in ps[i].offsets && o in ps[i'].offsets;
      assert NoRepeat(ps[i].offsets);
    }
  }
}
