/** From the faders to the wire: what a channel's faders show is what its slots are read back as, in a
    patch of built fixtures in which the check finds no overlap. */
module FadersOnWire {
  import opened Prelude
  import opened GeometryTree
  import opened ChannelMap
  import opened ParameterModel
  import opened FixtureModels
  import opened Dimming
  import opened Faders
  import opened WireFrames
  import opened Collisions

  /** The fixtures of the rig are patched, each with the model built of its patch entry. */
  ghost predicate RigBuilt(rig: Rig, patch: map<string, Address>, entries: map<string, Entry>)
  {
    forall e :: e in rig ==> e in patch && e in entries && entries[e].footprint == patch[e].footprint && ModelBuilt(entries[e], rig[e].model)
  }

  ghost predicate ModelBuilt(e: Entry, m: Model)
  {
    exists ps, raw :: SharedOut(e.channelFunctions, e.footprint, ps, raw) && Derived(ps, raw, e.geometryParents, m)
  }

  /** a is one of the fixtures' parameters, at the level it is given. */
  ghost predicate IsAssigned(a: Assigned, output: map<Channel, real>, rig: Rig)
  {
    a.entry in rig && a.p in rig[a.entry].model.parameters && WireFrames.KeyOf(a) in output && a.level == output[WireFrames.KeyOf(a)]
  }

  /** chans lists the channels that are given a level, each once. */
  ghost predicate ListsOutput(chans: seq<Assigned>, output: map<Channel, real>, rig: Rig)
  {
    (forall j :: 0 <= j < |chans| ==> IsAssigned(chans[j], output, rig)) &&
    (forall j, j' :: 0 <= j < j' < |chans| ==> WireFrames.KeyOf(chans[j]) != WireFrames.KeyOf(chans[j'])) &&
    forall k :: k in output ==> exists j :: 0 <= j < |chans| && WireFrames.KeyOf(chans[j]) == k
  }

  // ---------------------------------------------------------------- the channels of a built model

  /** The model's channels keep their bytes, and its other parameters are virtual. */
  ghost predicate ChannelsKept(ps: seq<Parameter>, all: seq<Parameter>)
  {
    |ps| <= |all| &&
    (forall i :: 0 <= i < |ps| ==> all[i].offset == ps[i].offset && all[i].offsets == ps[i].offsets && all[i].byteCount == ps[i].byteCount &&
                                   all[i].max == ps[i].max && !all[i].virtual) &&
    forall i :: |ps| <= i < |all| ==> all[i].virtual && all[i].offsets == []
  }

  lemma BuiltKeeps(cfs: ChannelMap, footprint: uint16, ps: seq<Parameter>, raw: seq<uint16>, tree: Option<Tree>, m: Model)
    requires SharedOut(cfs, footprint, ps, raw) && Derived(ps, raw, tree, m)
    ensures ChannelsKept(ps, m.parameters)
  {
    var base := WithVirtuals(WithCells(ps), CellsOf(ps));
    forall i | 0 <= i < |ps| ensures !ps[i].virtual {
      assert ps[i] in ps;
    }
    VirtualsShape(ps);
    BaseKeeps(ps, base);
    MarkedKeeps(ps, base, tree);
  }

  lemma BaseKeeps(ps: seq<Parameter>, base: seq<Parameter>)
    requires ChannelsThenVirtuals(WithCells(ps), base) && forall i :: 0 <= i < |ps| ==> !ps[i].virtual
    ensures ChannelsKept(ps, base)
  {
    var celled := WithCells(ps);
    assert forall i :: 0 <= i < |ps| ==> base[..|celled|][i] == celled[i];
  }

  lemma MarkedKeeps(ps: seq<Parameter>, base: seq<Parameter>, tree: Option<Tree>)
    requires ChannelsKept(ps, base)
    ensures ChannelsKept(ps, WithInner(base, tree))
    ensures forall s, t :: ChannelsKept(ps, WithInner(base, tree) + [VirtualMaster(s, t)])
  {}

  ghost predicate WellSized(p: Parameter)
  {
    NoRepeat(p.offsets) && (!p.virtual ==> |p.offsets| == p.byteCount && p.max == MaxForBytes(p.byteCount))
  }

  /** Two of its parameters are the same or share no byte. */
  ghost predicate OwnBytes(ps: seq<Parameter>)
  {
    forall p, q, o :: p in ps && q in ps && p.offset != q.offset && o in p.offsets ==> o !in q.offsets
  }

  lemma ModelBytes(e: Entry, m: Model)
    requires ModelBuilt(e, m)
    ensures OwnBytes(m.parameters) && forall p :: p in m.parameters ==> WellSized(p)
  {
    var ps, raw :| SharedOut(e.channelFunctions, e.footprint, ps, raw) && Derived(ps, raw, e.geometryParents, m);
    BuiltKeeps(e.channelFunctions, e.footprint, ps, raw, e.geometryParents, m);
    ChannelsSized(e.channelFunctions, e.footprint, ps, raw);
    hide *;
    KeptBytes(ps, m.parameters);
  }

  lemma ChannelsSized(cfs: ChannelMap, footprint: uint16, ps: seq<Parameter>, raw: seq<uint16>)
    requires SharedOut(cfs, footprint, ps, raw)
    ensures BytesDisjoint(ps) && forall i :: 0 <= i < |ps| ==> WellSized(ps[i]) && !ps[i].virtual
  {
    forall i | 0 <= i < |ps| ensures WellSized(ps[i]) && !ps[i].virtual {
      assert ps[i] in ps;
    }
  }

  lemma KeptBytes(ps: seq<Parameter>, all: seq<Parameter>)
    requires ChannelsKept(ps, all) && BytesDisjoint(ps) && forall i :: 0 <= i < |ps| ==> WellSized(ps[i]) && !ps[i].virtual
    ensures OwnBytes(all) && forall p :: p in all ==> WellSized(p)
  {
    forall p | p in all ensures WellSized(p) {
      var i :| 0 <= i < |all| && all[i] == p;
    }
    forall p, q, o | p in all && q in all && p.offset != q.offset && o in p.offsets ensures o !in q.offsets {
      var i :| 0 <= i < |all| && all[i] == p;
      var k :| 0 <= k < |all| && all[k] == q;
      assert i < |ps| && all[i].offsets == ps[i].offsets;
      if k < |ps| {
        assert all[k].offsets == ps[k].offsets;
        OneOwner(ps, i, k, o);
      }
    }
  }

  lemma OneOwner(ps: seq<Parameter>, i: nat, k: nat, o: uint16)
    requires BytesDisjoint(ps) && i < |ps| && k < |ps| && i != k && o in ps[i].offsets
    ensures o !in ps[k].offsets
  {}

  // ---------------------------------------------------------------- the channels the faders give a level

  /** Levels lie between dark and full. */
  ghost predicate InRange(claims: Claims)
  {
    forall i :: i in claims ==> 0.0 <= claims[i].level <= 1.0
  }

  lemma ShownInRange(defs: seq<FaderDef>, claims: Claims, rig: Rig, k: Channel)
    requires InRange(claims)
    ensures Shown(defs, claims, rig, k).Some? ==> 0.0 <= Shown(defs, claims, rig, k).value <= 1.0
  {
    LatestIsLast(defs, claims, rig, k);
  }

  lemma OutputPlaced(defs: seq<FaderDef>, claims: Claims, rig: Rig, output: map<Channel, real>, chans: seq<Assigned>,
                     patch: map<string, Address>, entries: map<string, Entry>)
    requires Shows(output, defs, claims, rig) && InRange(claims) && RigBuilt(rig, patch, entries) && ListsOutput(chans, output, rig)
    ensures Placed(chans, patch) && BytesApart(chans)
  {
    forall j | 0 <= j < |chans| ensures Sound(chans[j], rig, patch) {
      AssignedSound(defs, claims, rig, output, chans[j], patch, entries);
    }
    hide RigBuilt, AssignedOk, Shows, InRange, OwnBytes;
    forall j, j', o | 0 <= j < |chans| && 0 <= j' < |chans| && j != j' && chans[j].entry == chans[j'].entry && o in chans[j].p.offsets
      ensures o !in chans[j'].p.offsets
    {
      assert Sound(chans[j], rig, patch) && IsAssigned(chans[j], output, rig) && IsAssigned(chans[j'], output, rig);
      if j < j' {
        assert WireFrames.KeyOf(chans[j]) != WireFrames.KeyOf(chans[j']);
      } else {
        assert WireFrames.KeyOf(chans[j']) != WireFrames.KeyOf(chans[j]);
      }
      Unshared(rig[chans[j].entry].model.parameters, chans[j].p, chans[j'].p, o);
    }
  }

  lemma Unshared(ps: seq<Parameter>, p: Parameter, q: Parameter, o: uint16)
    requires OwnBytes(ps) && p in ps && q in ps && p.offset != q.offset && o in p.offsets
    ensures o !in q.offsets
  {}

  ghost predicate Sound(a: Assigned, rig: Rig, patch: map<string, Address>)
  {
    AssignedOk(a) && a.entry in patch && a.entry in rig && NoRepeat(a.p.offsets) && OwnBytes(rig[a.entry].model.parameters)
  }

  lemma AssignedSound(defs: seq<FaderDef>, claims: Claims, rig: Rig, output: map<Channel, real>, a: Assigned,
                      patch: map<string, Address>, entries: map<string, Entry>)
    requires Shows(output, defs, claims, rig) && InRange(claims) && RigBuilt(rig, patch, entries) && IsAssigned(a, output, rig)
    ensures Sound(a, rig, patch)
  {
    hide ModelBuilt, OwnBytes, InRange;
    ModelBytes(entries[a.entry], rig[a.entry].model);
    ShownInRange(defs, claims, rig, WireFrames.KeyOf(a));
  }

  /** Every byte of the channel is on the universe. */
  predicate OnUniverse(a: Address, p: Parameter)
  {
    forall i :: 0 <= i < |p.offsets| ==> Addressable(a, p.offsets[i])
  }

  lemma ReadOf(wire: Wire, chans: seq<Assigned>, patch: map<string, Address>, j: nat) returns (read: seq<byte>)
    requires Placed(chans, patch) && SlotsApart(chans, patch) && Carries(wire, chans, patch, |chans|, 0) && j < |chans| && !chans[j].p.virtual
    requires OnUniverse(patch[chans[j].entry], chans[j].p)
    ensures ReadBack(wire, patch[chans[j].entry], chans[j].p, read) && Outlasts(chans, patch, j)
  {
    var a, p := patch[chans[j].entry], chans[j].p;
    assert Outlasts(chans, patch, j);
    forall i | 0 <= i < |p.offsets| ensures SlotOf(a, p.offsets[i]) in wire {
      ByteCarried(wire, chans, patch, j, i);
    }
    read := seq(|p.offsets|, i requires 0 <= i < |p.offsets| => wire[SlotOf(a, p.offsets[i])]);
  }

  /** What the faders show of a channel is on the wire. The patch has no overlaps; output is what the
      claims show, as FaderBank.Apply leaves it, chans lists it in any order, and wire is what
      WriteFrames makes of that. A channel wholly on its universe is then read back, at its own slots,
      as the level its faders show, to the nearest step of its width. */
  lemma FadersReadBack(defs: seq<FaderDef>, claims: Claims, rig: Rig, output: map<Channel, real>, chans: seq<Assigned>,
                       patch: map<string, Address>, entries: map<string, Entry>, wire: Wire, j: nat) returns (read: seq<byte>)
    requires Shows(output, defs, claims, rig) && InRange(claims) && RigBuilt(rig, patch, entries) && ListsOutput(chans, output, rig)
    requires NoOverlaps(patch) && Carries(wire, chans, patch, |chans|, 0)
    requires j < |chans| && chans[j].entry in patch && !chans[j].p.virtual && OnUniverse(patch[chans[j].entry], chans[j].p)
    ensures ReadBack(wire, patch[chans[j].entry], chans[j].p, read)
    ensures var shown := Shown(defs, claims, rig, WireFrames.KeyOf(chans[j]));
            shown.Some? && -0.5 <= Scaled(shown.value, chans[j].p.max) - ValueOf(read) as real <= 0.5
  {
    hide RigBuilt, OnUniverse;
    OutputPlaced(defs, claims, rig, output, chans, patch, entries);
    PatchedApart(chans, patch);
    read := ReadOf(wire, chans, patch, j);
    WireShowsLevel(wire, chans, patch, j, read);
  }
}
