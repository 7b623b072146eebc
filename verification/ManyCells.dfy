/** A fixture within one universe that has more cells than there are offsets for their virtual dimmers. */
module ManyCells {
  import opened Prelude
  import opened GeometryTree
  import opened ChannelMap
  import opened ParameterModel
  import opened FixtureModels
  import opened SoftwareMaster
  import opened SyntheticOffsets
  import opened OneByteFixtures

  const MANY: nat := 256

  /** The name of the k-th single-channel cell. */
  function Nth(k: nat): (name: string)
    ensures |name| == k + 4
  {
    seq(k + 4, i => 'x')
  }

  function InstanceAt(i: nat): string
  {
    if i < MANY then Nth(i) else if i < MANY + 3 then "P 1" else "P 2"
  }

  /** 256 cells of one channel each, then two RGB cells. */
  function Crowd(): (l: seq<Slot>)
    ensures |l| == MANY + 6
  {
    seq(MANY + 6, i requires 0 <= i < MANY + 6 => Slot(InstanceAt(i), if i < MANY then "Pan" else RGB[(i - MANY) % 3]))
  }

  function AttributeAt(i: nat): string
  {
    if i < MANY then "Pan" else RGB[(i - MANY) % 3]
  }

  predicate OfCrowd(p: Parameter, i: nat)
  {
    p.instance == InstanceAt(i) && p.attribute == AttributeAt(i) && p.offset == i + 1 && !p.virtual
  }

  lemma CrowdAt()
    ensures |ChannelsOf(Crowd())| == MANY + 6 && forall i :: 0 <= i < MANY + 6 ==> OfCrowd(ChannelsOf(Crowd())[i], i)
  {
    ChannelsAt(Crowd());
    var ps := ChannelsOf(Crowd());
    forall i | 0 <= i < MANY + 6 ensures OfCrowd(ps[i], i) {
      assert IsSlot(ps[i], i, Crowd()[i]);
    }
  }

  lemma NamesApart(i: nat, k: nat)
    requires i < MANY + 6 && k < MANY
    ensures InstanceAt(i) == Nth(k) <==> i == k
    ensures InstanceAt(i) == "P 1" <==> MANY <= i < MANY + 3
    ensures InstanceAt(i) == "P 2" <==> MANY + 3 <= i
  {
    assert "P 1"[2] != "P 2"[2];
    assert |Nth(i)| != 3 && |Nth(k)| != 3;
  }

  lemma CrowdRuns()
    ensures var ps := ChannelsOf(Crowd());
            |ps| == MANY + 6 && NoDimmer(ps) && (forall k :: 0 <= k < MANY ==> RunAt(ps, Nth(k), k, ["Pan"])) &&
            RunAt(ps, "P 1", MANY, RGB) && RunAt(ps, "P 2", MANY + 3, RGB) && ps[0].offset == 1
  {
    CrowdAt();
    var ps := ChannelsOf(Crowd());
    hide *;
    assert OfCrowd(ps[0], 0);
    forall i | 0 <= i < |ps| ensures !IsDimmer(ps[i]) && !ps[i].virtual {
      NoneDims(ps[i], i);
    }
    forall k | 0 <= k < MANY ensures RunAt(ps, Nth(k), k, ["Pan"]) {
      PanRun(ps, k);
    }
    RgbRuns(ps);
  }

  lemma NoneDims(p: Parameter, i: nat)
    requires OfCrowd(p, i)
    ensures !IsDimmer(p) && !p.virtual
  {
    assert i >= MANY ==> RGB[(i - MANY) % 3] in RGB;
  }

  lemma PanRun(ps: seq<Parameter>, k: nat)
    requires k < MANY && |ps| == MANY + 6 && forall i :: 0 <= i < |ps| ==> OfCrowd(ps[i], i)
    ensures RunAt(ps, Nth(k), k, ["Pan"])
  {
    assert |Nth(k)| != 0;
    forall i | 0 <= i < |ps| ensures ps[i].instance == Nth(k) <==> k <= i < k + 1 {
      NamesApart(i, k);
    }
    hide InstanceAt;
  }

  lemma RgbRuns(ps: seq<Parameter>)
    requires |ps| == MANY + 6 && forall i :: 0 <= i < |ps| ==> OfCrowd(ps[i], i)
    ensures RunAt(ps, "P 1", MANY, RGB) && RunAt(ps, "P 2", MANY + 3, RGB)
  {
    forall i | 0 <= i < |ps|
      ensures (ps[i].instance == "P 1" <==> MANY <= i < MANY + 3) && (ps[i].instance == "P 2" <==> MANY + 3 <= i)
    {
      NamesApart(i, 0);
    }
    hide InstanceAt;
  }

  /** The single-channel cells have the first 256 numbers. */
  lemma {:induction false} CrowdIds(ps: seq<Parameter>, n: nat)
    requires n <= MANY <= |ps| && forall k :: 0 <= k < MANY ==> RunAt(ps, Nth(k), k, ["Pan"])
    ensures |CellIds(ps, n)| == n && forall k :: 0 <= k < n ==> CellIds(ps, n)[k] == Nth(k)
  {
    if n > 0 {
      CrowdIds(ps, n - 1);
      var other := if n == 1 then 1 else 0;
      assert RunAt(ps, Nth(n - 1), n - 1, ["Pan"]) && RunAt(ps, Nth(other), other, ["Pan"]);
      assert ps[n - 1].instance == Nth(n - 1);
      assert |Nth(n - 1)| != |Nth(other)|;
      PeersAreCells(ps, Nth(n - 1), n - 1, Nth(other), other, ["Pan"]);
      hide IsCell, RunAt;
    }
  }

  lemma {:induction false} IdsStay(ps: seq<Parameter>, n: nat, k: nat)
    requires n <= k <= |ps|
    ensures CellIds(ps, n) <= CellIds(ps, k)
  {
    if n < k {
      IdsStay(ps, n, k - 1);
    }
  }

  lemma CrowdCell(ps: seq<Parameter>)
    requires ps == ChannelsOf(Crowd())
    ensures Cell("P 1", MANY + 1) in CellsOf(ps) && WantsVirtual(WithCells(ps), "P 1")
  {
    CrowdRuns();
    hide Crowd, ChannelsOf;
    assert "P 1"[2] != "P 2"[2];
    PeersAreCells(ps, "P 1", MANY, "P 2", MANY + 3, RGB);
    RgbWantsVirtual(ps, "P 1", MANY);
    CrowdIds(ps, MANY);
    IdsStay(ps, MANY + 1, |ps|);
    assert ps[MANY].instance == "P 1";
    hide IsCell, WantsVirtual, RunAt;
    var ids := CellIds(ps, |ps|);
    forall k | 0 <= k < MANY ensures CellIds(ps, MANY)[k] != "P 1" {
      assert |Nth(k)| != |"P 1"|;
    }
    assert ids[MANY] == "P 1";
    assert CellsOf(ps)[MANY] == Cell("P 1", MANY + 1);
  }

  /** Two parameters of one offset, in 262 channels: the virtual dimmer of the 257th cell is put where the
      first channel is. */
  lemma CrowdCollides(raw: seq<uint16>, tree: Option<Tree>, m: Model)
    requires Derived(ChannelsOf(Crowd()), raw, tree, m)
    ensures SharedOut(MapOf(Crowd()), MANY + 6, ChannelsOf(Crowd()), [])
    ensures !OffsetsDistinct(m.parameters)
  {
    LayoutShared(Crowd());
    CrowdClash(|m.parts| >= 2);
    hide *;
    BuiltChannels(MapOf(Crowd()), MANY + 6, ChannelsOf(Crowd()), []);
    BuiltOffsets(ChannelsOf(Crowd()), raw, tree, m);
  }

  lemma CrowdClash(several: bool)
    ensures !ClashFree(ChannelsOf(Crowd()), several)
  {
    var ps := ChannelsOf(Crowd());
    CrowdRuns();
    CrowdCell(ps);
    hide *;
    ClashAt(ps, Cell("P 1", MANY + 1), several);
  }

  lemma ClashAt(ps: seq<Parameter>, c: Cell, several: bool)
    requires c in CellsOf(ps) && c.index == MANY + 1 && WantsVirtual(WithCells(ps), c.id) && |ps| > 0 && ps[0].offset == 1
    ensures !ClashFree(ps, several)
  {
    assert SyntheticOffset(c.index) == 1 && ChannelAt(ps, 1);
    assert CellClashes(ps, c, several);
  }
}
