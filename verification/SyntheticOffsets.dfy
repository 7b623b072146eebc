/** The offsets of the parameters that have no DMX bytes: virtual dimmers are numbered by their cell from
    0xFF00 on, in 16 bits, and the software master has 0xFE00. A parameter is found by its offset, so
    no two should have the same. */
module SyntheticOffsets {
  import opened Prelude
  import opened GeometryTree
  import opened ChannelMap
  import opened ParameterModel
  import opened FixtureModels

  /** No two parameters have the same offset. */
  ghost predicate OffsetsDistinct(ps: seq<Parameter>)
  {
    forall i, j :: 0 <= i < j < |ps| ==> ps[i].offset != ps[j].offset
  }

  predicate ChannelAt(ps: seq<Parameter>, o: uint16)
  {
    exists k :: 0 <= k < |ps| && ps[k].offset == o
  }

  /** The offset of cell c's virtual dimmer is a channel's, or the fixture's own virtual dimmer's, or the
      software master's. */
  predicate CellClashes(ps: seq<Parameter>, c: Cell, several: bool)
  {
    var o := SyntheticOffset(c.index);
    WantsVirtual(WithCells(ps), c.id) &&
    (ChannelAt(ps, o) || (WantsVirtual(WithCells(ps), "") && o == VIRTUAL_DIMMER_OFFSET) || (several && o == VIRTUAL_MASTER_OFFSET))
  }

  /** No offset the model makes up is taken; several says that the fixture has several parts. */
  predicate ClashFree(ps: seq<Parameter>, several: bool)
  {
    (forall c :: c in CellsOf(ps) ==> !CellClashes(ps, c, several)) &&
    (WantsVirtual(WithCells(ps), "") ==> !ChannelAt(ps, VIRTUAL_DIMMER_OFFSET)) &&
    (several ==> !ChannelAt(ps, VIRTUAL_MASTER_OFFSET))
  }

  /** No parameter of a shares its offset with one of b. */
  ghost predicate Apart(a: seq<Parameter>, b: seq<Parameter>)
  {
    forall i, j :: 0 <= i < |a| && 0 <= j < |b| ==> a[i].offset != b[j].offset
  }

  lemma DistinctJoined(a: seq<Parameter>, b: seq<Parameter>)
    ensures OffsetsDistinct(a + b) <==> OffsetsDistinct(a) && OffsetsDistinct(b) && Apart(a, b)
  {
    var ab := a + b;
    assert forall i :: 0 <= i < |a| ==> ab[i] == a[i];
    assert forall j :: 0 <= j < |b| ==> ab[|a| + j] == b[j];
    if OffsetsDistinct(ab) {
      forall i, j | 0 <= i < |a| && 0 <= j < |b| ensures a[i].offset != b[j].offset {
        assert ab[i].offset != ab[|a| + j].offset;
      }
      forall i, j | 0 <= i < j < |b| ensures b[i].offset != b[j].offset {
        assert ab[|a| + i].offset != ab[|a| + j].offset;
      }
    }
  }

  // ---------------------------------------------------------------- how many cells there are

  lemma {:induction false} OffsetAtLeast(ps: seq<Parameter>, i: nat)
    requires SortedByOffset(ps) && i < |ps|
    ensures ps[i].offset >= ps[0].offset + i
  {
    if i > 0 {
      OffsetAtLeast(ps, i - 1);
    }
  }

  lemma {:induction false} NoMoreIds(ps: seq<Parameter>, n: nat)
    requires n <= |ps|
    ensures |CellIds(ps, n)| <= n
  {
    if n > 0 {
      NoMoreIds(ps, n - 1);
    }
  }

  /** There are no more cells than channels, and no more channels than offsets up to the last. */
  lemma CellCount(ps: seq<Parameter>, last: nat)
    requires SortedByOffset(ps) && forall i :: 0 <= i < |ps| ==> ps[i].offset <= last
    ensures |CellsOf(ps)| <= |ps| <= last + 1
  {
    NoMoreIds(ps, |ps|);
    if |ps| > 0 {
      OffsetAtLeast(ps, |ps| - 1);
    }
  }

  // ---------------------------------------------------------------- the virtual dimmers of cells

  ghost predicate Numbered(cells: seq<Cell>)
  {
    forall i :: 0 <= i < |cells| ==> cells[i].index == i + 1
  }

  /** Cell i has a virtual dimmer, at o. */
  predicate VirtualAt(ps: seq<Parameter>, cells: seq<Cell>, i: int, o: uint16)
  {
    0 <= i < |cells| && WantsVirtual(ps, cells[i].id) && SyntheticOffset(cells[i].index) == o
  }

  lemma {:induction false} CellOffsets(ps: seq<Parameter>, cells: seq<Cell>)
    requires Numbered(cells)
    ensures forall o :: ChannelAt(CellVirtuals(ps, cells), o) <==> exists i :: VirtualAt(ps, cells, i, o)
    ensures |cells| <= 0x1_0000 ==> OffsetsDistinct(CellVirtuals(ps, cells))
  {
    hide WantsVirtual, ScopeOf;
    if cells != [] {
      var n := |cells| - 1;
      var init, c := cells[..n], cells[n];
      CellOffsets(ps, init);
      var was, now := CellVirtuals(ps, init), CellVirtuals(ps, cells);
      var v := VirtualDimmer(ScopeOf(ps, c.id), c.id, SyntheticOffset(c.index));
      assert now == was + if WantsVirtual(ps, c.id) then [v] else [];
      hide CellVirtuals;
      forall o ensures ChannelAt(now, o) <==> exists i :: VirtualAt(ps, cells, i, o) {
        if i :| VirtualAt(ps, init, i, o) {
          assert VirtualAt(ps, cells, i, o) && ChannelAt(was, o);
          var k :| 0 <= k < |was| && was[k].offset == o;
          assert now[k].offset == o;
        }
        if i :| VirtualAt(ps, cells, i, o) {
          if i < n {
            assert VirtualAt(ps, init, i, o) && ChannelAt(was, o);
            var k :| 0 <= k < |was| && was[k].offset == o;
            assert now[k].offset == o;
          } else {
            assert now[|was|] == v;
          }
        }
        if k :| 0 <= k < |now| && now[k].offset == o {
          if k < |was| {
            assert was[k].offset == o && ChannelAt(was, o);
            var i :| VirtualAt(ps, init, i, o);
            assert VirtualAt(ps, cells, i, o);
          } else {
            assert now[k] == v && VirtualAt(ps, cells, n, o);
          }
        }
      }
      if |cells| <= 0x1_0000 && WantsVirtual(ps, c.id) {
        forall k | 0 <= k < |was| ensures was[k].offset != v.offset {
          assert ChannelAt(was, was[k].offset);
          var i :| VirtualAt(ps, init, i, was[k].offset);
          NumbersApart(i + 1, c.index);
        }
      }
    }
  }

  lemma NumbersApart(a: nat, b: nat)
    requires a < b < a + 0x1_0000
    ensures SyntheticOffset(a) != SyntheticOffset(b)
  {}

  // ---------------------------------------------------------------- exactly when

  /** No two parameters of a built model have one offset, exactly when no virtual dimmer of a cell meets,
      at its wrapped offset, a channel, the fixture's own virtual dimmer or the software master, and no
      channel lies where these two are put. */
  lemma BuiltOffsets(ps: seq<Parameter>, raw: seq<uint16>, tree: Option<Tree>, m: Model)
    requires SortedByOffset(ps) && Derived(ps, raw, tree, m)
    ensures OffsetsDistinct(m.parameters) <==> ClashFree(ps, |m.parts| >= 2)
  {
    var celled, cells := WithCells(ps), CellsOf(ps);
    var own, cv := OwnVirtual(celled), CellVirtuals(celled, cells);
    CellCount(ps, 0xFFFF);
    CellOffsets(celled, cells);
    DistinctJoined(celled, own);
    DistinctJoined(celled + own, cv);
    SameOffsets(ps, raw, tree, m);
    hide Derived, SortedByOffset, WantsVirtual, WithCells, CellsOf, OwnVirtual, CellVirtuals, WithVirtuals;
    BaseDistinct(ps);
    WithMaster(ps, |m.parts| >= 2);
  }

  /** The parameters whose offsets the model's are: the base, and the software master where there is one. */
  function Listed(ps: seq<Parameter>, several: bool): seq<Parameter>
  {
    WithVirtuals(WithCells(ps), CellsOf(ps)) + if several then [VirtualMaster(Absent, [])] else []
  }

  lemma SameOffsets(ps: seq<Parameter>, raw: seq<uint16>, tree: Option<Tree>, m: Model)
    requires Derived(ps, raw, tree, m)
    ensures OffsetsDistinct(m.parameters) <==> OffsetsDistinct(Listed(ps, |m.parts| >= 2))
  {
    hide WithVirtuals, WithCells, CellsOf, PartsOf, MasterTargets, IsGoverned, IsInner;
    var listed := Listed(ps, |m.parts| >= 2);
    assert |listed| == |m.parameters| && forall i :: 0 <= i < |listed| ==> listed[i].offset == m.parameters[i].offset;
  }

  /** Cells that have a virtual dimmer, by their offsets. */
  lemma CellAt(ps: seq<Parameter>, o: uint16)
    ensures ChannelAt(CellVirtuals(WithCells(ps), CellsOf(ps)), o) <==>
              exists c :: c in CellsOf(ps) && WantsVirtual(WithCells(ps), c.id) && SyntheticOffset(c.index) == o
  {
    var celled, cells := WithCells(ps), CellsOf(ps);
    assert Numbered(cells);
    CellOffsets(celled, cells);
    hide WantsVirtual, WithCells, CellsOf, CellVirtuals;
    if c :| c in cells && WantsVirtual(celled, c.id) && SyntheticOffset(c.index) == o {
      var i :| 0 <= i < |cells| && cells[i] == c;
      assert VirtualAt(celled, cells, i, o);
    }
  }

  lemma BaseDistinct(ps: seq<Parameter>)
    requires SortedByOffset(ps)
    ensures OffsetsDistinct(WithVirtuals(WithCells(ps), CellsOf(ps))) <==> ClashFree(ps, false)
  {
    var celled, cells := WithCells(ps), CellsOf(ps);
    var own, cv := OwnVirtual(celled), CellVirtuals(celled, cells);
    CellCount(ps, 0xFFFF);
    CellOffsets(celled, cells);
    DistinctJoined(celled, own);
    DistinctJoined(celled + own, cv);
    assert OffsetsDistinct(celled) && OffsetsDistinct(own);
    assert |celled| == |ps| && forall i :: 0 <= i < |ps| ==> celled[i].offset == ps[i].offset;
    assert own == [] <==> !WantsVirtual(celled, "");
    assert own != [] ==> |own| == 1 && own[0].offset == VIRTUAL_DIMMER_OFFSET;
    hide WantsVirtual, WithCells, CellsOf, OwnVirtual, CellVirtuals, SyntheticOffset;
    assert Apart(celled, own) <==> (WantsVirtual(celled, "") ==> !ChannelAt(ps, VIRTUAL_DIMMER_OFFSET)) by {
      if own != [] && ChannelAt(ps, VIRTUAL_DIMMER_OFFSET) {
        var k :| 0 <= k < |ps| && ps[k].offset == VIRTUAL_DIMMER_OFFSET;
        assert celled[k].offset == own[0].offset;
      }
    }
    CellsApart(ps, celled + own, cv);
  }

  lemma CellsApart(ps: seq<Parameter>, front: seq<Parameter>, cv: seq<Parameter>)
    requires front == WithCells(ps) + OwnVirtual(WithCells(ps)) && cv == CellVirtuals(WithCells(ps), CellsOf(ps))
    ensures Apart(front, cv) <==> forall c :: c in CellsOf(ps) ==> !CellClashes(ps, c, false)
  {
    var celled := WithCells(ps);
    forall o ensures ChannelAt(front, o) <==> ChannelAt(ps, o) || (WantsVirtual(celled, "") && o == VIRTUAL_DIMMER_OFFSET) {
      FrontAt(ps, o);
    }
    hide WantsVirtual, WithCells, CellsOf, OwnVirtual, CellVirtuals, SyntheticOffset;
    if Apart(front, cv) {
      forall c | c in CellsOf(ps) ensures !CellClashes(ps, c, false) {
        CellAt(ps, SyntheticOffset(c.index));
      }
    } else {
      var i, j :| 0 <= i < |front| && 0 <= j < |cv| && front[i].offset == cv[j].offset;
      var o := cv[j].offset;
      assert ChannelAt(front, o) && ChannelAt(cv, o);
      CellAt(ps, o);
      var c :| c in CellsOf(ps) && WantsVirtual(celled, c.id) && SyntheticOffset(c.index) == o;
      assert CellClashes(ps, c, false);
    }
  }

  lemma FrontAt(ps: seq<Parameter>, o: uint16)
    ensures ChannelAt(WithCells(ps) + OwnVirtual(WithCells(ps)), o) <==>
              ChannelAt(ps, o) || (WantsVirtual(WithCells(ps), "") && o == VIRTUAL_DIMMER_OFFSET)
  {
    var celled := WithCells(ps);
    var own := OwnVirtual(celled);
    var front := celled + own;
    hide WantsVirtual;
    if k :| 0 <= k < |ps| && ps[k].offset == o {
      assert front[k].offset == o;
    }
    if WantsVirtual(celled, "") && o == VIRTUAL_DIMMER_OFFSET {
      assert front[|celled|].offset == o;
    }
    if k :| 0 <= k < |front| && front[k].offset == o {
      if k < |ps| {
        assert ps[k].offset == o;
      }
    }
  }

  lemma WithMaster(ps: seq<Parameter>, several: bool)
    requires OffsetsDistinct(WithVirtuals(WithCells(ps), CellsOf(ps))) <==> ClashFree(ps, false)
    ensures OffsetsDistinct(Listed(ps, several)) <==> ClashFree(ps, several)
  {
    var celled, cells := WithCells(ps), CellsOf(ps);
    var front, cv := celled + OwnVirtual(celled), CellVirtuals(celled, cells);
    var base, master := WithVirtuals(celled, cells), [VirtualMaster(Absent, [])];
    assert base == front + cv;
    DistinctJoined(base, master);
    CellAt(ps, VIRTUAL_MASTER_OFFSET);
    FrontAt(ps, VIRTUAL_MASTER_OFFSET);
    hide WantsVirtual, WithCells, CellsOf, OwnVirtual, CellVirtuals, WithVirtuals;
    JoinedAt(front, cv, VIRTUAL_MASTER_OFFSET);
    assert Apart(base, master) <==> !ChannelAt(base, VIRTUAL_MASTER_OFFSET) by {
      assert master[0].offset == VIRTUAL_MASTER_OFFSET;
    }
    if several {
      assert Listed(ps, several) == base + master;
    } else {
      assert Listed(ps, several) == base;
    }
  }

  lemma JoinedAt(a: seq<Parameter>, b: seq<Parameter>, o: uint16)
    ensures ChannelAt(a + b, o) <==> ChannelAt(a, o) || ChannelAt(b, o)
  {
    var ab := a + b;
    if k :| 0 <= k < |a| && a[k].offset == o {
      assert ab[k].offset == o;
    }
    if k :| 0 <= k < |b| && b[k].offset == o {
      assert ab[|a| + k].offset == o;
    }
    if k :| 0 <= k < |ab| && ab[k].offset == o {
      if k < |a| {
        assert a[k].offset == o;
      } else {
        assert b[k - |a|].offset == o;
      }
    }
  }

  // ---------------------------------------------------------------- a fixture within one universe

  /** Cell c is numbered so high that its virtual dimmer's offset wraps, onto a channel. */
  predicate WrapsOnto(ps: seq<Parameter>, c: Cell)
  {
    c.index >= 0x100 && WantsVirtual(WithCells(ps), c.id) && c.index - 0x100 < 0x1_0000 && ChannelAt(ps, c.index - 0x100)
  }

  /** Of a fixture whose channels fit a universe, exactly the cells from the 257th on are in danger: the
      n-th one that has a virtual dimmer meets the channel at offset n - 256. */
  lemma InOneUniverse(ps: seq<Parameter>, several: bool)
    requires SortedByOffset(ps) && forall i :: 0 <= i < |ps| ==> 1 <= ps[i].offset <= 512
    ensures ClashFree(ps, several) <==> forall c :: c in CellsOf(ps) ==> !WrapsOnto(ps, c)
    ensures forall c :: c in CellsOf(ps) && WrapsOnto(ps, c) ==> c.index > 0x100
  {
    CellCount(ps, 512);
    hide WrapsOnto, CellClashes;
    forall c | c in CellsOf(ps) ensures (CellClashes(ps, c, several) <==> WrapsOnto(ps, c)) && (WrapsOnto(ps, c) ==> c.index > 0x100) {
      NumberOf(ps, c);
      InUniverse(ps, c, several);
    }
  }

  lemma InUniverse(ps: seq<Parameter>, c: Cell, several: bool)
    requires 1 <= c.index <= 513 && forall i :: 0 <= i < |ps| ==> 1 <= ps[i].offset <= 512
    ensures CellClashes(ps, c, several) <==> WrapsOnto(ps, c)
    ensures WrapsOnto(ps, c) ==> c.index > 0x100
    ensures forall o :: o > 512 ==> !ChannelAt(ps, o)
  {}

  lemma NumberOf(ps: seq<Parameter>, c: Cell)
    requires c in CellsOf(ps)
    ensures 1 <= c.index <= |CellsOf(ps)|
  {}
}
