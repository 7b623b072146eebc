/** Fixture-type records, their supported-PID lists and source files, and the merge of one record into another. */
module LibraryRecords {
  import opened Prelude
  import opened LibraryModes
  import opened LibraryMerge

  // ---------------------------------------------------------------- parameter lists

  /** Puts v after everything not greater. */
  function InsertPid(p: seq<uint16>, v: uint16): seq<uint16>
  {
    if p == [] || p[|p| - 1] <= v then p + [v] else InsertPid(p[..|p| - 1], v) + [p[|p| - 1]]
  }

  function SortedPids(p: seq<uint16>): seq<uint16>
  {
    if p == [] then [] else InsertPid(SortedPids(p[..|p| - 1]), p[|p| - 1])
  }

  function WithoutRepeats(p: seq<uint16>): seq<uint16>
  {
    if p == [] then []
    else
      var before := WithoutRepeats(p[..|p| - 1]);
      if p[|p| - 1] in before then before else before + [p[|p| - 1]]
  }

  function DedupedPids(p: seq<uint16>): seq<uint16>
  {
    SortedPids(WithoutRepeats(p))
  }

  ghost predicate Ascending(p: seq<uint16>)
  {
    forall i, j :: 0 <= i < j < |p| ==> p[i] < p[j]
  }

  ghost predicate NonDescending(p: seq<uint16>)
  {
    forall i, j :: 0 <= i < j < |p| ==> p[i] <= p[j]
  }

  lemma {:induction false} InsertPidAt(p: seq<uint16>, v: uint16, j: int)
    requires -1 <= j < |p| && (j >= 0 ==> p[j] <= v) && forall k :: j < k < |p| ==> p[k] > v
    ensures InsertPid(p, v) == p[..j + 1] + [v] + p[j + 1..]
  {
    if p != [] && p[|p| - 1] > v {
      var init, last := p[..|p| - 1], p[|p| - 1];
      InsertPidAt(init, v, j);
      assert InsertPid(p, v) == InsertPid(init, v) + [last];
      hide InsertPid;
    } else {
      assert j == |p| - 1;
      assert p[..|p|] == p && p[|p|..] == [];
    }
  }

  lemma {:induction false} InsertPidSorts(p: seq<uint16>, v: uint16)
    requires NonDescending(p)
    ensures NonDescending(InsertPid(p, v)) && multiset(InsertPid(p, v)) == multiset(p) + multiset{v}
  {
    if p != [] && p[|p| - 1] > v {
      var init, last := p[..|p| - 1], p[|p| - 1];
      InsertPidSorts(init, v);
      assert InsertPid(p, v) == InsertPid(init, v) + [last] && p == init + [last];
      hide InsertPid;
      BelowLast(InsertPid(init, v), init, v, last);
    }
  }

  lemma BelowLast(front: seq<uint16>, init: seq<uint16>, v: uint16, last: uint16)
    requires NonDescending(front) && NonDescending(init + [last]) && v < last && multiset(front) == multiset(init) + multiset{v}
    ensures NonDescending(front + [last])
  {
    forall i | 0 <= i < |front| ensures front[i] <= last {
      assert front[i] in multiset(front);
      if front[i] != v {
        assert front[i] in init;
        var j :| 0 <= j < |init| && init[j] == front[i];
        assert (init + [last])[j] <= (init + [last])[|init|];
      }
    }
  }

  /** The sort keeps every PID and puts them in order. */
  lemma {:induction false} SortedPidsAre(p: seq<uint16>)
    ensures NonDescending(SortedPids(p)) && multiset(SortedPids(p)) == multiset(p)
  {
    if p != [] {
      SortedPidsAre(p[..|p| - 1]);
      InsertPidSorts(SortedPids(p[..|p| - 1]), p[|p| - 1]);
      assert p == p[..|p| - 1] + [p[|p| - 1]];
    }
  }

  lemma {:induction false} WithoutRepeatsAre(p: seq<uint16>)
    ensures forall x :: x in WithoutRepeats(p) <==> x in p
    ensures forall i, j :: 0 <= i < j < |WithoutRepeats(p)| ==> WithoutRepeats(p)[i] != WithoutRepeats(p)[j]
  {
    if p != [] {
      WithoutRepeatsAre(p[..|p| - 1]);
      assert p == p[..|p| - 1] + [p[|p| - 1]];
    }
  }

  lemma {:induction false} OnceInMultiset(p: seq<uint16>)
    requires forall i, j :: 0 <= i < j < |p| ==> p[i] != p[j]
    ensures forall x :: multiset(p)[x] <= 1
  {
    if p != [] {
      var init, last := p[..|p| - 1], p[|p| - 1];
      OnceInMultiset(init);
      assert p == init + [last];
      assert last !in init;
    }
  }

  lemma NoTwice(p: seq<uint16>, i: nat, j: nat)
    requires i < j < |p| && p[i] == p[j]
    ensures multiset(p)[p[i]] >= 2
  {
    assert p == p[..j] + [p[j]] + p[j + 1..];
    assert p[i] in p[..j];
  }

  /** A deduplicated list is ascending and holds the same PIDs. */
  lemma DedupedPidsAre(p: seq<uint16>)
    ensures Ascending(DedupedPids(p)) && forall x :: x in DedupedPids(p) <==> x in p
  {
    var q, r := WithoutRepeats(p), DedupedPids(p);
    WithoutRepeatsAre(p);
    SortedPidsAre(q);
    OnceInMultiset(q);
    hide WithoutRepeats, SortedPids;
    forall i, j | 0 <= i < j < |r| ensures r[i] < r[j] {
      if r[i] == r[j] {
        NoTwice(r, i, j);
      }
    }
    forall x ensures x in r <==> x in p {
      assert x in r <==> x in multiset(r);
      assert x in q <==> x in multiset(q);
    }
  }

  lemma SameEmpty(p: seq<uint16>, q: seq<uint16>)
    requires forall x :: x in p <==> x in q
    ensures p == [] <==> q == []
  {
    if |p| > 0 {
      assert p[0] in q;
    }
    if |q| > 0 {
      assert q[0] in p;
    }
  }

  lemma SameHead(p: seq<uint16>, q: seq<uint16>)
    requires Ascending(p) && Ascending(q) && p != [] && q != [] && forall x :: x in p <==> x in q
    ensures p[0] == q[0]
  {
    assert p[0] in q && q[0] in p;
    var i :| 0 <= i < |q| && q[i] == p[0];
    var j :| 0 <= j < |p| && p[j] == q[0];
  }

  lemma TailOf(p: seq<uint16>)
    requires Ascending(p) && p != []
    ensures forall x :: x in p[1..] <==> x in p && x != p[0]
  {
    assert p == [p[0]] + p[1..];
  }

  /** An ascending list is decided by what it holds. */
  lemma {:induction false} AscendingUnique(p: seq<uint16>, q: seq<uint16>)
    requires Ascending(p) && Ascending(q) && forall x :: x in p <==> x in q
    ensures p == q
  {
    SameEmpty(p, q);
    if p != [] {
      SameHead(p, q);
      TailOf(p);
      TailOf(q);
      AscendingUnique(p[1..], q[1..]);
      assert p == [p[0]] + p[1..] && q == [q[0]] + q[1..];
    }
  }

  /** The list is sorted in place, each value moved down past the greater ones before it. */
  method SortPids(a: array<uint16>)
    modifies a
    ensures a[..] == SortedPids(old(a[..]))
  {
    ghost var was := a[..];
    var i := 1;
    if a.Length == 0 {
      assert was == [];
      return;
    }
    assert was[..1] == [was[0]] && was[..1][..0] == [];
    while i < a.Length
      invariant 1 <= i <= a.Length
      invariant a[..i] == SortedPids(was[..i]) && a[i..] == was[i..]
    {
      hide SortedPids;
      var v := a[i];
      assert v == was[i] by {
        assert a[i..][0] == was[i..][0];
      }
      ghost var sorted := a[..i];
      ShiftDown(a, i, v);
      SortedOneMore(was, i);
      i := i + 1;
      assert a[i..] == was[i..] by {
        assert was[i..] == was[i - 1..][1..];
      }
    }
    assert was[..a.Length] == was && a[..a.Length] == a[..];
  }

  method ShiftDown(a: array<uint16>, i: nat, v: uint16)
    requires 0 < i < a.Length && a[i] == v
    modifies a
    ensures a[..i + 1] == InsertPid(old(a[..i]), v) && a[i + 1..] == old(a[i + 1..])
  {
    ghost var p, rest := a[..i], a[i + 1..];
    var j := i - 1;
    while j >= 0 && a[j] > v
      invariant -1 <= j < i
      invariant a[..j + 1] == p[..j + 1] && a[j + 2..i + 1] == p[j + 1..i] && a[i + 1..] == rest
      invariant forall k :: j < k < i ==> p[k] > v
      decreases j
    {
      hide InsertPid;
      ghost var before := a[j + 2..i + 1];
      a[j + 1] := a[j];
      assert a[j + 1..i + 1] == [p[j]] + before;
      j := j - 1;
    }
    a[j + 1] := v;
    InsertPidAt(p, v, j);
    assert a[..i + 1] == p[..j + 1] + [v] + p[j + 1..];
  }

  lemma SortedOneMore(was: seq<uint16>, i: nat)
    requires i < |was|
    ensures SortedPids(was[..i + 1]) == InsertPid(SortedPids(was[..i]), was[i])
  {
    assert was[..i + 1][..i] == was[..i];
  }

  method DedupePids(pids: seq<uint16>) returns (out: seq<uint16>)
    ensures out == DedupedPids(pids)
  {
    var kept: seq<uint16> := [];
    for i := 0 to |pids|
      invariant kept == WithoutRepeats(pids[..i])
    {
      assert pids[..i + 1][..i] == pids[..i];
      if pids[i] !in kept {
        kept := kept + [pids[i]];
      }
    }
    assert pids[..|pids|] == pids;
    var a := new uint16[|kept|](n requires 0 <= n < |kept| => kept[n]);
    assert a[..] == kept;
    SortPids(a);
    out := a[..];
  }

  // ---------------------------------------------------------------- records

  /** A checksum: none, that of some data, or a string that is no data's. Checksums are taken to tell data apart. */
  datatype Checksum = NoChecksum | SumOf(data: string) | OtherSum(text: string)

  datatype SourceFile = SourceFile(name: string, sum: Checksum, data: string)

  /** An RDM id, none while it was never seen. */
  datatype Record = Record(
    sourceFiles: seq<SourceFile>,
    manufacturer: string,
    model: string,
    key: string,
    rdmManufacturer: Option<uint16>,
    rdmModel: Option<uint16>,
    rdmOrigin: Origin,
    pids: seq<uint16>,
    pidOrigin: Origin,
    modes: seq<Mode>,
    identityOrigin: Origin,
    createdAt: Option<int>,
    updatedAt: int)

  function KeyFor(manufacturer: string, model: string): string
  {
    Fold(manufacturer) + "|" + Fold(model)
  }

  function HasSum(files: seq<SourceFile>, sum: Checksum): bool
  {
    exists i :: 0 <= i < |files| && files[i].sum == sum
  }

  /** The files of src that dst does not have, by content, are added. */
  function MergeFiles(dst: seq<SourceFile>, src: seq<SourceFile>): seq<SourceFile>
  {
    if src == [] then dst
    else
      var before := MergeFiles(dst, src[..|src| - 1]);
      var f := src[|src| - 1].(sum := SumOf(src[|src| - 1].data));
      if HasSum(before, f.sum) then before else before + [f]
  }

  function CheckStamps(ms: seq<Mode>): seq<Mode>
  {
    seq(|ms|, i requires 0 <= i < |ms| => CheckStamp(ms[i]))
  }

  function Normalized(r: Record): Record
  {
    r.(sourceFiles := MergeFiles([], r.sourceFiles), key := KeyFor(r.manufacturer, r.model), pids := DedupedPids(r.pids), modes := CheckStamps(r.modes))
  }

  function MergeRecord(dst: Record, src: Record): Record
  {
    var manufacturer := if Fold(dst.manufacturer) == "" && Fold(src.manufacturer) != "" then src.manufacturer else dst.manufacturer;
    var model := if Fold(dst.model) == "" && Fold(src.model) != "" then src.model else dst.model;
    Record(
      MergeFiles(dst.sourceFiles, src.sourceFiles),
      manufacturer,
      model,
      KeyFor(manufacturer, model),
      if src.rdmManufacturer.Some? then src.rdmManufacturer else dst.rdmManufacturer,
      if src.rdmModel.Some? then src.rdmModel else dst.rdmModel,
      if (src.rdmManufacturer.Some? || src.rdmModel.Some?) && !src.rdmOrigin.source.Unstated? then src.rdmOrigin else dst.rdmOrigin,
      if |src.pids| > 0 then DedupedPids(dst.pids + src.pids) else dst.pids,
      if |src.pids| > 0 && !src.pidOrigin.source.Unstated? then src.pidOrigin else dst.pidOrigin,
      MergeModes(dst.modes, src.modes),
      if !src.identityOrigin.source.Unstated? && dst.identityOrigin.source.Unstated? then src.identityOrigin else dst.identityOrigin,
      if dst.createdAt.Some? then dst.createdAt else src.createdAt,
      dst.updatedAt)
  }

  // ---------------------------------------------------------------- merging twice

  lemma {:induction false} FilesAdded(dst: seq<SourceFile>, src: seq<SourceFile>)
    ensures dst <= MergeFiles(dst, src)
    ensures forall i :: 0 <= i < |src| ==> HasSum(MergeFiles(dst, src), SumOf(src[i].data))
  {
    if src != [] {
      var n := |src| - 1;
      FilesAdded(dst, src[..n]);
      var before, now := MergeFiles(dst, src[..n]), MergeFiles(dst, src);
      forall i | 0 <= i < |src| ensures HasSum(now, SumOf(src[i].data)) {
        if i < n {
          assert src[..n][i] == src[i];
          var j :| 0 <= j < |before| && before[j].sum == SumOf(src[i].data);
          assert now[j] == before[j];
        } else if !HasSum(before, SumOf(src[n].data)) {
          assert now[|before|].sum == SumOf(src[n].data);
        }
      }
    }
  }

  lemma {:induction false} FilesFixed(files: seq<SourceFile>, src: seq<SourceFile>)
    requires forall i :: 0 <= i < |src| ==> HasSum(files, SumOf(src[i].data))
    ensures MergeFiles(files, src) == files
  {
    hide HasSum;
    if src != [] {
      assert forall i :: 0 <= i < |src| - 1 ==> src[..|src| - 1][i] == src[i];
      FilesFixed(files, src[..|src| - 1]);
    }
  }

  lemma PidsTwice(p: seq<uint16>, q: seq<uint16>)
    ensures DedupedPids(DedupedPids(p + q) + q) == DedupedPids(p + q)
  {
    DedupedPidsAre(p + q);
    DedupedPidsAre(DedupedPids(p + q) + q);
    hide DedupedPids;
    AscendingUnique(DedupedPids(DedupedPids(p + q) + q), DedupedPids(p + q));
  }

  /** Merging the same record again changes nothing, when no two of its mode names fold together. */
  lemma MergeRecordTwice(dst: Record, src: Record)
    requires NamesApart(src.modes) && StampsClean(dst.modes)
    ensures MergeRecord(MergeRecord(dst, src), src) == MergeRecord(dst, src)
  {
    FilesAdded(dst.sourceFiles, src.sourceFiles);
    FilesFixed(MergeFiles(dst.sourceFiles, src.sourceFiles), src.sourceFiles);
    PidsTwice(dst.pids, src.pids);
    MergeModesTwice(dst.modes, src.modes);
    hide MergeFiles, DedupedPids, MergeModes, Fold, NamesApart, StampsClean;
  }

  // ---------------------------------------------------------------- what a merge keeps

  /** A mode of the list before is still where it was, under its name and not emptied; only the first of a name changes. */
  ghost predicate ModeStays(was: seq<Mode>, now: seq<Mode>, i: nat)
    requires i < |was| <= |now|
  {
    ModeKey(now[i]) == ModeKey(was[i]) && (was[i].payload.channels != map[] ==> now[i].payload.channels != map[]) &&
    (FindMode(was, ModeKey(was[i])) != i ==> now[i] == was[i])
  }

  lemma FoldModeStays(ms: seq<Mode>, sm: Mode)
    ensures |ms| <= |FoldMode(ms, sm)| && forall i :: 0 <= i < |ms| ==> ModeStays(ms, FoldMode(ms, sm), i)
  {
    var m := CheckStamp(sm);
    var f := FindMode(ms, ModeKey(m));
    if f < |ms| {
      MergeModeKeeps(ms[f], m);
    }
    hide MergeMode, CheckStamp, Fold;
  }

  lemma StayFinds(was: seq<Mode>, now: seq<Mode>, key: string)
    requires |was| <= |now| && forall i :: 0 <= i < |was| ==> ModeStays(was, now, i)
    ensures FindMode(was, key) < |was| ==> FindMode(now, key) == FindMode(was, key)
  {
    var f := FindMode(was, key);
    hide FindMode, Fold;
    if f < |was| {
      forall j | 0 <= j <= f ensures ModeKey(now[j]) == ModeKey(was[j]) {
        assert ModeStays(was, now, j);
      }
      FindIs(now, key, f);
    }
  }

  lemma {:induction false} FoldModesStay(ms: seq<Mode>, src: seq<Mode>)
    ensures |ms| <= |FoldModes(ms, src)| && forall i :: 0 <= i < |ms| ==> ModeStays(ms, FoldModes(ms, src), i)
  {
    hide Fold;
    if src != [] {
      var before, sm := FoldModes(ms, src[..|src| - 1]), src[|src| - 1];
      FoldModesStay(ms, src[..|src| - 1]);
      FoldModeStays(before, sm);
      hide FoldMode, FindMode;
      forall i | 0 <= i < |ms| ensures ModeStays(ms, FoldMode(before, sm), i) {
        assert ModeStays(ms, before, i) && ModeStays(before, FoldMode(before, sm), i);
        StayFinds(ms, before, ModeKey(ms[i]));
      }
    }
  }

  /** Nothing known is given up. PIDs are united and ascending, a known RDM id stays known and yields
      only to another, no source file is dropped, and every stored mode is there under its name, a
      populated channel map never emptied; modes beyond the first of a name are untouched. */
  lemma NothingLost(dst: Record, src: Record)
    requires Ascending(dst.pids)
    ensures var now := MergeRecord(dst, src);
            Ascending(now.pids) && (forall x :: x in now.pids <==> x in dst.pids || x in src.pids) &&
            (dst.rdmManufacturer.Some? ==> now.rdmManufacturer.Some?) && (src.rdmManufacturer.None? ==> now.rdmManufacturer == dst.rdmManufacturer) &&
            (dst.rdmModel.Some? ==> now.rdmModel.Some?) && (src.rdmModel.None? ==> now.rdmModel == dst.rdmModel) &&
            dst.sourceFiles <= now.sourceFiles &&
            multiset(now.modes) == multiset(FoldModes(dst.modes, src.modes)) && |dst.modes| <= |FoldModes(dst.modes, src.modes)| &&
            forall i :: 0 <= i < |dst.modes| ==> ModeStays(dst.modes, FoldModes(dst.modes, src.modes), i)
  {
    DedupedPidsAre(dst.pids + src.pids);
    FilesAdded(dst.sourceFiles, src.sourceFiles);
    SortModesKeeps(FoldModes(dst.modes, src.modes), "");
    FoldModesStay(dst.modes, src.modes);
    hide MergeFiles, DedupedPids, FoldModes, SortModes, Fold, ModeStays;
  }

  // ---------------------------------------------------------------- the merge as a loop

  method MergeModeList(dst: seq<Mode>, src: seq<Mode>) returns (out: seq<Mode>)
    ensures out == MergeModes(dst, src)
  {
    out := dst;
    for i := 0 to |src|
      invariant out == FoldModes(dst, src[..i])
    {
      hide MergeMode, FindMode, CheckStamp, Fold;
      assert src[..i + 1][..i] == src[..i];
      var sm := CheckStamp(src[i]);
      var found := -1;
      for j := 0 to |out|
        invariant found == -1 && forall k :: 0 <= k < j ==> ModeKey(out[k]) != ModeKey(sm)
      {
        if ModeKey(out[j]) == ModeKey(sm) {
          found := j;
          break;
        }
      }
      FindIs(out, ModeKey(sm), if found < 0 then |out| else found);
      if found < 0 {
        out := out + [sm];
        continue;
      }
      out := out[found := MergeMode(out[found], sm)];
    }
    assert src[..|src|] == src;
    out := SortModes(out);
  }
}
