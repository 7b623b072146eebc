/** The library store: an incoming record is added, merged into the record it matches, or found to say
    nothing new; a save that fails takes the change back. */
module LibraryStore {
  import opened Prelude
  import opened LibraryModes
  import opened LibraryMerge
  import opened LibraryRecords

  /** The tolerant comparison of a record's manufacturer and model with another pair. */
  type Matcher = (string, string, string, string) -> bool

  datatype Outcome = Added | Updated | Unchanged

  // ---------------------------------------------------------------- finding a record

  function IndexOfKey(rs: seq<Record>, key: string): (i: nat)
    ensures i <= |rs| && (i < |rs| ==> rs[i].key == key) && forall j :: 0 <= j < i ==> rs[j].key != key
  {
    if rs == [] || rs[0].key == key then 0 else 1 + IndexOfKey(rs[1..], key)
  }

  function IndexOfMatch(rs: seq<Record>, matches: Matcher, manufacturer: string, model: string): (i: nat)
    ensures i <= |rs| && (i < |rs| ==> matches(rs[i].manufacturer, rs[i].model, manufacturer, model))
    ensures forall j :: 0 <= j < i ==> !matches(rs[j].manufacturer, rs[j].model, manufacturer, model)
  {
    if rs == [] || matches(rs[0].manufacturer, rs[0].model, manufacturer, model) then 0
    else 1 + IndexOfMatch(rs[1..], matches, manufacturer, model)
  }

  /** The record with the key, else the first that matches tolerantly. */
  function FindRecord(rs: seq<Record>, matches: Matcher, manufacturer: string, model: string): (i: nat)
    ensures i <= |rs|
  {
    var i := IndexOfKey(rs, KeyFor(manufacturer, model));
    if i < |rs| then i else IndexOfMatch(rs, matches, manufacturer, model)
  }

  function InsertRecord(rs: seq<Record>, r: Record): seq<Record>
  {
    if rs == [] || !Before(r.key, rs[|rs| - 1].key) then rs + [r] else InsertRecord(rs[..|rs| - 1], r) + [rs[|rs| - 1]]
  }

  /** The stable sort by key. */
  function SortRecords(rs: seq<Record>): seq<Record>
  {
    if rs == [] then [] else InsertRecord(SortRecords(rs[..|rs| - 1]), rs[|rs| - 1])
  }

  // ---------------------------------------------------------------- one upsert

  /** A record as it is stored when it is new. */
  function Fresh(rec: Record, now: int): Record
  {
    var r := Normalized(rec);
    r.(createdAt := if r.createdAt.None? then Some(now) else r.createdAt, updatedAt := now)
  }

  function Upserted(rs: seq<Record>, rec: Record, matches: Matcher, now: int): (seq<Record>, Outcome)
  {
    var i := FindRecord(rs, matches, rec.manufacturer, rec.model);
    if i == |rs| then (SortRecords(rs + [Fresh(rec, now)]), Added)
    else
      var merged := MergeRecord(rs[i], Normalized(rec));
      if merged == rs[i] then (rs, Unchanged) else (rs[i := merged.(updatedAt := now)], Updated)
  }

  /** What every stored record is: under the key of its name, its PIDs ascending, its files and stamps checked. */
  ghost predicate RecordOk(r: Record)
  {
    r.key == KeyFor(r.manufacturer, r.model) && LibraryRecords.Ascending(r.pids) && StampsClean(r.modes) &&
    forall i :: 0 <= i < |r.sourceFiles| ==> r.sourceFiles[i].sum == SumOf(r.sourceFiles[i].data)
  }

  ghost predicate StoreOk(rs: seq<Record>)
  {
    forall i :: 0 <= i < |rs| ==> RecordOk(rs[i])
  }

  class Store {
    var records: seq<Record>

    constructor ()
      ensures records == []
    {
      records := [];
    }

    /** A record with a bad source file is refused, and a change that cannot be saved is taken back. */
    method UpsertChecked(rec: Record, matches: Matcher, now: int, filesOk: bool, saves: bool) returns (outcome: Outcome, ok: bool)
      modifies this
      ensures !filesOk ==> !ok
      ensures var (next, what) := Upserted(old(records), rec, matches, now);
              filesOk ==> (ok <==> what.Unchanged? || saves) && (ok ==> records == next && outcome == what)
      ensures !ok ==> records == old(records) && outcome == Unchanged
    {
      hide Normalized, MergeRecord, SortRecords, FindRecord, Fresh;
      if !filesOk {
        return Unchanged, false;
      }
      var before := records;
      var i := FindRecord(records, matches, rec.manufacturer, rec.model);
      if i == |records| {
        records, outcome := SortRecords(records + [Fresh(rec, now)]), Added;
      } else {
        var merged := MergeRecord(records[i], Normalized(rec));
        if merged == records[i] {
          return Unchanged, true;
        }
        records, outcome := records[i := merged.(updatedAt := now)], Updated;
      }
      if !saves {
        records := before;
        return Unchanged, false;
      }
      return outcome, true;
    }
  }

  // ---------------------------------------------------------------- what the store keeps

  lemma CheckStampsAre(ms: seq<Mode>)
    ensures |CheckStamps(ms)| == |ms| && StampsClean(CheckStamps(ms))
    ensures forall i :: 0 <= i < |ms| ==> ModeKey(CheckStamps(ms)[i]) == ModeKey(ms[i]) && CheckStamp(CheckStamps(ms)[i]) == CheckStamps(ms)[i]
  {
    hide Fold;
  }

  lemma {:induction false} FilesSummed(dst: seq<SourceFile>, src: seq<SourceFile>)
    requires forall i :: 0 <= i < |dst| ==> dst[i].sum == SumOf(dst[i].data)
    ensures forall i :: 0 <= i < |MergeFiles(dst, src)| ==> MergeFiles(dst, src)[i].sum == SumOf(MergeFiles(dst, src)[i].data)
  {
    hide HasSum;
    if src != [] {
      FilesSummed(dst, src[..|src| - 1]);
    }
  }

  lemma NormalizedOk(r: Record)
    ensures RecordOk(Normalized(r))
  {
    DedupedPidsAre(r.pids);
    CheckStampsAre(r.modes);
    FilesSummed([], r.sourceFiles);
    hide DedupedPids, CheckStamps, MergeFiles, Fold, StampsClean;
  }

  lemma {:induction false} FoldStampsClean(ms: seq<Mode>, src: seq<Mode>)
    requires StampsClean(ms)
    ensures StampsClean(FoldModes(ms, src))
  {
    hide Fold;
    if src != [] {
      FoldStampsClean(ms, src[..|src| - 1]);
      var before, m := FoldModes(ms, src[..|src| - 1]), CheckStamp(src[|src| - 1]);
      hide MergeMode, CheckStamp, FindMode;
    }
  }

  lemma SortedStampsClean(ms: seq<Mode>)
    requires StampsClean(ms)
    ensures StampsClean(SortModes(ms))
  {
    SortModesKeeps(ms, "");
    hide SortModes;
    var now := SortModes(ms);
    forall i | 0 <= i < |now| && now[i].stamp.hash == NoHash ensures now[i].stamp == NO_STAMP {
      assert now[i] in multiset(ms);
    }
  }

  lemma MergedOk(dst: Record, src: Record)
    requires RecordOk(dst)
    ensures RecordOk(MergeRecord(dst, src))
  {
    DedupedPidsAre(dst.pids + src.pids);
    FilesSummed(dst.sourceFiles, src.sourceFiles);
    FoldStampsClean(dst.modes, src.modes);
    SortedStampsClean(FoldModes(dst.modes, src.modes));
    hide DedupedPids, MergeFiles, FoldModes, SortModes, Fold, StampsClean;
  }

  lemma {:induction false} InsertRecordIs(rs: seq<Record>, r: Record)
    ensures multiset(InsertRecord(rs, r)) == multiset(rs) + multiset{r}
  {
    if rs != [] {
      InsertRecordIs(rs[..|rs| - 1], r);
      assert rs == rs[..|rs| - 1] + [rs[|rs| - 1]];
    }
  }

  lemma {:induction false} SortRecordsIs(rs: seq<Record>)
    ensures multiset(SortRecords(rs)) == multiset(rs)
  {
    if rs != [] {
      SortRecordsIs(rs[..|rs| - 1]);
      InsertRecordIs(SortRecords(rs[..|rs| - 1]), rs[|rs| - 1]);
      assert rs == rs[..|rs| - 1] + [rs[|rs| - 1]];
    }
  }

  /** Every upsert leaves a store of checked records, and never fewer of them. */
  lemma UpsertKeeps(rs: seq<Record>, rec: Record, matches: Matcher, now: int)
    requires StoreOk(rs)
    ensures var (next, what) := Upserted(rs, rec, matches, now);
            StoreOk(next) && |next| == |rs| + (if what.Added? then 1 else 0)
  {
    var i := FindRecord(rs, matches, rec.manufacturer, rec.model);
    if i == |rs| {
      NormalizedOk(rec);
      var all := rs + [Fresh(rec, now)];
      SortRecordsIs(all);
      hide SortRecords, RecordOk, Normalized, FindRecord;
      FreshOk(rec, now);
      SameLength(SortRecords(all), all);
      forall j | 0 <= j < |SortRecords(all)| ensures RecordOk(SortRecords(all)[j]) {
        assert SortRecords(all)[j] in multiset(all);
        var k :| 0 <= k < |all| && all[k] == SortRecords(all)[j];
      }
    } else {
      hide Normalized, FindRecord, MergeRecord, RecordOk;
      MergedOk(rs[i], Normalized(rec));
      StampedOk(MergeRecord(rs[i], Normalized(rec)), now);
    }
  }

  lemma SameLength(a: seq<Record>, b: seq<Record>)
    requires multiset(a) == multiset(b)
    ensures |a| == |b|
  {
    assert |multiset(a)| == |a| && |multiset(b)| == |b|;
  }

  lemma FreshOk(rec: Record, now: int)
    requires RecordOk(Normalized(rec))
    ensures RecordOk(Fresh(rec, now)) && Fresh(rec, now).key == KeyFor(rec.manufacturer, rec.model)
  {
    hide DedupedPids, CheckStamps, MergeFiles, Fold;
  }

  lemma StampedOk(r: Record, now: int)
    requires RecordOk(r)
    ensures RecordOk(r.(updatedAt := now))
  {}

  // ---------------------------------------------------------------- the same record again

  lemma FindsAgain(rs: seq<Record>, r: Record, matches: Matcher, manufacturer: string, model: string)
    requires var i := FindRecord(rs, matches, manufacturer, model);
             i < |rs| && r.key == rs[i].key && r.manufacturer == rs[i].manufacturer && r.model == rs[i].model
    ensures FindRecord(rs[FindRecord(rs, matches, manufacturer, model) := r], matches, manufacturer, model) == FindRecord(rs, matches, manufacturer, model)
  {
    hide Fold;
    var i := FindRecord(rs, matches, manufacturer, model);
    var now := rs[i := r];
    assert forall j :: 0 <= j < |rs| ==> now[j].key == rs[j].key && now[j].manufacturer == rs[j].manufacturer && now[j].model == rs[j].model;
  }

  /** Importing the same record again, after it was merged into a record of known name, is no change. */
  lemma UpdateThenUnchanged(rs: seq<Record>, rec: Record, matches: Matcher, now: int, later: int)
    requires StoreOk(rs) && NamesApart(rec.modes)
    requires var i := FindRecord(rs, matches, rec.manufacturer, rec.model);
             i < |rs| && Fold(rs[i].manufacturer) != "" && Fold(rs[i].model) != ""
    ensures var next := Upserted(rs, rec, matches, now).0;
            Upserted(next, rec, matches, later) == (next, Unchanged)
  {
    var i, src := FindRecord(rs, matches, rec.manufacturer, rec.model), Normalized(rec);
    var merged := MergeRecord(rs[i], src);
    assert RecordOk(rs[i]);
    assert merged.key == rs[i].key && merged.manufacturer == rs[i].manufacturer && merged.model == rs[i].model;
    MergeRecordTwice(rs[i], src);
    FindsAgain(rs, merged.(updatedAt := now), matches, rec.manufacturer, rec.model);
    hide FindRecord, MergeRecord, Normalized, Fold, RecordOk;
    if merged != rs[i] {
      var next := rs[i := merged.(updatedAt := now)];
      assert Upserted(rs, rec, matches, now).0 == next;
      assert next[i] == merged.(updatedAt := now);
      assert MergeRecord(next[i], src) == next[i];
    }
  }

  lemma MergeOnItself(ms: seq<Mode>)
    requires NamesApart(ms) && forall j :: 0 <= j < |ms| ==> CheckStamp(ms[j]) == ms[j]
    ensures MergeModes(ms, ms) == ms <==> InOrder(ms)
  {
    assert forall i :: 0 <= i < |ms| ==> Settled(ms, ms[i]);
    FoldModesFixed(ms, ms);
    SortModesKeeps(ms, "");
    if InOrder(ms) {
      SortSorted(ms);
    }
  }

  lemma PidsOnThemselves(p: seq<uint16>)
    requires LibraryRecords.Ascending(p)
    ensures DedupedPids(p + p) == p
  {
    DedupedPidsAre(p + p);
    hide DedupedPids;
    AscendingUnique(DedupedPids(p + p), p);
  }

  lemma FilesOnThemselves(files: seq<SourceFile>)
    requires forall i :: 0 <= i < |files| ==> files[i].sum == SumOf(files[i].data)
    ensures MergeFiles(files, files) == files
  {
    forall i | 0 <= i < |files| ensures HasSum(files, SumOf(files[i].data)) {
      assert files[i].sum == SumOf(files[i].data);
    }
    FilesFixed(files, files);
  }

  /** A record merged into what was stored of it says nothing new exactly when its modes were in the
      order of their names. */
  lemma FreshRepeated(rec: Record, now: int)
    requires NamesApart(rec.modes)
    ensures MergeRecord(Fresh(rec, now), Normalized(rec)) == Fresh(rec, now) <==> InOrder(rec.modes)
  {
    var src := Normalized(rec);
    NormalizedOk(rec);
    CheckStampsAre(rec.modes);
    MergeOnItself(src.modes);
    assert InOrder(src.modes) <==> InOrder(rec.modes) by {
      hide CheckStamps, Fold, Before;
    }
    PidsOnThemselves(src.pids);
    FilesOnThemselves(src.sourceFiles);
    hide MergeModes, DedupedPids, MergeFiles, CheckStamps, Fold, InOrder, NamesApart, StampsClean;
  }

  /** Importing the same record again, after it was added, is no change exactly when its modes were in
      the order of their names: adding keeps the modes as they came, merging puts them in order. */
  lemma AddThenRepeat(rs: seq<Record>, rec: Record, matches: Matcher, now: int, later: int)
    requires FindRecord(rs, matches, rec.manufacturer, rec.model) == |rs| && NamesApart(rec.modes)
    ensures var next := Upserted(rs, rec, matches, now).0;
            Upserted(next, rec, matches, later).1 == Unchanged <==> InOrder(rec.modes)
  {
    var all := rs + [Fresh(rec, now)];
    var next := SortRecords(all);
    var key := KeyFor(rec.manufacturer, rec.model);
    assert IndexOfKey(rs, key) == |rs|;
    SortRecordsIs(all);
    NormalizedOk(rec);
    FreshOk(rec, now);
    FreshRepeated(rec, now);
    FoundFresh(rs, next, Fresh(rec, now), key);
    hide SortRecords, Fresh, Normalized, MergeRecord, InOrder, Fold, RecordOk;
  }

  function NamedMode(name: string): Mode
  {
    Mode(Payload(name, 1, map[], [], false), Origin(GdtfFile, "", 0), NO_STAMP)
  }

  /** A record whose modes come as B and A: importing it a second time is an update. */
  lemma RepeatUpdates(rec: Record, matches: Matcher, now: int, later: int)
    requires rec.modes == [NamedMode("B"), NamedMode("A")]
    ensures Upserted(Upserted([], rec, matches, now).0, rec, matches, later).1 != Unchanged
  {
    NamesFold();
    hide Upserted, NamedMode, ModeKey;
    assert Before(ModeKey(rec.modes[1]), ModeKey(rec.modes[0]));
    AddThenRepeat([], rec, matches, now, later);
  }

  lemma NamesFold()
    ensures ModeKey(NamedMode("A")) == "a" && ModeKey(NamedMode("B")) == "b" && Before("a", "b") && "a" != "b"
  {
    assert "A"[..0] == "" && "B"[..0] == "" && "a"[0] != "b"[0];
  }

  lemma FoundFresh(rs: seq<Record>, next: seq<Record>, stored: Record, key: string)
    requires IndexOfKey(rs, key) == |rs| && stored.key == key && multiset(next) == multiset(rs + [stored])
    ensures IndexOfKey(next, key) < |next| && next[IndexOfKey(next, key)] == stored
  {
    hide IndexOfKey;
    var i := IndexOfKey(next, key);
    assert (rs + [stored])[|rs|] == stored;
    assert stored in multiset(next);
    if i < |next| {
      assert next[i] in multiset(rs + [stored]);
      assert next[i] in rs + [stored];
    }
  }
}
