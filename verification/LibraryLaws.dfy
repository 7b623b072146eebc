/** What of a merged mode, record and store comes from where, told by their fields, and what names are taken
    to be the same. */
module LibraryLaws {
  import opened Prelude
  import opened LibraryModes
  import opened LibraryMerge
  import opened LibraryRecords
  import opened LibraryStore

  // ---------------------------------------------------------------- names

  predicate Blank(s: string)
  {
    forall i :: 0 <= i < |s| ==> s[i] in {' ', '\t', '\n', '\r'}
  }

  /** s is one word: no white space in it. */
  predicate IsWord(s: string)
  {
    s != "" && forall i :: 0 <= i < |s| ==> s[i] !in {' ', '\t', '\n', '\r'}
  }

  lemma {:induction false} BlankFolds(s: string)
    requires Blank(s)
    ensures Fold(s) == ""
  {
    if s != "" {
      BlankFolds(s[..|s| - 1]);
    }
  }

  /** w with its capitals made small. */
  function Small(w: string): string
  {
    seq(|w|, i requires 0 <= i < |w| => if 'A' <= w[i] <= 'Z' then w[i] - 'A' + 'a' else w[i])
  }

  /** A word behind white space, or behind nothing, is folded letter by letter, one space before it unless it
      is the first. */
  lemma {:induction false} WordFolds(front: string, w: string)
    requires IsWord(w) && (front == "" || front[|front| - 1] in {' ', '\t', '\n', '\r'})
    ensures Fold(front + w) == (if Fold(front) == "" then "" else Fold(front) + " ") + Small(w)
  {
    var n := |w| - 1;
    LetterFolds(front + w[..n], w[n]);
    assert (front + w[..n]) + [w[n]] == front + w;
    assert Small(w) == Small(w[..n]) + Small([w[n]]);
    hide Fold;
    if n > 0 {
      WordFolds(front, w[..n]);
      assert (front + w[..n])[|front| + n - 1] == w[n - 1];
    } else {
      assert front + w[..0] == front && Small(w[..0]) == "";
    }
  }

  lemma LetterFolds(front: string, c: char)
    requires c !in {' ', '\t', '\n', '\r'}
    ensures Fold(front + [c]) ==
              Fold(front) + (if Fold(front) != "" && front[|front| - 1] in {' ', '\t', '\n', '\r'} then " " else "") + Small([c])
  {
    var all := front + [c];
    assert all[..|all| - 1] == front;
  }

  lemma SpaceFolds(front: string, space: string)
    requires Blank(space)
    ensures Fold(front + space) == Fold(front)
    decreases |space|
  {
    if space == "" {
      assert front + space == front;
    } else {
      var all := front + space;
      assert all[..|all| - 1] == front + space[..|space| - 1] && all[|all| - 1] == space[|space| - 1];
      SpaceFolds(front, space[..|space| - 1]);
    }
  }

  /** White space at the ends and the length of it between two words make no difference, nor do capitals. */
  lemma TwoWordsFold(a: string, b: string, space: string, v: string, w: string)
    requires Blank(a) && Blank(b) && Blank(space) && space != "" && IsWord(v) && IsWord(w)
    ensures Fold(a + v + space + w + b) == Small(v) + " " + Small(w)
    ensures Fold(a + v + b) == Small(v)
  {
    hide Fold;
    BlankFolds(a);
    assert a == "" || a[|a| - 1] in {' ', '\t', '\n', '\r'};
    WordFolds(a, v);
    SpaceFolds(a + v, b);
    SpaceFolds(a + v, space);
    WordFolds(a + v + space, w);
    SpaceFolds(a + v + space + w, b);
  }

  // ---------------------------------------------------------------- a merged mode

  /** A channel known without its detail: as it is stored, or without the default that is stored. */
  predicate Poorer(come: Channel, was: Channel)
  {
    come.detail.None? && (come.plain == was.plain || (was.plain.hasDefault && come.plain == Plain(was.plain.text, false, 0, 0)))
  }

  /** The same profile in less detail: the same footprint and channels, each without its detail, where the
      stored mode has detail or wheels and the incoming one knows no wheels. */
  lemma LessDetailedIs(come: Payload, was: Payload)
    ensures LessDetailed(come, was) <==>
              come.footprint == was.footprint && come.wheels == [] && !come.wheelsKnown && come.channels != map[] &&
              (was.wheelsKnown || exists o :: o in was.channels && was.channels[o].detail.Some?) &&
              come.channels.Keys == was.channels.Keys && forall o :: o in come.channels ==> Poorer(come.channels[o], was.channels[o])
  {
    var plains, known := Plains(come.channels), AsKnownTo(was.channels, come.channels);
    assert plains.Keys == come.channels.Keys && known.Keys == was.channels.Keys;
    if plains == known && !HasDetail(come.channels) {
      forall o | o in come.channels ensures Poorer(come.channels[o], was.channels[o]) {
        assert plains[o] == known[o];
      }
    }
    if come.channels.Keys == was.channels.Keys && forall o :: o in come.channels ==> Poorer(come.channels[o], was.channels[o]) {
      assert plains == known;
    }
  }

  /** The merged mode's name, and where its channels, footprint, wheels and origin come from: everything from
      the stored mode where the incoming one is the same profile in less detail; the channels and their origin
      where the incoming one has none; and else all from the incoming one, but for the origin of data that
      comes again from the same kind of source. */
  lemma ModeMerged(stored: Mode, incoming: Mode)
    ensures var now, less := MergeMode(stored, incoming), LessDetailed(incoming.payload, stored.payload);
            var was, came := stored.payload, incoming.payload;
            var bare := came.channels == map[] && was.channels != map[];
            (less ==> now.payload == was && now.origin == stored.origin) &&
            (!less ==> now.payload.name == (if came.name == "" then was.name else came.name) && now.payload.footprint == came.footprint &&
                       now.payload.wheels == came.wheels && now.payload.wheelsKnown == came.wheelsKnown &&
                       now.payload.channels == (if bare then was.channels else came.channels) &&
                       now.origin == (if bare || (was == came && stored.origin.source == incoming.origin.source) then stored.origin else incoming.origin))
  {
    hide LessDetailed;
  }

  /** The merged mode's stamp is the incoming one, or the stored one where nothing of the payload changed and the
      incoming mode has none; but never one of another payload. */
  lemma StampMerged(stored: Mode, incoming: Mode)
    requires StampOk(stored) && StampOk(incoming)
    ensures var now := MergeMode(stored, incoming);
            (now.payload == stored.payload && incoming.stamp == NO_STAMP ==> now.stamp == stored.stamp) &&
            (now.payload == incoming.payload && incoming.stamp != NO_STAMP && !LessDetailed(incoming.payload, stored.payload) ==> now.stamp == incoming.stamp) &&
            (now.payload != stored.payload && now.payload != incoming.payload ==> now.stamp == NO_STAMP)
  {
    hide LessDetailed;
  }

  // ---------------------------------------------------------------- a merged record

  /** The merged files: those there were, and behind them every incoming one of new content, once, its checksum
      taken of its data. */
  lemma {:induction false} FilesMerged(dst: seq<SourceFile>, src: seq<SourceFile>)
    ensures dst <= MergeFiles(dst, src) && forall j :: 0 <= j < |src| ==> HasSum(MergeFiles(dst, src), SumOf(src[j].data))
    ensures forall i :: |dst| <= i < |MergeFiles(dst, src)| ==> FromSource(src, MergeFiles(dst, src)[i])
    ensures forall i, k :: 0 <= i < k < |MergeFiles(dst, src)| && |dst| <= k ==> MergeFiles(dst, src)[i].sum != MergeFiles(dst, src)[k].sum
  {
    FilesAdded(dst, src);
    if src != [] {
      var n := |src| - 1;
      FilesMerged(dst, src[..n]);
      var before, now, f := MergeFiles(dst, src[..n]), MergeFiles(dst, src), src[n].(sum := SumOf(src[n].data));
      assert now == if HasSum(before, f.sum) then before else before + [f];
      hide MergeFiles;
      forall i | |dst| <= i < |now| ensures FromSource(src, now[i]) {
        if i < |before| {
          assert FromSource(src[..n], before[i]);
        } else {
          assert now[i] == f && src[n].name == f.name;
        }
      }
    }
  }

  /** f is one of src, with its checksum taken. */
  ghost predicate FromSource(src: seq<SourceFile>, f: SourceFile)
  {
    exists j :: 0 <= j < |src| && src[j].name == f.name && src[j].data == f.data && f.sum == SumOf(f.data)
  }

  /** The existing name is kept, spelled as it was, unless it is blank; an RDM id that is known now replaces the
      stored one; what the record was made and last changed at stays. */
  lemma RecordMerged(dst: Record, src: Record)
    ensures var now := MergeRecord(dst, src);
            now.manufacturer == (if Blank(dst.manufacturer) && !Blank(src.manufacturer) then src.manufacturer else dst.manufacturer) &&
            now.model == (if Blank(dst.model) && !Blank(src.model) then src.model else dst.model) &&
            now.key == Fold(now.manufacturer) + "|" + Fold(now.model) &&
            (src.rdmManufacturer.Some? ==> now.rdmManufacturer == src.rdmManufacturer) && (src.rdmManufacturer.None? ==> now.rdmManufacturer == dst.rdmManufacturer) &&
            (src.rdmModel.Some? ==> now.rdmModel == src.rdmModel) && (src.rdmModel.None? ==> now.rdmModel == dst.rdmModel) &&
            (dst.createdAt.Some? ==> now.createdAt == dst.createdAt) && now.updatedAt == dst.updatedAt
  {
    BlankIs(dst.manufacturer);
    BlankIs(src.manufacturer);
    BlankIs(dst.model);
    BlankIs(src.model);
    hide Blank;
  }

  lemma {:induction false} BlankIs(s: string)
    ensures Fold(s) == "" <==> Blank(s)
  {
    if s != "" {
      BlankIs(s[..|s| - 1]);
      assert Blank(s) <==> Blank(s[..|s| - 1]) && s[|s| - 1] in {' ', '\t', '\n', '\r'};
    }
  }

  // ---------------------------------------------------------------- the store

  ghost predicate ByKey(rs: seq<Record>)
  {
    forall i, j :: 0 <= i < j < |rs| ==> !Before(rs[j].key, rs[i].key)
  }

  lemma {:induction false} InsertHas(rs: seq<Record>, r: Record)
    ensures forall i :: 0 <= i < |InsertRecord(rs, r)| ==> InsertRecord(rs, r)[i] == r || InsertRecord(rs, r)[i] in rs
  {
    if rs != [] {
      InsertHas(rs[..|rs| - 1], r);
    }
  }

  lemma {:induction false} InsertOrders(rs: seq<Record>, r: Record)
    requires ByKey(rs)
    ensures ByKey(InsertRecord(rs, r))
  {
    if rs == [] {
      return;
    }
    var n := |rs| - 1;
    if Before(r.key, rs[n].key) {
      InsertOrders(rs[..n], r);
      InsertHas(rs[..n], r);
      BeforeOrders(r.key, rs[n].key, "");
      ByKeyMore(InsertRecord(rs[..n], r), rs[n]);
    } else {
      forall i | 0 <= i < |rs| ensures !Before(r.key, rs[i].key) {
        BeforeOrders(rs[i].key, rs[n].key, r.key);
      }
      ByKeyMore(rs, r);
    }
  }

  lemma ByKeyMore(rs: seq<Record>, r: Record)
    requires ByKey(rs) && forall i :: 0 <= i < |rs| ==> !Before(r.key, rs[i].key)
    ensures ByKey(rs + [r])
  {
    var all := rs + [r];
    forall i, j | 0 <= i < j < |all| ensures !Before(all[j].key, all[i].key) {
      assert all[i] == rs[i] && (j < |rs| ==> all[j] == rs[j]);
    }
  }

  lemma {:induction false} RecordsSorted(rs: seq<Record>)
    ensures ByKey(SortRecords(rs)) && multiset(SortRecords(rs)) == multiset(rs)
  {
    hide ByKey;
    SortRecordsIs(rs);
    if rs == [] {
      NothingByKey();
    } else {
      RecordsSorted(rs[..|rs| - 1]);
      InsertOrders(SortRecords(rs[..|rs| - 1]), rs[|rs| - 1]);
    }
  }

  lemma NothingByKey()
    ensures ByKey([])
  {}

  /** Record i is the one an incoming record of this name is merged into: the first under its key, or, where there
      is none, the first that matches it. */
  predicate MergesInto(rs: seq<Record>, matches: Matcher, manufacturer: string, model: string, i: int)
  {
    0 <= i < |rs| &&
    if exists j :: 0 <= j < |rs| && rs[j].key == Fold(manufacturer) + "|" + Fold(model) then
      rs[i].key == Fold(manufacturer) + "|" + Fold(model) && forall j :: 0 <= j < i ==> rs[j].key != Fold(manufacturer) + "|" + Fold(model)
    else
      matches(rs[i].manufacturer, rs[i].model, manufacturer, model) &&
      forall j :: 0 <= j < i ==> !matches(rs[j].manufacturer, rs[j].model, manufacturer, model)
  }

  lemma FindIsMerge(rs: seq<Record>, matches: Matcher, manufacturer: string, model: string)
    ensures var n := FindRecord(rs, matches, manufacturer, model);
            (forall i :: MergesInto(rs, matches, manufacturer, model, i) <==> i == n && n < |rs|)
  {
    hide Fold;
  }

  /** next is rs with the incoming record merged into record i, if that makes a difference. */
  ghost predicate MergedAt(rs: seq<Record>, rec: Record, now: int, i: nat, next: seq<Record>, what: Outcome)
    requires i < |rs|
  {
    var merged := MergeRecord(rs[i], Normalized(rec));
    (what.Unchanged? <==> merged == rs[i]) && (what.Unchanged? ==> next == rs) && |next| == |rs| &&
    (what.Updated? ==> next[i] == merged.(updatedAt := now)) && forall j :: 0 <= j < |rs| && j != i ==> next[j] == rs[j]
  }

  /** An upsert adds a record of no known name, in its place among the keys; else it merges it into the one record
      it belongs to, and says so only if that changed. Every other record stays as it is. */
  lemma UpsertExactly(rs: seq<Record>, rec: Record, matches: Matcher, now: int)
    ensures var (next, what) := Upserted(rs, rec, matches, now);
            (what.Added? <==> forall i :: !MergesInto(rs, matches, rec.manufacturer, rec.model, i)) &&
            (what.Added? ==> ByKey(next) && multiset(next) == multiset(rs) + multiset{Fresh(rec, now)}) &&
            forall i: nat :: MergesInto(rs, matches, rec.manufacturer, rec.model, i) ==> MergedAt(rs, rec, now, i, next, what)
  {
    hide MergesInto, ByKey, MergedAt;
    FindIsMerge(rs, matches, rec.manufacturer, rec.model);
    var n := FindRecord(rs, matches, rec.manufacturer, rec.model);
    if n == |rs| {
      RecordsSorted(rs + [Fresh(rec, now)]);
    } else {
      MergesAt(rs, rec, matches, now, n);
      assert MergesInto(rs, matches, rec.manufacturer, rec.model, n);
    }
  }

  lemma MergesAt(rs: seq<Record>, rec: Record, matches: Matcher, now: int, n: nat)
    requires n == FindRecord(rs, matches, rec.manufacturer, rec.model) < |rs|
    ensures var (next, what) := Upserted(rs, rec, matches, now);
            !what.Added? && MergedAt(rs, rec, now, n, next, what)
  {}

  /** A record as it is first stored: under the key of its name, dated now unless it says when it was made, its PIDs
      ascending, its modes' stamps checked. */
  lemma FreshIs(rec: Record, now: int)
    ensures var r := Fresh(rec, now);
            r.manufacturer == rec.manufacturer && r.model == rec.model && r.key == Fold(rec.manufacturer) + "|" + Fold(rec.model) &&
            r.createdAt == (if rec.createdAt.Some? then rec.createdAt else Some(now)) && r.updatedAt == now &&
            LibraryRecords.Ascending(r.pids) && (forall x :: x in r.pids <==> x in rec.pids) && |r.modes| == |rec.modes| &&
            forall i :: 0 <= i < |r.modes| ==> r.modes[i].payload == rec.modes[i].payload && StampOk(r.modes[i])
  {
    DedupedPidsAre(rec.pids);
    CheckStampsAre(rec.modes);
    hide Fold;
  }
}
