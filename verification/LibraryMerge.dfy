/** Merging one fixture-type record into another: nothing known is given up, and merging the same record
    again changes nothing. */
module LibraryMerge {
  import opened Prelude
  import opened LibraryModes

  // ---------------------------------------------------------------- the order of mode names

  predicate Before(a: string, b: string)
  {
    if b == "" then false
    else if a == "" then true
    else if a[0] != b[0] then a[0] < b[0]
    else Before(a[1..], b[1..])
  }

  lemma {:induction false} BeforeOrders(a: string, b: string, c: string)
    ensures !Before(a, a) && !(Before(a, b) && Before(b, a)) && (!Before(a, b) && !Before(b, a) ==> a == b)
    ensures Before(a, b) && Before(b, c) ==> Before(a, c)
    ensures !Before(b, a) && !Before(c, b) ==> !Before(c, a)
  {
    if a != "" || b != "" || c != "" {
      if a != "" && b != "" && c != "" {
        BeforeOrders(a[1..], b[1..], c[1..]);
        assert a == [a[0]] + a[1..] && b == [b[0]] + b[1..];
      } else if a != "" && b != "" {
        BeforeOrders(a[1..], b[1..], "");
        assert a == [a[0]] + a[1..] && b == [b[0]] + b[1..];
      } else if a != "" {
        BeforeOrders(a[1..], "", "");
      }
    }
  }

  /** Puts m after everything that does not come after it. */
  function Insert(ms: seq<Mode>, m: Mode): seq<Mode>
  {
    if ms == [] || !Before(ModeKey(m), ModeKey(ms[|ms| - 1])) then ms + [m]
    else Insert(ms[..|ms| - 1], m) + [ms[|ms| - 1]]
  }

  /** The stable sort by folded name. */
  function SortModes(ms: seq<Mode>): seq<Mode>
  {
    if ms == [] then [] else Insert(SortModes(ms[..|ms| - 1]), ms[|ms| - 1])
  }

  ghost predicate InOrder(ms: seq<Mode>)
  {
    forall i, j :: 0 <= i < j < |ms| ==> !Before(ModeKey(ms[j]), ModeKey(ms[i]))
  }

  // ---------------------------------------------------------------- modes by name

  /** The first mode of the name key. */
  function FindMode(ms: seq<Mode>, key: string): (i: nat)
    ensures i <= |ms| && (i < |ms| ==> ModeKey(ms[i]) == key) && forall j :: 0 <= j < i ==> ModeKey(ms[j]) != key
  {
    if ms == [] || ModeKey(ms[0]) == key then 0 else 1 + FindMode(ms[1..], key)
  }

  function FirstMode(ms: seq<Mode>, key: string): Option<Mode>
  {
    var i := FindMode(ms, key);
    if i < |ms| then Some(ms[i]) else None
  }

  /** One incoming mode merged in: into the first mode of its name, else at the end. */
  function FoldMode(ms: seq<Mode>, sm: Mode): seq<Mode>
  {
    var m := CheckStamp(sm);
    var i := FindMode(ms, ModeKey(m));
    if i < |ms| then ms[i := MergeMode(ms[i], m)] else ms + [m]
  }

  function FoldModes(ms: seq<Mode>, src: seq<Mode>): seq<Mode>
  {
    if src == [] then ms else FoldMode(FoldModes(ms, src[..|src| - 1]), src[|src| - 1])
  }

  function MergeModes(dst: seq<Mode>, src: seq<Mode>): seq<Mode>
  {
    SortModes(FoldModes(dst, src))
  }

  ghost predicate NamesApart(ms: seq<Mode>)
  {
    forall i, j :: 0 <= i < j < |ms| ==> ModeKey(ms[i]) != ModeKey(ms[j])
  }

  ghost predicate StampsClean(ms: seq<Mode>)
  {
    forall i :: 0 <= i < |ms| ==> ms[i].stamp.hash == NoHash ==> ms[i].stamp == NO_STAMP
  }

  lemma FindIs(ms: seq<Mode>, key: string, i: nat)
    requires i <= |ms| && (i < |ms| ==> ModeKey(ms[i]) == key) && forall j :: 0 <= j < i ==> ModeKey(ms[j]) != key
    ensures FindMode(ms, key) == i
  {
    hide Fold;
  }

  /** A mode added at the end is the first of its name only if there was none. */
  lemma FirstAppend(ms: seq<Mode>, m: Mode, key: string)
    ensures FirstMode(ms + [m], key) == if FirstMode(ms, key).Some? then FirstMode(ms, key) else if ModeKey(m) == key then Some(m) else None
  {
    var i := FindMode(ms, key);
    hide FindMode, Fold;
    FindIs(ms + [m], key, if i == |ms| && ModeKey(m) != key then |ms| + 1 else i);
  }

  lemma FirstUpdate(ms: seq<Mode>, i: nat, m: Mode, key: string)
    requires i < |ms| && i == FindMode(ms, ModeKey(m)) && ModeKey(ms[i]) == ModeKey(m)
    ensures FirstMode(ms[i := m], key) == if key == ModeKey(m) then Some(m) else FirstMode(ms, key)
  {
    var a := FindMode(ms, key);
    hide FindMode, Fold;
    FindIs(ms[i := m], key, a);
  }

  /** One fold: the first mode of the incoming name becomes the merge, the first of every other stays. */
  lemma FoldModeFirst(ms: seq<Mode>, sm: Mode, key: string)
    ensures var m := CheckStamp(sm);
            FirstMode(FoldMode(ms, sm), key) ==
              if key != ModeKey(m) then FirstMode(ms, key)
              else Some(if FirstMode(ms, key).Some? then MergeMode(FirstMode(ms, key).value, m) else m)
  {
    var m := CheckStamp(sm);
    var i := FindMode(ms, ModeKey(m));
    FirstAppend(ms, m, key);
    if i < |ms| {
      hide MergeMode, CheckStamp, ModeKey;
      FirstUpdate(ms, i, MergeMode(ms[i], m), key);
    }
  }

  /** The first mode of every name after all of src: merged with the one mode of src that has the name. */
  lemma {:induction false} FoldModesFirst(ms: seq<Mode>, src: seq<Mode>, key: string)
    requires NamesApart(src)
    ensures forall i :: 0 <= i < |src| && ModeKey(src[i]) == key ==>
              FirstMode(FoldModes(ms, src), key) ==
                Some(if FirstMode(ms, key).Some? then MergeMode(FirstMode(ms, key).value, CheckStamp(src[i])) else CheckStamp(src[i]))
    ensures (forall i :: 0 <= i < |src| ==> ModeKey(src[i]) != key) ==> FirstMode(FoldModes(ms, src), key) == FirstMode(ms, key)
  {
    hide MergeMode, FirstMode, Fold;
    if src != [] {
      var n := |src| - 1;
      var init := src[..n];
      assert forall i :: 0 <= i < n ==> init[i] == src[i];
      FoldModesFirst(ms, init, key);
      FoldModeFirst(FoldModes(ms, init), src[n], key);
      hide FoldMode, CheckStamp;
    }
  }

  // ---------------------------------------------------------------- the sort

  lemma {:induction false} InsertSorts(ms: seq<Mode>, m: Mode)
    requires InOrder(ms)
    ensures InOrder(Insert(ms, m)) && multiset(Insert(ms, m)) == multiset(ms) + multiset{m}
  {
    hide Fold;
    if ms != [] && Before(ModeKey(m), ModeKey(ms[|ms| - 1])) {
      var n := |ms| - 1;
      assert ms == ms[..n] + [ms[n]];
      InsertSorts(ms[..n], m);
      InsertOrder(Insert(ms[..n], m), ms[..n], m, ms[n]);
    } else {
      AppendOrder(ms, m);
    }
  }

  /** A mode put before others of different names changes the first of no name. */
  lemma {:induction false} InsertFirst(ms: seq<Mode>, m: Mode, key: string)
    ensures FirstMode(Insert(ms, m), key) == FirstMode(ms + [m], key)
  {
    hide Fold, FirstMode;
    FirstAppend(ms, m, key);
    if ms != [] && Before(ModeKey(m), ModeKey(ms[|ms| - 1])) {
      var n := |ms| - 1;
      var init, last := ms[..n], ms[n];
      assert ms == init + [last];
      InsertFirst(init, m, key);
      BeforeOrders(ModeKey(m), ModeKey(last), "");
      FirstAppend(Insert(init, m), last, key);
      FirstAppend(init, m, key);
      FirstAppend(init, last, key);
    }
  }

  lemma InsertKeeps(ms: seq<Mode>, m: Mode, key: string)
    requires InOrder(ms)
    ensures InOrder(Insert(ms, m)) && multiset(Insert(ms, m)) == multiset(ms) + multiset{m}
    ensures FirstMode(Insert(ms, m), key) == FirstMode(ms + [m], key)
  {
    InsertSorts(ms, m);
    InsertFirst(ms, m, key);
  }

  lemma AppendOrder(ms: seq<Mode>, m: Mode)
    requires InOrder(ms) && (ms == [] || !Before(ModeKey(m), ModeKey(ms[|ms| - 1])))
    ensures InOrder(ms + [m])
  {
    hide Fold, Before;
    forall i | 0 <= i < |ms| ensures !Before(ModeKey(m), ModeKey(ms[i])) {
      BeforeOrders(ModeKey(ms[i]), ModeKey(ms[|ms| - 1]), ModeKey(m));
    }
  }

  lemma InsertOrder(front: seq<Mode>, init: seq<Mode>, m: Mode, last: Mode)
    requires InOrder(front) && InOrder(init + [last]) && multiset(front) == multiset(init) + multiset{m} && Before(ModeKey(m), ModeKey(last))
    ensures InOrder(front + [last])
  {
    hide Fold, Before;
    BeforeOrders(ModeKey(m), ModeKey(last), "");
    forall i | 0 <= i < |front| ensures !Before(ModeKey(last), ModeKey(front[i])) {
      assert front[i] in multiset(front);
      if front[i] != m {
        assert front[i] in init;
        var j :| 0 <= j < |init| && init[j] == front[i];
        assert (init + [last])[j] == init[j] && (init + [last])[|init|] == last;
      }
    }
  }

  /** Sorting keeps every mode and the first mode of every name. */
  lemma {:induction false} SortModesKeeps(ms: seq<Mode>, key: string)
    ensures InOrder(SortModes(ms)) && multiset(SortModes(ms)) == multiset(ms)
    ensures FirstMode(SortModes(ms), key) == FirstMode(ms, key)
  {
    hide Fold, FirstMode;
    if ms != [] {
      var n := |ms| - 1;
      assert ms == ms[..n] + [ms[n]];
      SortModesKeeps(ms[..n], key);
      InsertKeeps(SortModes(ms[..n]), ms[n], key);
      FirstAppend(SortModes(ms[..n]), ms[n], key);
      FirstAppend(ms[..n], ms[n], key);
      hide Insert;
      SameAppend(SortModes(ms[..n]), ms[..n], ms[n], key);
    }
  }

  lemma SameAppend(a: seq<Mode>, b: seq<Mode>, m: Mode, key: string)
    requires FirstMode(a, key) == FirstMode(b, key)
    ensures FirstMode(a + [m], key) == FirstMode(b + [m], key)
  {
    FirstAppend(a, m, key);
    FirstAppend(b, m, key);
  }

  lemma {:induction false} SortSorted(ms: seq<Mode>)
    requires InOrder(ms)
    ensures SortModes(ms) == ms
  {
    if ms != [] {
      SortSorted(ms[..|ms| - 1]);
    }
  }

  // ---------------------------------------------------------------- merging twice

  lemma {:induction false} FoldModesFixed(ms: seq<Mode>, src: seq<Mode>)
    requires forall i :: 0 <= i < |src| ==> Settled(ms, src[i])
    ensures FoldModes(ms, src) == ms
  {
    if src != [] {
      var init := src[..|src| - 1];
      assert forall i :: 0 <= i < |init| ==> init[i] == src[i];
      hide Settled, FoldMode;
      FoldModesFixed(ms, init);
    }
  }

  /** The first mode of sm's name has sm merged into it already. */
  ghost predicate Settled(ms: seq<Mode>, sm: Mode)
  {
    var first := FirstMode(ms, ModeKey(CheckStamp(sm)));
    first.Some? && MergeMode(first.value, CheckStamp(sm)) == first.value
  }

  lemma SettledAfter(dst: seq<Mode>, src: seq<Mode>, i: nat)
    requires NamesApart(src) && StampsClean(dst) && i < |src|
    ensures Settled(MergeModes(dst, src), src[i])
  {
    var key, m := ModeKey(src[i]), CheckStamp(src[i]);
    assert ModeKey(m) == key;
    FoldModesFirst(dst, src, key);
    SortModesKeeps(FoldModes(dst, src), key);
    var first := FirstMode(dst, key);
    hide MergeMode, CheckStamp, FoldModes, SortModes, NamesApart;
    if first.Some? {
      MergeModeTwice(first.value, m);
    }
  }

  /** Merging modes is idempotent when no two incoming names fold together. */
  lemma MergeModesTwice(dst: seq<Mode>, src: seq<Mode>)
    requires NamesApart(src) && StampsClean(dst)
    ensures MergeModes(MergeModes(dst, src), src) == MergeModes(dst, src)
  {
    var now := MergeModes(dst, src);
    forall i | 0 <= i < |src| ensures Settled(now, src[i]) {
      SettledAfter(dst, src, i);
    }
    FoldModesFixed(now, src);
    SortModesKeeps(FoldModes(dst, src), "");
    SortSorted(now);
  }
}
